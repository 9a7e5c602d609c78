/**
  What the memory holds, and not only which ids: the contents of every record over every run,
  what a file replays to, and what an append, a registration and a removal do in full.
*/
module MemoryContents {
  import opened Common
  import opened MemoryStore
  import opened MemoryEviction
  import opened MemoryRuns

  // ----- Records -----

  /** Equal but for the tier and the time of the last access. */
  predicate SameData(a: MemoryRecord, b: MemoryRecord) {
    && a.id == b.id && a.process == b.process && a.timestamp == b.timestamp && a.content == b.content
    && a.tokens == b.tokens && a.importance == b.importance && a.tags == b.tags
  }

  /** `r` has the data that a caller appended: at least one token, and an importance between 0 and 1. */
  predicate IsAppended(r: MemoryRecord, name: string, f: Frame) {
    && r.id == f.id && r.process == name && r.timestamp == f.timestamp && r.content == f.content && r.tags == f.tags
    && r.tokens >= 1 && r.tokens >= f.tokens && (r.tokens == f.tokens || r.tokens == 1)
    && 0.0 <= r.importance <= 1.0
    && (0.0 <= f.importance <= 1.0 ==> r.importance == f.importance)
    && (f.importance < 0.0 ==> r.importance == 0.0) && (f.importance > 1.0 ==> r.importance == 1.0)
  }

  /** `r` has the data of a line of the record file: at least one token. */
  predicate IsLoaded(r: MemoryRecord, line: MemoryRecord) {
    SameData(r, line.(tokens := r.tokens)) && (if line.tokens == 0 then r.tokens == 1 else r.tokens == line.tokens)
  }

  // ----- Loading -----

  /** No line after line `i` has its id. */
  predicate LastLine(file: seq<MemoryRecord>, i: nat)
    requires i < |file|
  {
    forall j | i < j < |file| :: file[j].id != file[i].id
  }

  lemma UpsertMembers(rs: seq<MemoryRecord>, r: MemoryRecord, q: MemoryRecord)
    requires DistinctIds(rs)
    ensures q in Upsert(rs, r) <==> q == r || (q in rs && q.id != r.id)
  {
    var t := Upsert(rs, r);
    if r.id in Ids(rs) {
      var i := Position(rs, r.id);
      assert t[i] == r;
      if q in rs && q.id != r.id {
        var j :| 0 <= j < |rs| && rs[j] == q;
        assert t[j] == q;
      }
      if q in t && q != r {
        var j :| 0 <= j < |t| && t[j] == q;
        assert rs[j] == q && j != i;
      }
    } else if q in rs {
      assert q.id in Ids(rs);
    }
  }

  lemma {:induction false} ReplayMembers(file: seq<MemoryRecord>, r: MemoryRecord)
    ensures DistinctIds(Replay(file))
    ensures r in Replay(file) <==> exists i | 0 <= i < |file| :: r == Retier(file[i], Cold) && LastLine(file, i)
    decreases |file|
  {
    if file != [] {
      var front, last := file[..|file| - 1], file[|file| - 1];
      ReplayMembers(front, r);
      ReplayGrows(front, last);
      assert file == front + [last];
      LoadedHolds(front, 1);
      LoadedHolds(file, 1);
      UpsertMembers(Replay(front), Retier(last, Cold), r);
      forall i | 0 <= i < |front|
        ensures LastLine(file, i) <==> LastLine(front, i) && front[i].id != last.id
      {
        assert file[i] == front[i] && file[|front|] == last;
        assert forall j | i < j < |front| :: file[j] == front[j];
      }
      assert LastLine(file, |front|);
      if r in Replay(front) && r.id != last.id {
        var i :| 0 <= i < |front| && r == Retier(front[i], Cold) && LastLine(front, i);
        assert file[i] == front[i] && LastLine(file, i);
      }
    }
  }

  lemma ReplayGrows(front: seq<MemoryRecord>, last: MemoryRecord)
    ensures Replay(front + [last]) == Upsert(Replay(front), Retier(last, Cold))
  {
    InTierSplit(front, [last], Cold);
    var more := InTier([last], Cold);
    assert more == [Retier(last, Cold)];
    UpsertAllSplit([], InTier(front, Cold), more);
    assert more[1..] == [];
  }

  /** Loading a file keeps, for each id, the last line that has it. */
  lemma LastLineWins(file: seq<MemoryRecord>, r: MemoryRecord)
    requires r in Replay(file)
    ensures exists i | 0 <= i < |file| :: IsLoaded(r, file[i]) && LastLine(file, i)
  {
    ReplayMembers(file, r);
    var i :| 0 <= i < |file| && r == Retier(file[i], Cold) && LastLine(file, i);
    assert IsLoaded(r, file[i]);
  }

  // ----- Runs -----

  /** The data of `r` is what the last line of its id in the file says, or what one of the operations appended. */
  predicate HasOrigin(r: MemoryRecord, file: seq<MemoryRecord>, ops: seq<Op>) {
    || (exists i | 0 <= i < |file| :: IsLoaded(r, file[i]) && LastLine(file, i))
    || (exists i | 0 <= i < |ops| :: ops[i].AppendOp? && IsAppended(r, ops[i].name, ops[i].frame))
  }

  predicate AllHaveOrigins(rs: seq<MemoryRecord>, file: seq<MemoryRecord>, ops: seq<Op>) {
    forall r | r in rs :: HasOrigin(r, file, ops)
  }

  predicate Kept(s: Store, file: seq<MemoryRecord>, ops: seq<Op>) {
    && AllHaveOrigins(s.cold, file, ops)
    && forall n | n in s.agents :: AllHaveOrigins(s.agents[n].hot, file, ops) && AllHaveOrigins(s.agents[n].warm, file, ops)
  }

  lemma SameOrigin(a: MemoryRecord, b: MemoryRecord, file: seq<MemoryRecord>, ops: seq<Op>)
    requires SameData(a, b) && HasOrigin(b, file, ops)
    ensures HasOrigin(a, file, ops) && a.tokens >= 1
  {
    if exists i | 0 <= i < |file| :: IsLoaded(b, file[i]) && LastLine(file, i) {
      var i :| 0 <= i < |file| && IsLoaded(b, file[i]) && LastLine(file, i);
      assert IsLoaded(a, file[i]);
    } else {
      var i :| 0 <= i < |ops| && ops[i].AppendOp? && IsAppended(b, ops[i].name, ops[i].frame);
      assert IsAppended(a, ops[i].name, ops[i].frame);
    }
  }

  lemma TouchOrigins(rs: seq<MemoryRecord>, ids: set<Id>, now: real, file: seq<MemoryRecord>, ops: seq<Op>)
    requires AllHaveOrigins(rs, file, ops)
    ensures AllHaveOrigins(Touch(rs, ids, now), file, ops)
  {
    hide HasOrigin;
    TouchAt(rs, ids, now);
    var ts := Touch(rs, ids, now);
    forall r | r in ts
      ensures HasOrigin(r, file, ops)
    {
      var i :| 0 <= i < |ts| && ts[i] == r;
      assert rs[i] in rs && SameRecord(ts[i], rs[i]);
      SameOrigin(r, rs[i], file, ops);
    }
  }

  lemma TierOrigins(rs: seq<MemoryRecord>, tier: Tier, file: seq<MemoryRecord>, ops: seq<Op>)
    requires AllHaveOrigins(rs, file, ops)
    ensures AllHaveOrigins(InTier(rs, tier), file, ops)
  {
    hide HasOrigin, InTier;
    InTierIds(rs, tier);
    forall r | r in InTier(rs, tier)
      ensures HasOrigin(r, file, ops)
    {
      var q :| q in rs && r == Retier(q, tier);
      SameOrigin(q, q, file, ops);
      SameOrigin(r, q, file, ops);
    }
  }

  lemma {:induction false} UpsertOrigins(rs: seq<MemoryRecord>, more: seq<MemoryRecord>, file: seq<MemoryRecord>, ops: seq<Op>)
    requires AllHaveOrigins(rs, file, ops) && AllHaveOrigins(more, file, ops)
    ensures AllHaveOrigins(UpsertAll(rs, more), file, ops)
    decreases |more|
  {
    hide HasOrigin;
    if more != [] {
      assert forall r | r in Upsert(rs, more[0]) :: r in rs || r == more[0];
      assert more[0] in more && forall r | r in more[1..] :: r in more;
      UpsertOrigins(Upsert(rs, more[0]), more[1..], file, ops);
    }
  }

  lemma {:induction false} KeptFrom(hot: seq<MemoryRecord>, budget: nat)
    ensures forall r | r in Evict(hot, budget).kept :: r in hot
    decreases |hot|
  {
    if Tokens(hot) > budget {
      KeptFrom(RemoveAt(hot, MinIndex(hot)), budget);
    }
  }

  lemma EvictOrigins(s: Store, name: string, limit: nat, file: seq<MemoryRecord>, ops: seq<Op>)
    requires name in s.agents && Kept(s, file, ops)
    ensures Kept(EvictAgent(s, name, limit), file, ops)
  {
    hide Evict, InTier, UpsertAll, Last, Tokens, HasOrigin;
    var a := s.agents[name];
    var e := Evict(a.hot, a.budget);
    EvictedFrom(a.hot, a.budget);
    KeptFrom(a.hot, a.budget);
    TierOrigins(e.evicted, Warm, file, ops);
    TierOrigins(e.evicted, Cold, file, ops);
    UpsertOrigins(s.cold, InTier(e.evicted, Cold), file, ops);
    LastKeeps(a.warm + InTier(e.evicted, Warm), limit);
  }

  lemma AppendOrigins(s: Store, name: string, f: Frame, limit: nat, file: seq<MemoryRecord>, ops: seq<Op>, i: nat)
    requires Kept(s, file, ops) && Append(s, name, f, limit).Ok? && i < |ops| && ops[i] == AppendOp(name, f)
    ensures Kept(Append(s, name, f, limit).value, file, ops)
  {
    hide EvictAgent;
    var s1, r := Ensure(s, name), NewRecord(name, f);
    assert IsAppended(r, ops[i].name, ops[i].frame);
    hide HasOrigin;
    var a := s1.agents[name];
    var t := s1.(agents := s1.agents[name := a.(hot := a.hot + [r])]);
    EvictOrigins(t, name, limit, file, ops);
  }

  lemma ForgetOrigins(s: Store, id: Id, file: seq<MemoryRecord>, ops: seq<Op>)
    requires Kept(s, file, ops)
    ensures Kept(Forget(s, id).0, file, ops)
  {
    hide Without, HasOrigin;
    WithoutMembers(s.cold, {id});
    forall n | n in s.agents { WithoutMembers(s.agents[n].hot, {id}); }
    forall n | n in s.agents { WithoutMembers(s.agents[n].warm, {id}); }
  }

  lemma AccessOrigins(s: Store, name: string, ids: set<Id>, now: real, file: seq<MemoryRecord>, ops: seq<Op>)
    requires Kept(s, file, ops)
    ensures Kept(AccessAll(s, name, ids, now), file, ops)
  {
    hide Touch, HasOrigin;
    if name in s.agents {
      var a := s.agents[name];
      TouchOrigins(a.hot, ids, now, file, ops);
      TouchOrigins(a.warm, ids - Ids(a.hot), now, file, ops);
      TouchOrigins(s.cold, ids - (Ids(a.hot) + Ids(a.warm)), now, file, ops);
    } else {
      TouchOrigins(s.cold, ids, now, file, ops);
    }
  }

  lemma StepOrigins(s: Store, limit: nat, file: seq<MemoryRecord>, ops: seq<Op>, i: nat)
    requires Kept(s, file, ops) && i < |ops|
    ensures Kept(Apply(s, ops[i], limit), file, ops)
  {
    hide Append, Forget, AccessAll, Slice, Found, HasOrigin;
    match ops[i]
    case RegisterOp(name, budget) =>
    case UnregisterOp(name) =>
    case AppendOp(name, f) =>
      if Append(s, name, f, limit).Ok? { AppendOrigins(s, name, f, limit, file, ops, i); }
    case RecallOp(name, matches, most, now) => AccessOrigins(s, name, Ids(Slice(Found(s, name, matches), most)), now, file, ops);
    case ForgetOp(id) => ForgetOrigins(s, id, file, ops);
  }

  lemma {:induction false} RunOrigins(s: Store, live: set<Id>, limit: nat, file: seq<MemoryRecord>, ops: seq<Op>, i: nat)
    requires Kept(s, file, ops) && i <= |ops|
    ensures Kept(Run(s, live, ops[i..], limit).0, file, ops)
    decreases |ops| - i
  {
    hide Kept, Apply, LiveAfter;
    if i < |ops| {
      StepOrigins(s, limit, file, ops, i);
      assert ops[i..][0] == ops[i] && ops[i..][1..] == ops[i + 1..];
      RunOrigins(Apply(s, ops[i], limit), LiveAfter(s, live, ops[i], limit), limit, file, ops, i + 1);
    }
  }

  /**
    Nothing that is remembered changes: after loading a file and any run of operations, every
    record in every tier has the data of the last line of its id, or of an append.
  */
  lemma ContentsConserved(file: seq<MemoryRecord>, live: set<Id>, ops: seq<Op>, limit: nat)
    ensures Kept(Run(Loaded(file), live, ops, limit).0, file, ops)
  {
    hide HasOrigin;
    forall r | r in Replay(file)
      ensures HasOrigin(r, file, ops)
    {
      LastLineWins(file, r);
      LoadedHasOrigin(r, file, ops);
    }
    assert ops[0..] == ops;
    RunOrigins(Loaded(file), live, limit, file, ops, 0);
  }

  lemma LoadedHasOrigin(r: MemoryRecord, file: seq<MemoryRecord>, ops: seq<Op>)
    requires exists i | 0 <= i < |file| :: IsLoaded(r, file[i]) && LastLine(file, i)
    ensures HasOrigin(r, file, ops)
  {
  }

  // ----- Single operations -----

  /** The tiers of an agent before an append; an unknown one is registered with a budget of 8000. */
  predicate Before(s: Store, name: string, a: Agent) {
    if name in s.agents then a == s.agents[name] else a == Agent(8000, [], [])
  }

  /** `ys` are the records of `xs`, now in `tier`. */
  predicate Retiered(xs: seq<MemoryRecord>, ys: seq<MemoryRecord>, tier: Tier) {
    |ys| == |xs| && forall i | 0 <= i < |xs| :: ys[i] == xs[i].(tier := tier)
  }

  /**
    An append in full. The record comes last among the hot ones. If they fit the budget that is
    all; otherwise the evicted records go, in the order of eviction, to the end of the warm
    tier, of which the last `limit` stay, to the end of the index and to the end of the file.
  */
  lemma AppendExactly(s: Store, name: string, f: Frame, limit: nat, a: Agent) returns (r: MemoryRecord, e: Eviction, warm: seq<MemoryRecord>, cold: seq<MemoryRecord>)
    requires Inv(s, limit) && f.id !in HotIds(s) + Ids(s.cold) && Before(s, name, a)
    ensures Append(s, name, f, limit).Err? <==> name == "" && name !in s.agents
    ensures IsAppended(r, name, f) && r.tier == Hot && r.lastAccessed == f.lastAccessed
    ensures DistinctIds(a.hot + [r]) && e == Evict(a.hot + [r], a.budget)
    ensures Retiered(e.evicted, warm, Warm) && Retiered(e.evicted, cold, Cold)
    ensures Append(s, name, f, limit).Ok? ==>
              var t, all := Append(s, name, f, limit).value, a.warm + warm;
              && t.agents.Keys == s.agents.Keys + {name} && (forall n | n in s.agents && n != name :: t.agents[n] == s.agents[n])
              && t.agents[name].budget == a.budget && t.agents[name].hot == e.kept
              && |t.agents[name].warm| == (if |all| <= limit then |all| else limit)
              && t.agents[name].warm == all[|all| - |t.agents[name].warm|..]
              && t.cold == s.cold + cold && t.file == s.file + cold
  {
    hide Inv, HotIds, Evict, InTier, UpsertAll, Last, Tokens, Append, AllIn;
    r := NewRecord(name, f);
    e := Evict(a.hot + [r], a.budget);
    warm, cold := InTier(e.evicted, Warm), InTier(e.evicted, Cold);
    AppendAccepts(s, name, f, limit);
    OldRecord(s, name, limit, a, f.id);
    OneMoreDistinct(a.hot, r);
    AppendedTiers(s, a, name, r, limit);
    if Append(s, name, f, limit).Ok? {
      AppendForm(s, name, f, limit, a);
      LastIsSuffix(a.warm + warm, limit);
    }
  }

  lemma AppendAccepts(s: Store, name: string, f: Frame, limit: nat)
    ensures Append(s, name, f, limit).Ok? <==> name != "" || name in s.agents
  {
  }

  lemma LastIsSuffix(rs: seq<MemoryRecord>, n: nat)
    ensures |Last(rs, n)| == (if |rs| <= n then |rs| else n) && Last(rs, n) == rs[|rs| - |Last(rs, n)|..]
  {
  }

  lemma AppendForm(s: Store, name: string, f: Frame, limit: nat, a: Agent)
    requires Before(s, name, a) && |a.warm| <= limit && Append(s, name, f, limit).Ok?
    ensures var e := Evict(a.hot + [NewRecord(name, f)], a.budget);
            Append(s, name, f, limit).value
              == Store(s.agents[name := Agent(a.budget, e.kept, Last(a.warm + InTier(e.evicted, Warm), limit))],
                       UpsertAll(s.cold, InTier(e.evicted, Cold)),
                       s.file + InTier(e.evicted, Cold))
  {
    hide Tokens, Evict, InTier, UpsertAll, NewRecord, Last;
    var hot := a.hot + [NewRecord(name, f)];
    var s1 := Ensure(s, name).(agents := Ensure(s, name).agents[name := a.(hot := hot)]);
    NothingMoves(s, a, hot, limit);
    assert Append(s, name, f, limit) == Ok(EvictAgent(s1, name, limit));
    var e := Evict(hot, a.budget);
    var after := Agent(a.budget, e.kept, Last(a.warm + InTier(e.evicted, Warm), limit));
    assert s1.agents[name := after] == s.agents[name := after] && s1.agents[name := s1.agents[name]] == s1.agents;
  }

  lemma NothingMoves(s: Store, a: Agent, hot: seq<MemoryRecord>, limit: nat)
    requires Tokens(hot) <= a.budget ==> |a.warm| <= limit
    ensures var e := Evict(hot, a.budget);
            Tokens(hot) <= a.budget ==>
              && e.kept == hot && Last(a.warm + InTier(e.evicted, Warm), limit) == a.warm
              && UpsertAll(s.cold, InTier(e.evicted, Cold)) == s.cold && s.file + InTier(e.evicted, Cold) == s.file
  {
    if Tokens(hot) <= a.budget {
      assert Evict(hot, a.budget) == Eviction(hot, []) && InTier([], Warm) == [] == InTier([], Cold);
      assert a.warm + [] == a.warm && s.file + [] == s.file && UpsertAll(s.cold, []) == s.cold;
    }
  }

  lemma OldRecord(s: Store, name: string, limit: nat, a: Agent, id: Id)
    requires Inv(s, limit) && id !in HotIds(s) + Ids(s.cold) && Before(s, name, a)
    ensures DistinctIds(a.hot) && AllIn(a.hot, name, Hot) && |a.warm| <= limit
    ensures id !in Ids(a.hot) && Ids(a.hot) !! Ids(s.cold) && id !in Ids(s.cold)
  {
    hide Replay, OfProcess, SameRecords;
    NoIds();
    if name in s.agents {
      assert Ids(a.hot) <= HotIds(s);
    }
  }

  lemma OneMoreDistinct(hot: seq<MemoryRecord>, r: MemoryRecord)
    requires DistinctIds(hot) && r.id !in Ids(hot)
    ensures DistinctIds(hot + [r]) && Ids(hot + [r]) == Ids(hot) + {r.id}
  {
    forall i | 0 <= i < |hot| ensures hot[i].id != r.id { assert hot[i] in hot; }
    IdsAppend(hot, [r]);
    assert Ids([r]) == {r.id};
  }

  lemma AppendedTiers(s: Store, a: Agent, name: string, r: MemoryRecord, limit: nat)
    requires DistinctIds(a.hot + [r]) && AllIn(a.hot, name, Hot) && r.tier == Hot && r.tokens >= 1 && r.process == name
    requires Ids(a.hot + [r]) !! Ids(s.cold)
    ensures var e := Evict(a.hot + [r], a.budget).evicted;
            && Retiered(e, InTier(e, Warm), Warm) && Retiered(e, InTier(e, Cold), Cold)
            && UpsertAll(s.cold, InTier(e, Cold)) == s.cold + InTier(e, Cold)
  {
    var e := Evict(a.hot + [r], a.budget).evicted;
    EvictedTiers(a.hot + [r], name, a.budget);
    EvictedFrom(a.hot + [r], a.budget);
    hide Evict;
    InTierAt(e, Warm);
    InTierAt(e, Cold);
    forall i | 0 <= i < |e| ensures e[i].tokens >= 1 { assert e[i] in e; }
    UpsertFresh(s.cold, InTier(e, Cold));
  }

  /** A registration needs a name and a positive budget, and starts with empty tiers. */
  lemma RegisterExactly(s: Store, name: string, budget: int)
    ensures Register(s, name, budget).Ok? <==> name != "" && budget > 0
    ensures Register(s, name, budget).Ok? ==>
              var t := Register(s, name, budget).value;
              && t.cold == s.cold && t.file == s.file && t.agents.Keys == s.agents.Keys + {name}
              && t.agents[name].budget == budget && t.agents[name].hot == [] == t.agents[name].warm
              && forall n | n in s.agents && n != name :: t.agents[n] == s.agents[n]
  {
  }

  /** Every record of the store, wherever it is kept. */
  predicate Anywhere(s: Store, id: Id) {
    || (exists n, r | n in s.agents && r in s.agents[n].hot :: r.id == id)
    || (exists n, r | n in s.agents && r in s.agents[n].warm :: r.id == id)
    || exists r | r in s.cold :: r.id == id
  }

  /** A removal says whether there was such a record, and afterwards there is none; all others stay. */
  lemma ForgetExactly(s: Store, id: Id, other: Id)
    ensures Forget(s, id).1 <==> Anywhere(s, id)
    ensures Anywhere(Forget(s, id).0, other) <==> Anywhere(s, other) && other != id
  {
    hide Without, Ids, Anywhere, Holding;
    ForgetIds(s, id, other);
    AnywhereIds(s, id);
    AnywhereIds(s, other);
    AnywhereIds(Forget(s, id).0, other);
  }

  lemma ForgetIds(s: Store, id: Id, other: Id)
    ensures var t := Forget(s, id).0;
            && t.agents.Keys == s.agents.Keys
            && (other in Ids(t.cold) <==> other in Ids(s.cold) && other != id)
            && forall n | n in s.agents :: Holding(t.agents[n], other) <==> Holding(s.agents[n], other) && other != id
  {
    hide Without, Ids;
    var t := Forget(s, id).0;
    WithoutMembers(s.cold, {id});
    forall n | n in s.agents
      ensures Holding(t.agents[n], other) <==> Holding(s.agents[n], other) && other != id
    {
      assert t.agents[n] == Forgotten(s.agents[n], id);
      WithoutMembers(s.agents[n].hot, {id});
      WithoutMembers(s.agents[n].warm, {id});
    }
  }

  lemma AnywhereIds(s: Store, id: Id)
    ensures Anywhere(s, id) <==> id in Ids(s.cold) || exists n | n in s.agents :: Holding(s.agents[n], id)
  {
  }
}

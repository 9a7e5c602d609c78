/**
  No memory is lost, and the record file is the index: over every run of operations, hot and
  cold records partition what was loaded and appended and neither forgotten nor dropped.
*/
module MemoryRuns {
  import opened Common
  import opened MemoryStore
  import opened MemoryEviction

  // ----- The invariant -----

  /** Equal but for the time of the last access. */
  predicate SameRecord(a: MemoryRecord, b: MemoryRecord) {
    a == b.(lastAccessed := a.lastAccessed)
  }

  predicate SameRecords(xs: seq<MemoryRecord>, ys: seq<MemoryRecord>) {
    |xs| == |ys| && forall i | 0 <= i < |xs| :: SameRecord(xs[i], ys[i])
  }

  /** Every record has this process, this tier and a positive size. */
  predicate AllIn(rs: seq<MemoryRecord>, name: string, tier: Tier) {
    forall r | r in rs :: r.process == name && r.tier == tier && r.tokens >= 1
  }

  predicate AllCold(rs: seq<MemoryRecord>) {
    forall r | r in rs :: r.tier == Cold && r.tokens >= 1
  }

  predicate AgentOk(a: Agent, name: string, limit: nat) {
    && AllIn(a.hot, name, Hot) && AllIn(a.warm, name, Warm)
    && DistinctIds(a.hot) && DistinctIds(a.warm)
    && Tokens(a.hot) <= a.budget && |a.warm| <= limit
  }

  predicate AgentsOk(s: Store, limit: nat) {
    forall n | n in s.agents :: AgentOk(s.agents[n], n, limit)
  }

  /** No id is hot twice, or both hot and cold. */
  predicate HotApart(s: Store) {
    && (forall n | n in s.agents :: Ids(s.agents[n].hot) !! Ids(s.cold))
    && (forall n, m | n in s.agents && m in s.agents && n != m :: Ids(s.agents[n].hot) !! Ids(s.agents[m].hot))
  }

  /** Every warm record has its copy in the index. */
  predicate WarmCopied(s: Store) {
    forall n | n in s.agents :: Ids(s.agents[n].warm) <= Ids(OfProcess(s.cold, n))
  }

  /** The index has one record for each id, and the file rebuilds it but for last accesses. */
  predicate Indexed(s: Store) {
    DistinctIds(s.cold) && AllCold(s.cold) && SameRecords(Replay(s.file), s.cold)
  }

  predicate Inv(s: Store, limit: nat) {
    AgentsOk(s, limit) && HotApart(s) && WarmCopied(s) && Indexed(s)
  }

  function HotIds(s: Store): set<Id> {
    set n, id | n in s.agents && id in Ids(s.agents[n].hot) :: id
  }

  // ----- Lists -----

  lemma IdsAppend(a: seq<MemoryRecord>, b: seq<MemoryRecord>)
    ensures Ids(a + b) == Ids(a) + Ids(b)
  {
    assert forall r :: r in a + b <==> r in a || r in b;
  }

  lemma DistinctAppend(a: seq<MemoryRecord>, b: seq<MemoryRecord>)
    requires DistinctIds(a) && DistinctIds(b) && Ids(a) !! Ids(b)
    ensures DistinctIds(a + b)
  {
    assert forall i | 0 <= i < |a| :: a[i].id in Ids(a);
    assert forall i | 0 <= i < |b| :: b[i].id in Ids(b);
  }

  lemma LastKeeps(rs: seq<MemoryRecord>, n: nat)
    ensures |Last(rs, n)| <= n && Ids(Last(rs, n)) <= Ids(rs)
    ensures DistinctIds(rs) ==> DistinctIds(Last(rs, n))
    ensures forall r | r in Last(rs, n) :: r in rs
  {
  }

  lemma {:induction false} UpsertFresh(rs: seq<MemoryRecord>, more: seq<MemoryRecord>)
    requires DistinctIds(more) && Ids(rs) !! Ids(more)
    ensures UpsertAll(rs, more) == rs + more
    decreases |more|
  {
    if more != [] {
      HeadFresh(more);
      assert more[0].id !in Ids(rs);
      IdsAppend(rs, [more[0]]);
      assert Ids([more[0]]) == {more[0].id};
      UpsertFresh(rs + [more[0]], more[1..]);
      assert rs + [more[0]] + more[1..] == rs + more;
    }
  }

  lemma {:induction false} UpsertAllSplit(rs: seq<MemoryRecord>, a: seq<MemoryRecord>, b: seq<MemoryRecord>)
    ensures UpsertAll(rs, a + b) == UpsertAll(UpsertAll(rs, a), b)
    decreases |a|
  {
    if a == [] {
      assert a + b == b;
    } else {
      assert (a + b)[0] == a[0] && (a + b)[1..] == a[1..] + b;
      UpsertAllSplit(Upsert(rs, a[0]), a[1..], b);
    }
  }

  lemma {:induction false} InTierSplit(a: seq<MemoryRecord>, b: seq<MemoryRecord>, tier: Tier)
    ensures InTier(a + b, tier) == InTier(a, tier) + InTier(b, tier)
    decreases |a|
  {
    if a == [] {
      assert a + b == b;
    } else {
      assert (a + b)[1..] == a[1..] + b;
      InTierSplit(a[1..], b, tier);
    }
  }

  lemma {:induction false} InTierAt(rs: seq<MemoryRecord>, tier: Tier)
    ensures |InTier(rs, tier)| == |rs|
    ensures forall i | 0 <= i < |rs| :: InTier(rs, tier)[i] == Retier(rs[i], tier)
    decreases |rs|
  {
    if rs != [] {
      InTierAt(rs[1..], tier);
    }
  }

  lemma InTierIds(rs: seq<MemoryRecord>, tier: Tier)
    ensures Ids(InTier(rs, tier)) == Ids(rs)
    ensures DistinctIds(rs) ==> DistinctIds(InTier(rs, tier))
    ensures forall r | r in InTier(rs, tier) :: r.tier == tier && exists q | q in rs :: r == Retier(q, tier)
  {
    InTierAt(rs, tier);
    var ts := InTier(rs, tier);
    forall id
      ensures id in Ids(ts) <==> id in Ids(rs)
    {
      if id in Ids(ts) {
        var i :| 0 <= i < |ts| && ts[i].id == id;
        assert rs[i] in rs;
      }
      if id in Ids(rs) {
        var i :| 0 <= i < |rs| && rs[i].id == id;
        assert ts[i] in ts;
      }
    }
    forall r | r in ts
      ensures r.tier == tier && exists q | q in rs :: r == Retier(q, tier)
    {
      var i :| 0 <= i < |ts| && ts[i] == r;
      assert rs[i] in rs && r == Retier(rs[i], tier);
    }
  }

  lemma InTierSame(rs: seq<MemoryRecord>)
    requires AllCold(rs)
    ensures InTier(rs, Cold) == rs
  {
    InTierAt(rs, Cold);
    forall i | 0 <= i < |rs|
      ensures rs[i] == InTier(rs, Cold)[i]
    {
      assert rs[i] in rs;
    }
  }

  lemma HeadFresh(rs: seq<MemoryRecord>)
    requires rs != []
    ensures Ids(rs) == {rs[0].id} + Ids(rs[1..])
    ensures DistinctIds(rs) ==> rs[0].id !in Ids(rs[1..]) && DistinctIds(rs[1..])
  {
    assert rs == [rs[0]] + rs[1..];
    IdsCons(rs[0], rs[1..]);
    forall r | r in rs[1..] && DistinctIds(rs)
      ensures r.id != rs[0].id
    {
      var i :| 0 <= i < |rs[1..]| && rs[1..][i] == r;
      assert rs[i + 1] == r;
    }
  }

  lemma WithoutCons(rs: seq<MemoryRecord>, gone: set<Id>)
    requires rs != []
    ensures Without(rs, gone) == if rs[0].id in gone then Without(rs[1..], gone) else [rs[0]] + Without(rs[1..], gone)
    ensures Tokens(rs) == rs[0].tokens + Tokens(rs[1..])
    ensures Tokens([rs[0]] + Without(rs[1..], gone)) == rs[0].tokens + Tokens(Without(rs[1..], gone))
  {
    assert ([rs[0]] + Without(rs[1..], gone))[1..] == Without(rs[1..], gone);
  }

  lemma {:induction false} WithoutMembers(rs: seq<MemoryRecord>, gone: set<Id>)
    ensures Ids(Without(rs, gone)) == Ids(rs) - gone
    ensures forall r | r in Without(rs, gone) :: r in rs && r.id !in gone
    ensures DistinctIds(rs) ==> DistinctIds(Without(rs, gone))
    ensures Tokens(Without(rs, gone)) <= Tokens(rs) && |Without(rs, gone)| <= |rs|
    decreases |rs|
  {
    hide Without, Tokens, DistinctIds, Ids;
    if rs == [] {
      WithoutNone(gone);
    } else {
      var rest := Without(rs[1..], gone);
      WithoutMembers(rs[1..], gone);
      WithoutCons(rs, gone);
      HeadFresh(rs);
      if rs[0].id !in gone {
        IdsCons(rs[0], rest);
        if DistinctIds(rs) {
          ConsDistinct(rs[0], rest);
        }
      }
    }
  }

  lemma WithoutNone(gone: set<Id>)
    ensures Without([], gone) == [] && Ids([]) == {} && DistinctIds([]) && Tokens([]) == 0
  {
  }

  lemma {:induction false} OfProcessMembers(rs: seq<MemoryRecord>, name: string)
    ensures forall r :: r in OfProcess(rs, name) <==> r in rs && r.process == name
    ensures DistinctIds(rs) ==> DistinctIds(OfProcess(rs, name))
    ensures Ids(OfProcess(rs, name)) <= Ids(rs)
    decreases |rs|
  {
    if rs != [] {
      OfProcessMembers(rs[1..], name);
      HeadFresh(rs);
      if rs[0].process == name && DistinctIds(rs) {
        ConsDistinct(rs[0], OfProcess(rs[1..], name));
      }
    }
  }

  lemma {:induction false} TouchAt(rs: seq<MemoryRecord>, ids: set<Id>, now: real)
    ensures |Touch(rs, ids, now)| == |rs| && Tokens(Touch(rs, ids, now)) == Tokens(rs)
    ensures SameRecords(Touch(rs, ids, now), rs) && SameRecords(rs, Touch(rs, ids, now))
    decreases |rs|
  {
    if rs != [] {
      TouchAt(rs[1..], ids, now);
    }
  }

  /** Records that differ only in their last access have the same ids, tiers and processes. */
  lemma SameFacts(xs: seq<MemoryRecord>, ys: seq<MemoryRecord>)
    requires SameRecords(xs, ys)
    ensures Ids(xs) == Ids(ys) && (DistinctIds(ys) ==> DistinctIds(xs))
    ensures AllCold(ys) ==> AllCold(xs)
    ensures forall name, tier :: AllIn(ys, name, tier) ==> AllIn(xs, name, tier)
  {
    forall id
      ensures id in Ids(xs) <==> id in Ids(ys)
    {
      if id in Ids(xs) {
        var i :| 0 <= i < |xs| && xs[i].id == id;
        assert ys[i].id == id && ys[i] in ys;
      }
      if id in Ids(ys) {
        var i :| 0 <= i < |ys| && ys[i].id == id;
        assert xs[i].id == id && xs[i] in xs;
      }
    }
    forall r | r in xs
      ensures exists q | q in ys :: SameRecord(r, q)
    {
      var i :| 0 <= i < |xs| && xs[i] == r;
      assert ys[i] in ys && SameRecord(xs[i], ys[i]);
    }
  }

  lemma {:induction false} SameOfProcess(xs: seq<MemoryRecord>, ys: seq<MemoryRecord>, name: string)
    requires SameRecords(xs, ys)
    ensures SameRecords(OfProcess(xs, name), OfProcess(ys, name))
    decreases |xs|
  {
    if xs != [] {
      assert SameRecord(xs[0], ys[0]);
      SameOfProcess(xs[1..], ys[1..], name);
    }
  }

  lemma {:induction false} OfProcessSplit(a: seq<MemoryRecord>, b: seq<MemoryRecord>, name: string)
    ensures OfProcess(a + b, name) == OfProcess(a, name) + OfProcess(b, name)
    decreases |a|
  {
    if a == [] {
      assert a + b == b;
    } else {
      assert (a + b)[1..] == a[1..] + b;
      OfProcessSplit(a[1..], b, name);
    }
  }

  // ----- Appending -----

  /** The index and the file after new records were written to both. */
  lemma IndexedGrows(s: Store, more: seq<MemoryRecord>)
    requires Indexed(s) && DistinctIds(more) && AllCold(more) && Ids(more) !! Ids(s.cold)
    ensures UpsertAll(s.cold, more) == s.cold + more
    ensures Indexed(s.(cold := s.cold + more, file := s.file + more))
  {
    UpsertFresh(s.cold, more);
    DistinctAppend(s.cold, more);
    InTierSplit(s.file, more, Cold);
    InTierSame(more);
    UpsertAllSplit([], InTier(s.file, Cold), more);
    SameFacts(Replay(s.file), s.cold);
    UpsertFresh(Replay(s.file), more);
  }

  /** Evicted records, in the tiers they go to. */
  lemma EvictedTiers(hot: seq<MemoryRecord>, name: string, budget: nat)
    requires AllIn(hot, name, Hot) && DistinctIds(hot)
    ensures var e := Evict(hot, budget).evicted;
            var more, added := InTier(e, Cold), InTier(e, Warm);
            && Ids(more) == Ids(added) == Ids(e) && Ids(e) <= Ids(hot) && DistinctIds(more) && DistinctIds(added)
            && AllCold(more) && AllIn(added, name, Warm) && forall r | r in more :: r.process == name
  {
    hide Evict, InTier;
    EvictShape(hot, budget);
    EvictedFrom(hot, budget);
    InTierIds(Evict(hot, budget).evicted, Cold);
    InTierIds(Evict(hot, budget).evicted, Warm);
  }

  /** The records that stay hot. */
  lemma KeptFacts(hot: seq<MemoryRecord>, name: string, budget: nat)
    requires AllIn(hot, name, Hot) && DistinctIds(hot)
    ensures var e := Evict(hot, budget);
            && AllIn(e.kept, name, Hot) && DistinctIds(e.kept) && Tokens(e.kept) <= budget && Ids(e.kept) == Ids(hot) - Ids(e.evicted)
  {
    hide Evict, Without, Ids;
    EvictShape(hot, budget);
    WithoutMembers(hot, Ids(Evict(hot, budget).evicted));
  }

  /** What one agent's eviction adds to its warm tier and to the index. */
  lemma EvictedFacts(a: Agent, name: string, limit: nat, cold: seq<MemoryRecord>)
    requires AllIn(a.hot, name, Hot) && DistinctIds(a.hot) && Ids(a.hot) !! Ids(cold)
    requires AllIn(a.warm, name, Warm) && DistinctIds(a.warm) && Ids(a.warm) <= Ids(OfProcess(cold, name))
    ensures var e := Evict(a.hot, a.budget);
            var more, warm := InTier(e.evicted, Cold), Last(a.warm + InTier(e.evicted, Warm), limit);
            && Ids(more) == Ids(e.evicted) && DistinctIds(more) && AllCold(more) && Ids(more) !! Ids(cold)
            && AgentOk(Agent(a.budget, e.kept, warm), name, limit)
            && Ids(e.kept) == Ids(a.hot) - Ids(more) && Ids(more) <= Ids(a.hot)
            && Ids(warm) <= Ids(OfProcess(cold + more, name))
  {
    hide Evict, InTier, Ids, DistinctIds, OfProcess, Last, Tokens;
    var e := Evict(a.hot, a.budget);
    var more, added := InTier(e.evicted, Cold), InTier(e.evicted, Warm);
    EvictedTiers(a.hot, name, a.budget);
    KeptFacts(a.hot, name, a.budget);
    OfProcessMembers(cold, name);
    IdsAppend(a.warm, added);
    DistinctAppend(a.warm, added);
    LastKeeps(a.warm + added, limit);
    OfProcessSplit(cold, more, name);
    IdsAppend(OfProcess(cold, name), OfProcess(more, name));
    AllOfProcess(more, name);
  }

  lemma {:induction false} EvictedFrom(hot: seq<MemoryRecord>, budget: nat)
    ensures forall r | r in Evict(hot, budget).evicted :: r in hot
    decreases |hot|
  {
    if Tokens(hot) > budget {
      EvictedFrom(RemoveAt(hot, MinIndex(hot)), budget);
    }
  }

  lemma {:induction false} AllOfProcess(rs: seq<MemoryRecord>, name: string)
    requires forall r | r in rs :: r.process == name
    ensures OfProcess(rs, name) == rs
    decreases |rs|
  {
    if rs != [] {
      AllOfProcess(rs[1..], name);
    }
  }

  /** The invariant, except that `name` may be over its budget. */
  predicate InvBut(s: Store, name: string, limit: nat) {
    && name in s.agents
    && (forall n | n in s.agents && n != name :: AgentOk(s.agents[n], n, limit))
    && AllIn(s.agents[name].hot, name, Hot) && AllIn(s.agents[name].warm, name, Warm)
    && DistinctIds(s.agents[name].hot) && DistinctIds(s.agents[name].warm) && |s.agents[name].warm| <= limit
    && HotApart(s) && WarmCopied(s) && Indexed(s)
  }

  /** `t` is `s` after `name` moved the records `more` to the index and the file. */
  predicate Moved(s: Store, t: Store, name: string, more: seq<MemoryRecord>)
    requires name in s.agents
  {
    && t.agents.Keys == s.agents.Keys && (forall n | n in s.agents && n != name :: t.agents[n] == s.agents[n])
    && t.cold == s.cold + more && t.file == s.file + more
    && Ids(more) <= Ids(s.agents[name].hot) && Ids(t.agents[name].hot) == Ids(s.agents[name].hot) - Ids(more)
  }

  lemma MovedApart(s: Store, t: Store, name: string, more: seq<MemoryRecord>)
    requires name in s.agents && HotApart(s) && Moved(s, t, name, more)
    ensures HotApart(t) && HotIds(t) + Ids(t.cold) == HotIds(s) + Ids(s.cold)
  {
    IdsAppend(s.cold, more);
    hide Ids;
    forall id
      ensures id in HotIds(t) + Ids(t.cold) <==> id in HotIds(s) + Ids(s.cold)
    {
      if id in HotIds(s) {
        var n :| n in s.agents && id in Ids(s.agents[n].hot);
        assert id in Ids(t.agents[n].hot) || id in Ids(more);
      }
      if id in HotIds(t) {
        var n :| n in t.agents && id in Ids(t.agents[n].hot);
        assert id in Ids(s.agents[n].hot);
      }
    }
  }

  lemma MovedCopied(s: Store, t: Store, name: string, more: seq<MemoryRecord>)
    requires name in s.agents && WarmCopied(s) && Moved(s, t, name, more)
    requires Ids(t.agents[name].warm) <= Ids(OfProcess(s.cold + more, name))
    ensures WarmCopied(t)
  {
    forall n | n in t.agents
      ensures Ids(t.agents[n].warm) <= Ids(OfProcess(t.cold, n))
    {
      OfProcessSplit(s.cold, more, n);
      IdsAppend(OfProcess(s.cold, n), OfProcess(more, n));
    }
  }

  /** Evicting keeps the invariant and loses no record. */
  lemma EvictKeeps(s: Store, name: string, limit: nat)
    requires InvBut(s, name, limit)
    ensures Inv(EvictAgent(s, name, limit), limit)
    ensures HotIds(EvictAgent(s, name, limit)) + Ids(EvictAgent(s, name, limit).cold) == HotIds(s) + Ids(s.cold)
  {
    hide Indexed, HotApart, WarmCopied, Evict, Ids, AllIn, DistinctIds, OfProcess;
    var a, t := s.agents[name], EvictAgent(s, name, limit);
    if Tokens(a.hot) > a.budget {
      var more := InTier(Evict(a.hot, a.budget).evicted, Cold);
      AgentApart(s, name);
      EvictedFacts(a, name, limit, s.cold);
      IndexedGrows(s, more);
      MovedApart(s, t, name, more);
      MovedCopied(s, t, name, more);
      IndexedFrame(s.(cold := s.cold + more, file := s.file + more), t);
    }
  }

  lemma AgentApart(s: Store, name: string)
    requires name in s.agents && HotApart(s) && WarmCopied(s)
    ensures Ids(s.agents[name].hot) !! Ids(s.cold) && Ids(s.agents[name].warm) <= Ids(OfProcess(s.cold, name))
  {
  }

  lemma IndexedFrame(s: Store, t: Store)
    requires Indexed(s) && t.cold == s.cold && t.file == s.file
    ensures Indexed(t)
  {
  }

  // ----- Operations -----

  datatype Op =
    | RegisterOp(name: string, budget: int)
    | UnregisterOp(name: string)
    | AppendOp(name: string, frame: Frame)
    | RecallOp(name: string, matches: MemoryRecord -> bool, limit: int, now: real)
    | ForgetOp(id: Id)

  function Apply(s: Store, op: Op, warmLimit: nat): Store {
    match op
    case RegisterOp(name, budget) => (match Register(s, name, budget) case Ok(t) => t case Err(_) => s)
    case UnregisterOp(name) => Unregister(s, name).0
    case AppendOp(name, frame) => (match Append(s, name, frame, warmLimit) case Ok(t) => t case Err(_) => s)
    case RecallOp(name, matches, limit, now) => Recall(s, name, matches, limit, now).0
    case ForgetOp(id) => Forget(s, id).0
  }

  /** The hot ids that a (re-)registration or unregistration of `name` drops. */
  function Dropped(s: Store, name: string): set<Id> {
    if name in s.agents then Ids(s.agents[name].hot) else {}
  }

  /** How an operation changes the set of records that the memory must still hold. */
  function LiveAfter(s: Store, live: set<Id>, op: Op, warmLimit: nat): set<Id> {
    match op
    case RegisterOp(name, budget) => if Register(s, name, budget).Ok? then live - Dropped(s, name) else live
    case UnregisterOp(name) => live - Dropped(s, name)
    case AppendOp(name, frame) => if Append(s, name, frame, warmLimit).Ok? then live + {frame.id} else live
    case RecallOp(_, _, _, _) => live
    case ForgetOp(id) => live - {id}
  }

  /** What must hold of the store together with the set of live records. */
  predicate Holds(s: Store, live: set<Id>, limit: nat) {
    Inv(s, limit) && HotIds(s) + Ids(s.cold) == live
  }

  /** `t` is `s` with the state of `name` removed or empty. */
  predicate Emptied(s: Store, t: Store, name: string) {
    && t.cold == s.cold && t.file == s.file
    && (forall n | n in t.agents :: (n in s.agents && n != name && t.agents[n] == s.agents[n])
                                    || (n == name && t.agents[n].hot == [] && t.agents[n].warm == []))
    && (forall n | n in s.agents && n != name :: n in t.agents)
  }

  lemma EmptiedIds(s: Store, t: Store, name: string, live: set<Id>)
    requires Emptied(s, t, name) && HotApart(s) && HotIds(s) + Ids(s.cold) == live
    ensures HotIds(t) + Ids(t.cold) == live - Dropped(s, name)
  {
    NoIds();
    hide Ids;
    forall id
      ensures id in HotIds(t) + Ids(t.cold) <==> id in live - Dropped(s, name)
    {
      if id in HotIds(t) {
        var n :| n in t.agents && id in Ids(t.agents[n].hot);
        assert n != name && id in Ids(s.agents[n].hot);
      }
      if id in HotIds(s) && id !in Dropped(s, name) {
        var n :| n in s.agents && id in Ids(s.agents[n].hot);
        assert n in t.agents;
      }
    }
  }

  lemma EmptiedInv(s: Store, t: Store, name: string, limit: nat)
    requires Emptied(s, t, name) && Inv(s, limit)
    ensures Inv(t, limit)
  {
    NoIds();
    hide OfProcess, Replay, SameRecords, Ids;
  }

  /** Replacing or removing an agent's state drops its hot records and nothing else. */
  lemma ReplaceKeeps(s: Store, t: Store, name: string, live: set<Id>, limit: nat)
    requires Holds(s, live, limit) && Emptied(s, t, name)
    ensures Holds(t, live - Dropped(s, name), limit)
  {
    hide Emptied, HotIds, Dropped, HotApart, AgentsOk, WarmCopied, Indexed;
    EmptiedIds(s, t, name, live);
    EmptiedInv(s, t, name, limit);
  }

  /** `t` is `s` with one more hot record, `id`, under `name`. */
  predicate OneHotter(s: Store, t: Store, name: string, id: Id)
    requires name in s.agents
  {
    && t.agents.Keys == s.agents.Keys && (forall n | n in s.agents && n != name :: t.agents[n] == s.agents[n])
    && t.cold == s.cold && t.file == s.file && t.agents[name].warm == s.agents[name].warm
    && Ids(t.agents[name].hot) == Ids(s.agents[name].hot) + {id}
  }

  lemma HotterIds(s: Store, t: Store, name: string, id: Id)
    requires name in s.agents && OneHotter(s, t, name, id)
    ensures HotIds(t) == HotIds(s) + {id}
  {
    hide Ids;
    forall x
      ensures x in HotIds(t) <==> x in HotIds(s) + {id}
    {
      if x in HotIds(s) {
        var n :| n in s.agents && x in Ids(s.agents[n].hot);
        assert n in t.agents && x in Ids(t.agents[n].hot);
      }
      if x in HotIds(t) {
        var n :| n in t.agents && x in Ids(t.agents[n].hot);
        assert n != name ==> x in Ids(s.agents[n].hot);
      }
      assert id in Ids(t.agents[name].hot);
    }
  }

  lemma HotterApart(s: Store, t: Store, name: string, id: Id)
    requires HotApart(s) && WarmCopied(s) && name in s.agents && OneHotter(s, t, name, id) && id !in HotIds(s) && id !in Ids(s.cold)
    ensures HotApart(t) && WarmCopied(t)
  {
    hide Ids, OfProcess;
    assert forall n | n in s.agents :: Ids(s.agents[n].hot) <= HotIds(s);
  }

  lemma AppendHotKeeps(s: Store, name: string, r: MemoryRecord, live: set<Id>, limit: nat)
    requires Holds(s, live, limit) && name in s.agents && r.id !in live
    requires r.process == name && r.tier == Hot && r.tokens >= 1
    ensures var t := s.(agents := s.agents[name := s.agents[name].(hot := s.agents[name].hot + [r])]);
            InvBut(t, name, limit) && HotIds(t) + Ids(t.cold) == live + {r.id}
  {
    hide OfProcess, Indexed, HotApart, WarmCopied, HotIds, OneHotter, DistinctIds;
    var a := s.agents[name];
    var t := s.(agents := s.agents[name := a.(hot := a.hot + [r])]);
    IdsAppend(a.hot, [r]);
    assert Ids([r]) == {r.id};
    OneMoreHot(s, t, name, r);
    HotterIds(s, t, name, r.id);
    HotterApart(s, t, name, r.id);
    IndexedFrame(s, t);
  }

  lemma OneMoreHot(s: Store, t: Store, name: string, r: MemoryRecord)
    requires name in s.agents && DistinctIds(s.agents[name].hot) && r.id !in HotIds(s)
    requires t == s.(agents := s.agents[name := s.agents[name].(hot := s.agents[name].hot + [r])])
    ensures OneHotter(s, t, name, r.id) && DistinctIds(t.agents[name].hot)
  {
    IdsAppend(s.agents[name].hot, [r]);
    assert Ids([r]) == {r.id};
    assert forall id | id in Ids(s.agents[name].hot) :: id in HotIds(s);
    DistinctAppend(s.agents[name].hot, [r]);
  }

  lemma AppendKeeps(s: Store, name: string, f: Frame, live: set<Id>, limit: nat)
    requires Holds(s, live, limit) && f.id !in live && Append(s, name, f, limit).Ok?
    ensures Holds(Append(s, name, f, limit).value, live + {f.id}, limit)
  {
    hide Inv, EvictAgent;
    var s1 := Ensure(s, name);
    EnsureKeeps(s, name, live, limit);
    AppendHotKeeps(s1, name, NewRecord(name, f), live, limit);
    EvictKeeps(s1.(agents := s1.agents[name := s1.agents[name].(hot := s1.agents[name].hot + [NewRecord(name, f)])]), name, limit);
  }

  lemma EnsureKeeps(s: Store, name: string, live: set<Id>, limit: nat)
    requires Holds(s, live, limit)
    ensures Holds(Ensure(s, name), live, limit)
  {
    if name !in s.agents {
      ReplaceKeeps(s, Ensure(s, name), name, live, limit);
      assert live - Dropped(s, name) == live;
    }
  }

  // ----- Forgetting -----

  lemma {:induction false} WithoutOfProcess(rs: seq<MemoryRecord>, gone: set<Id>, name: string)
    ensures OfProcess(Without(rs, gone), name) == Without(OfProcess(rs, name), gone)
    decreases |rs|
  {
    if rs != [] {
      WithoutOfProcess(rs[1..], gone, name);
      OfProcessSplit(if rs[0].id in gone then [] else [rs[0]], Without(rs[1..], gone), name);
      WithoutSplit(if rs[0].process == name then [rs[0]] else [], OfProcess(rs[1..], name), gone);
    }
  }

  /** A file that lists the index rebuilds it. */
  lemma ReplayOfIndex(cold: seq<MemoryRecord>)
    requires DistinctIds(cold) && AllCold(cold)
    ensures Replay(cold) == cold
  {
    InTierSame(cold);
    UpsertFresh([], cold);
  }

  lemma ForgottenAgent(a: Agent, name: string, limit: nat, id: Id)
    requires AgentOk(a, name, limit)
    ensures AgentOk(a.(hot := Without(a.hot, {id}), warm := Without(a.warm, {id})), name, limit)
  {
    WithoutMembers(a.hot, {id});
    WithoutMembers(a.warm, {id});
  }

  /** One agent after a record was forgotten. */
  lemma ForgottenFacts(s: Store, t: Store, n: string, limit: nat, id: Id)
    requires n in s.agents && t == Forget(s, id).0
    requires AgentOk(s.agents[n], n, limit) && Ids(s.agents[n].warm) <= Ids(OfProcess(s.cold, n))
    ensures n in t.agents && AgentOk(t.agents[n], n, limit)
    ensures Ids(t.agents[n].hot) == Ids(s.agents[n].hot) - {id}
    ensures Ids(t.agents[n].warm) <= Ids(OfProcess(t.cold, n))
  {
    hide AgentOk, OfProcess, Ids, Without;
    ForgottenAgent(s.agents[n], n, limit, id);
    WithoutMembers(s.agents[n].hot, {id});
    WithoutMembers(s.agents[n].warm, {id});
    WithoutOfProcess(s.cold, {id}, n);
    WithoutMembers(OfProcess(s.cold, n), {id});
    if id !in Ids(s.cold) {
      OfProcessMembers(s.cold, n);
    }
  }

  lemma ForgetKeeps(s: Store, id: Id, live: set<Id>, limit: nat)
    requires Holds(s, live, limit)
    ensures Holds(Forget(s, id).0, live - {id}, limit)
  {
    hide AgentOk, OfProcess, Ids, Forget, Indexed, HotIds;
    var t := Forget(s, id).0;
    ForgottenKeys(s, id);
    forall n | n in s.agents
      ensures AgentOk(t.agents[n], n, limit)
      ensures Ids(t.agents[n].hot) == Ids(s.agents[n].hot) - {id}
      ensures Ids(t.agents[n].warm) <= Ids(OfProcess(t.cold, n))
    {
      ForgottenFacts(s, t, n, limit, id);
    }
    ForgottenIds(s, t, id);
    ForgottenIndex(s, t, id);
  }

  lemma ForgottenKeys(s: Store, id: Id)
    ensures Forget(s, id).0.agents.Keys == s.agents.Keys
  {
  }

  lemma ForgottenIds(s: Store, t: Store, id: Id)
    requires t.agents.Keys == s.agents.Keys && forall n | n in s.agents :: Ids(t.agents[n].hot) == Ids(s.agents[n].hot) - {id}
    ensures HotIds(t) == HotIds(s) - {id}
  {
    hide Ids;
    forall x
      ensures x in HotIds(t) <==> x in HotIds(s) - {id}
    {
      if x in HotIds(s) - {id} {
        var n :| n in s.agents && x in Ids(s.agents[n].hot);
        assert x in Ids(t.agents[n].hot);
      }
    }
  }

  lemma ForgottenIndex(s: Store, t: Store, id: Id)
    requires Indexed(s) && t == Forget(s, id).0
    ensures Indexed(t) && Ids(t.cold) == Ids(s.cold) - {id}
  {
    WithoutMembers(s.cold, {id});
    if id in Ids(s.cold) {
      ReplayOfIndex(t.cold);
    }
  }

  // ----- Recalling -----

  /** `t` differs from `s` only in last accesses. */
  predicate Accessed(s: Store, t: Store) {
    && t.agents.Keys == s.agents.Keys && t.file == s.file && SameRecords(t.cold, s.cold)
    && forall n | n in s.agents ::
         SameRecords(t.agents[n].hot, s.agents[n].hot) && SameRecords(t.agents[n].warm, s.agents[n].warm)
         && t.agents[n].budget == s.agents[n].budget && Tokens(t.agents[n].hot) == Tokens(s.agents[n].hot)
  }

  lemma RecallAccesses(s: Store, name: string, matches: MemoryRecord -> bool, limit: int, now: real)
    ensures Accessed(s, Recall(s, name, matches, limit, now).0)
  {
    hide Touch, Slice, Found, Ids, Tokens;
    forall rs, ids { TouchAt(rs, ids, now); }
  }

  lemma AccessedAgent(a: Agent, b: Agent, name: string, limit: nat)
    requires AgentOk(a, name, limit) && SameRecords(b.hot, a.hot) && SameRecords(b.warm, a.warm)
    requires b.budget == a.budget && Tokens(b.hot) == Tokens(a.hot)
    ensures AgentOk(b, name, limit)
  {
    hide SameRecords;
    SameFacts(b.hot, a.hot);
    SameFacts(b.warm, a.warm);
    SameLength(b.warm, a.warm);
  }

  lemma SameLength(xs: seq<MemoryRecord>, ys: seq<MemoryRecord>)
    requires SameRecords(xs, ys)
    ensures |xs| == |ys|
  {
  }

  lemma AccessedKeeps(s: Store, t: Store, live: set<Id>, limit: nat)
    requires Holds(s, live, limit) && Accessed(s, t)
    ensures Holds(t, live, limit)
  {
    hide AgentOk, SameRecords, Ids, OfProcess, Replay, Tokens, AllCold, DistinctIds;
    SameFacts(t.cold, s.cold);
    forall n | n in s.agents
      ensures AgentOk(t.agents[n], n, limit)
      ensures Ids(t.agents[n].hot) == Ids(s.agents[n].hot)
      ensures Ids(t.agents[n].warm) <= Ids(OfProcess(t.cold, n))
    {
      AccessedAgent(s.agents[n], t.agents[n], n, limit);
      SameFacts(t.agents[n].hot, s.agents[n].hot);
      SameFacts(t.agents[n].warm, s.agents[n].warm);
      SameOfProcess(t.cold, s.cold, n);
      SameFacts(OfProcess(t.cold, n), OfProcess(s.cold, n));
    }
    SameTrans(Replay(t.file), s.cold, t.cold);
    SameHotIds(s, t);
  }

  lemma SameHotIds(s: Store, t: Store)
    requires t.agents.Keys == s.agents.Keys && forall n | n in s.agents :: Ids(t.agents[n].hot) == Ids(s.agents[n].hot)
    ensures HotIds(t) == HotIds(s)
  {
    hide Ids;
  }

  lemma SameTrans(xs: seq<MemoryRecord>, ys: seq<MemoryRecord>, zs: seq<MemoryRecord>)
    requires SameRecords(xs, ys) && SameRecords(zs, ys)
    ensures SameRecords(xs, zs)
  {
  }

  // ----- Runs -----

  lemma StepKeeps(s: Store, op: Op, live: set<Id>, limit: nat)
    requires Holds(s, live, limit) && (op.AppendOp? ==> op.frame.id !in live)
    ensures Holds(Apply(s, op, limit), LiveAfter(s, live, op, limit), limit)
  {
    hide Holds, Recall, Append, Forget;
    match op
    case RegisterOp(name, budget) =>
      if Register(s, name, budget).Ok? {
        ReplaceKeeps(s, Register(s, name, budget).value, name, live, limit);
      }
    case UnregisterOp(name) => ReplaceKeeps(s, Unregister(s, name).0, name, live, limit);
    case AppendOp(name, frame) =>
      if Append(s, name, frame, limit).Ok? {
        AppendKeeps(s, name, frame, live, limit);
      }
    case RecallOp(name, matches, most, now) =>
      RecallAccesses(s, name, matches, most, now);
      AccessedKeeps(s, Recall(s, name, matches, most, now).0, live, limit);
    case ForgetOp(id) => ForgetKeeps(s, id, live, limit);
  }

  /** The state and the live records after a run. */
  function Run(s: Store, live: set<Id>, ops: seq<Op>, limit: nat): (Store, set<Id>)
    decreases |ops|
  {
    if ops == [] then (s, live) else Run(Apply(s, ops[0], limit), LiveAfter(s, live, ops[0], limit), ops[1..], limit)
  }

  /** New records get new ids. */
  predicate FreshIds(ever: set<Id>, ops: seq<Op>)
    decreases |ops|
  {
    ops == [] ||
    if ops[0].AppendOp? then ops[0].frame.id !in ever && FreshIds(ever + {ops[0].frame.id}, ops[1..]) else FreshIds(ever, ops[1..])
  }

  lemma {:induction false} RunKeeps(s: Store, live: set<Id>, ever: set<Id>, ops: seq<Op>, limit: nat)
    requires Holds(s, live, limit) && live <= ever && FreshIds(ever, ops)
    ensures var (t, left) := Run(s, live, ops, limit); Holds(t, left, limit)
    decreases |ops|
  {
    hide Holds, Apply;
    if ops != [] {
      StepKeeps(s, ops[0], live, limit);
      RunKeeps(Apply(s, ops[0], limit), LiveAfter(s, live, ops[0], limit),
               if ops[0].AppendOp? then ever + {ops[0].frame.id} else ever, ops[1..], limit);
    }
  }

  /** A store that has just loaded its record file. */
  function Loaded(file: seq<MemoryRecord>): Store {
    Store(map[], Replay(file), file)
  }

  lemma {:induction false} UpsertDistinct(rs: seq<MemoryRecord>, more: seq<MemoryRecord>)
    requires DistinctIds(rs) && AllCold(rs) && AllCold(more)
    ensures DistinctIds(UpsertAll(rs, more)) && AllCold(UpsertAll(rs, more))
    ensures Ids(UpsertAll(rs, more)) == Ids(rs) + Ids(more)
    decreases |more|
  {
    if more != [] {
      UpsertOne(rs, more[0]);
      HeadFresh(more);
      UpsertDistinct(Upsert(rs, more[0]), more[1..]);
    }
  }

  lemma UpsertOne(rs: seq<MemoryRecord>, r: MemoryRecord)
    requires DistinctIds(rs) && AllCold(rs) && r.tier == Cold && r.tokens >= 1
    ensures DistinctIds(Upsert(rs, r)) && AllCold(Upsert(rs, r)) && Ids(Upsert(rs, r)) == Ids(rs) + {r.id}
  {
    if r.id in Ids(rs) {
      var i := Position(rs, r.id);
      var t := rs[i := r];
      forall id
        ensures id in Ids(t) <==> id in Ids(rs)
      {
        if id in Ids(rs) {
          var j :| 0 <= j < |rs| && rs[j].id == id;
          assert t[j].id == id && t[j] in t;
        }
        if id in Ids(t) {
          var j :| 0 <= j < |t| && t[j].id == id;
          assert rs[j].id == id && rs[j] in rs;
        }
      }
    } else {
      IdsAppend(rs, [r]);
      assert Ids([r]) == {r.id};
      DistinctAppend(rs, [r]);
    }
  }

  lemma LoadedHolds(file: seq<MemoryRecord>, limit: nat)
    ensures Holds(Loaded(file), Ids(file), limit)
  {
    var lines := InTier(file, Cold);
    InTierIds(file, Cold);
    UpsertDistinct([], lines);
  }

  /**
    No memory is lost. After loading a file and any run of operations, the hot records and
    the index partition the live records: those loaded or appended and neither forgotten nor
    dropped with their agent. The file rebuilds the index but for last accesses; every agent is
    within its budget; every warm record is in the index.
  */
  lemma MemoryConserved(file: seq<MemoryRecord>, ops: seq<Op>, limit: nat)
    requires FreshIds(Ids(file), ops)
    ensures var (s, live) := Run(Loaded(file), Ids(file), ops, limit);
            && HotIds(s) + Ids(s.cold) == live && HotIds(s) !! Ids(s.cold) && DistinctIds(s.cold)
            && SameRecords(Replay(s.file), s.cold)
            && forall n | n in s.agents ::
                 Tokens(s.agents[n].hot) <= s.agents[n].budget && DistinctIds(s.agents[n].warm) && |s.agents[n].warm| <= limit
                 && Ids(s.agents[n].warm) <= Ids(s.cold)
  {
    LoadedHolds(file, limit);
    RunKeeps(Loaded(file), Ids(file), Ids(file), ops, limit);
    var s := Run(Loaded(file), Ids(file), ops, limit).0;
    forall n | n in s.agents { OfProcessMembers(s.cold, n); }
    hide Replay, OfProcess, AllCold;
  }

  /** In every reachable state each paged-out record is a cold one: the two counts agree. */
  lemma PagedOutIsCold(file: seq<MemoryRecord>, ops: seq<Op>, limit: nat, name: string)
    requires FreshIds(Ids(file), ops)
    requires name in Run(Loaded(file), Ids(file), ops, limit).0.agents
    ensures var summary := Summarize(Run(Loaded(file), Ids(file), ops, limit).0, name);
            summary.pagedOut == summary.cold && summary.total == summary.active + summary.cold
    ensures var s := Run(Loaded(file), Ids(file), ops, limit).0;
            && Summarize(s, name).active == |s.agents[name].hot| && Summarize(s, name).warm == |s.agents[name].warm| <= limit
            && Summarize(s, name).activeTokens == Tokens(s.agents[name].hot) <= Summarize(s, name).maxTokens == s.agents[name].budget
  {
    LoadedHolds(file, limit);
    RunKeeps(Loaded(file), Ids(file), Ids(file), ops, limit);
    var s := Run(Loaded(file), Ids(file), ops, limit).0;
    var warm, cold := s.agents[name].warm, OfProcess(s.cold, name);
    OfProcessMembers(s.cold, name);
    hide Run, Replay, OfProcess, AllCold;
    CountWithout(cold, warm);
  }

  lemma {:induction false} IdCount(rs: seq<MemoryRecord>)
    requires DistinctIds(rs)
    ensures |Ids(rs)| == |rs|
    decreases |rs|
  {
    if rs == [] {
      NoIds();
    } else {
      HeadFresh(rs);
      IdCount(rs[1..]);
    }
  }

  lemma CountWithout(cold: seq<MemoryRecord>, warm: seq<MemoryRecord>)
    requires DistinctIds(cold) && DistinctIds(warm) && Ids(warm) <= Ids(cold)
    ensures |warm| + |Without(cold, Ids(warm))| == |cold|
  {
    WithoutMembers(cold, Ids(warm));
    IdCount(cold);
    IdCount(warm);
    IdCount(Without(cold, Ids(warm)));
    assert Ids(cold) == Ids(warm) + (Ids(cold) - Ids(warm));
  }
}

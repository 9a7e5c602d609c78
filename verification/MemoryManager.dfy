/**
  Recall, and the memory manager as an object that is updated in place. Every method leaves
  the state that the corresponding function of MemoryStore describes.
*/
module MemoryManager {
  import opened Common
  import opened MemoryStore
  import opened MemoryEviction
  import opened MemoryRuns

  // ----- What a recall returns -----

  /** As important and as new at least: the more important rank higher, and among equally important ones the newer. */
  predicate AtLeast(a: MemoryRecord, b: MemoryRecord) {
    a.importance >= b.importance && (a.importance == b.importance ==> a.timestamp >= b.timestamp)
  }

  predicate Descending(rs: seq<MemoryRecord>) {
    forall i, j | 0 <= i < j < |rs| :: AtLeast(rs[i], rs[j])
  }

  lemma AboveOrNot(a: MemoryRecord, b: MemoryRecord)
    ensures AtLeast(b, a) <==> !Above(a, b)
    ensures AtLeast(a, b) || AtLeast(b, a)
  {
  }

  lemma AtLeastAll(r: MemoryRecord, rs: seq<MemoryRecord>)
    requires Descending(rs) && rs != [] && AtLeast(r, rs[0])
    ensures Descending([r] + rs)
  {
    forall j | 0 <= j < |rs|
      ensures AtLeast(r, rs[j])
    {
      assert j > 0 ==> AtLeast(rs[0], rs[j]);
    }
  }

  lemma {:induction false} InsertSorts(r: MemoryRecord, rs: seq<MemoryRecord>)
    requires Descending(rs)
    ensures Descending(InsertRanked(r, rs))
    ensures multiset(InsertRanked(r, rs)) == multiset(rs) + multiset{r}
    decreases |rs|
  {
    hide AtLeast, Above;
    if rs != [] {
      AboveOrNot(rs[0], r);
      if Above(rs[0], r) {
        var rest := InsertRanked(r, rs[1..]);
        assert rs == [rs[0]] + rs[1..];
        InsertSorts(r, rs[1..]);
        AboveOrNot(rs[0], r);
        forall j | 0 <= j < |rest|
          ensures AtLeast(rs[0], rest[j])
        {
          assert rest[j] in multiset(rest);
          assert rest[j] == r || rest[j] in rs[1..];
        }
      } else {
        AtLeastAll(r, rs);
      }
    }
  }

  /** Sorting puts the same records in descending order. */
  lemma {:induction false} RankedSorts(rs: seq<MemoryRecord>)
    ensures Descending(Ranked(rs)) && multiset(Ranked(rs)) == multiset(rs)
    decreases |rs|
  {
    if rs != [] {
      RankedSorts(rs[1..]);
      InsertSorts(rs[0], Ranked(rs[1..]));
      assert rs == [rs[0]] + rs[1..];
    }
  }

  /** The records of one rank. */
  function OfRank(rs: seq<MemoryRecord>, importance: real, timestamp: real): seq<MemoryRecord> {
    if rs == [] then []
    else (if rs[0].importance == importance && rs[0].timestamp == timestamp then [rs[0]] else []) + OfRank(rs[1..], importance, timestamp)
  }

  lemma {:induction false} InsertIsStable(r: MemoryRecord, rs: seq<MemoryRecord>, importance: real, timestamp: real)
    ensures OfRank(InsertRanked(r, rs), importance, timestamp) == OfRank([r] + rs, importance, timestamp)
    decreases |rs|
  {
    assert ([r] + rs)[1..] == rs;
    if rs != [] && Above(rs[0], r) {
      InsertIsStable(r, rs[1..], importance, timestamp);
      assert ([r] + rs[1..])[1..] == rs[1..];
      assert InsertRanked(r, rs)[1..] == InsertRanked(r, rs[1..]);
    }
  }

  /** Sorting is stable: records of one rank keep their order. */
  lemma {:induction false} RankedIsStable(rs: seq<MemoryRecord>, importance: real, timestamp: real)
    ensures OfRank(Ranked(rs), importance, timestamp) == OfRank(rs, importance, timestamp)
    decreases |rs|
  {
    if rs != [] {
      RankedIsStable(rs[1..], importance, timestamp);
      InsertIsStable(rs[0], Ranked(rs[1..]), importance, timestamp);
      assert ([rs[0]] + Ranked(rs[1..]))[1..] == Ranked(rs[1..]);
    }
  }

  lemma {:induction false} KeepMembers(rs: seq<MemoryRecord>, matches: MemoryRecord -> bool)
    ensures forall r :: r in Keep(rs, matches) <==> r in rs && matches(r)
    decreases |rs|
  {
    if rs != [] {
      KeepMembers(rs[1..], matches);
    }
  }

  /** One record for each id, and for each id the first. */
  lemma {:induction false} FirstByIdMembers(rs: seq<MemoryRecord>)
    ensures Ids(FirstById(rs)) == Ids(rs) && DistinctIds(FirstById(rs))
    ensures forall r | r in FirstById(rs) :: r in rs && r == rs[Position(rs, r.id)]
    decreases |rs|
  {
    if rs != [] {
      var front, last := rs[..|rs| - 1], rs[|rs| - 1];
      FirstByIdMembers(front);
      assert rs == front + [last];
      IdsAppend(front, [last]);
      assert Ids([last]) == {last.id};
      forall r | r in FirstById(rs)
        ensures r in rs && r == rs[Position(rs, r.id)]
      {
        PositionInAppend(front, last, r.id);
      }
      if last.id !in Ids(FirstById(front)) {
        IdsAppend(FirstById(front), [last]);
        DistinctAppend(FirstById(front), [last]);
      }
    }
  }

  lemma {:induction false} PositionInAppend(front: seq<MemoryRecord>, last: MemoryRecord, id: Id)
    requires id in Ids(front) || id == last.id
    ensures id in Ids(front + [last])
    ensures (front + [last])[Position(front + [last], id)] == if id in Ids(front) then front[Position(front, id)] else last
    decreases |front|
  {
    var rs := front + [last];
    assert last in rs;
    IdsAppend(front, [last]);
    if front != [] {
      HeadFresh(front);
      assert rs[1..] == front[1..] + [last] && rs[0] == front[0];
      if front[0].id != id {
        PositionInAppend(front[1..], last, id);
      }
    }
  }

  /** Every record where it is kept, as a query looks for it: an agent's hot and warm tiers, then the index. */
  function Located(s: Store, name: string): seq<MemoryRecord> {
    (if name in s.agents then s.agents[name].hot + s.agents[name].warm else []) + s.cold
  }

  /** The records of an agent that a query may find, each where it is found first. */
  function Known(s: Store, name: string): seq<MemoryRecord> {
    FirstById(OfProcess(Located(s, name), name))
  }

  /**
    A recall returns the best matching records: as many as asked for or as there are, in
    descending order, and no matching record that was left out is above a returned one.
  */
  lemma RecallReturnsBest(s: Store, name: string, matches: MemoryRecord -> bool, limit: nat, now: real)
    ensures var found, returned := Found(s, name, matches), Recall(s, name, matches, limit, now).1;
            var k := if limit < |found| then limit else |found|;
            && multiset(found) == multiset(Keep(Known(s, name), matches))
            && |returned| == k && Slice(found, limit) == found[..k]
            && (forall i | 0 <= i < k :: returned[i] == found[i].(lastAccessed := now))
            && Descending(found)
  {
    var found := Found(s, name, matches);
    RankedSorts(Keep(Known(s, name), matches));
    var top := Slice(found, limit);
    TouchAll(top, Ids(top), now);
  }

  lemma {:induction false} TouchAll(rs: seq<MemoryRecord>, ids: set<Id>, now: real)
    requires Ids(rs) <= ids
    ensures |Touch(rs, ids, now)| == |rs| && forall i | 0 <= i < |rs| :: Touch(rs, ids, now)[i] == rs[i].(lastAccessed := now)
    decreases |rs|
  {
    if rs != [] {
      HeadFresh(rs);
      TouchAll(rs[1..], ids, now);
    }
  }

  // ----- What a recall marks -----

  /** Each tier lists an id once, and an agent's own tiers hold its own records. */
  predicate TiersSound(s: Store, name: string) {
    && DistinctIds(s.cold)
    && (name in s.agents ==>
          && DistinctIds(s.agents[name].hot) && DistinctIds(s.agents[name].warm)
          && forall r | r in s.agents[name].hot + s.agents[name].warm :: r.process == name)
  }

  lemma {:induction false} TouchAt(rs: seq<MemoryRecord>, ids: set<Id>, now: real)
    ensures |Touch(rs, ids, now)| == |rs|
    ensures forall i | 0 <= i < |rs| :: Touch(rs, ids, now)[i] == if rs[i].id in ids then rs[i].(lastAccessed := now) else rs[i]
    decreases |rs|
  {
    if rs != [] {
      TouchAt(rs[1..], ids, now);
    }
  }

  /** The first record with an id: none before it has that id. */
  lemma {:induction false} PositionIsFirst(rs: seq<MemoryRecord>, id: Id)
    requires id in Ids(rs)
    ensures forall j | 0 <= j < Position(rs, id) :: rs[j].id != id
    decreases |rs|
  {
    if rs[0].id != id {
      HeadFresh(rs);
      PositionIsFirst(rs[1..], id);
    }
  }

  /** Record `k` of all the located ones is where a query finds its id. */
  predicate FoundFirst(all: seq<MemoryRecord>, k: nat)
    requires k < |all|
  {
    forall j | 0 <= j < k :: all[j].id != all[k].id
  }

  /** Within a tier an id is found at its only place; in a later tier only if the earlier ones lack it. */
  lemma FoundInTier(before: seq<MemoryRecord>, tier: seq<MemoryRecord>, after: seq<MemoryRecord>, i: nat)
    requires DistinctIds(tier) && i < |tier|
    ensures FoundFirst(before + tier + after, |before| + i) <==> tier[i].id !in Ids(before)
  {
    var all := before + tier + after;
    assert forall j | 0 <= j < |before| :: all[j] == before[j];
    assert forall j | 0 <= j < |tier| :: all[|before| + j] == tier[j];
    if tier[i].id in Ids(before) {
      var r :| r in before && r.id == tier[i].id;
      var j :| 0 <= j < |before| && before[j] == r;
      assert all[j].id == all[|before| + i].id;
    } else {
      forall j | 0 <= j < |before| + i
        ensures all[j].id != all[|before| + i].id
      {
        if j < |before| {
          assert before[j] in before;
        } else {
          assert all[j] == tier[j - |before|];
        }
      }
    }
  }

  /** Record `k` after a recall that returned the records in `ids`. */
  function MarkedAt(all: seq<MemoryRecord>, k: nat, ids: set<Id>, now: real): MemoryRecord
    requires k < |all|
  {
    if all[k].id in ids && FoundFirst(all, k) then all[k].(lastAccessed := now) else all[k]
  }

  lemma TierMarked(before: seq<MemoryRecord>, tier: seq<MemoryRecord>, after: seq<MemoryRecord>, ids: set<Id>, now: real)
    requires DistinctIds(tier)
    ensures |Touch(tier, ids - Ids(before), now)| == |tier|
    ensures forall i | 0 <= i < |tier| :: Touch(tier, ids - Ids(before), now)[i] == MarkedAt(before + tier + after, |before| + i, ids, now)
  {
    TouchAt(tier, ids - Ids(before), now);
    forall i | 0 <= i < |tier|
      ensures Touch(tier, ids - Ids(before), now)[i] == MarkedAt(before + tier + after, |before| + i, ids, now)
    {
      FoundInTier(before, tier, after, i);
      assert (before + tier + after)[|before| + i] == tier[i];
    }
  }

  /** Marking changes nothing but last accesses, and these only where a query finds the ids. */
  lemma AccessMarks(s: Store, name: string, ids: set<Id>, now: real)
    requires TiersSound(s, name)
    ensures var t, all := AccessAll(s, name, ids, now), Located(s, name);
            && |Located(t, name)| == |all| && (forall k | 0 <= k < |all| :: Located(t, name)[k] == MarkedAt(all, k, ids, now))
            && t.file == s.file && t.agents.Keys == s.agents.Keys
            && (forall n | n in s.agents :: if n == name then t.agents[n].budget == s.agents[n].budget else t.agents[n] == s.agents[n])
  {
    hide Touch, MarkedAt, Ids;
    var all := Located(s, name);
    if name in s.agents {
      var a := s.agents[name];
      NoIds();
      assert ids - Ids([]) == ids && [] + a.hot + (a.warm + s.cold) == all;
      assert a.hot + a.warm + s.cold == all && (a.hot + a.warm) + s.cold + [] == all;
      IdsAppend(a.hot, a.warm);
      TierMarked([], a.hot, a.warm + s.cold, ids, now);
      TierMarked(a.hot, a.warm, s.cold, ids, now);
      TierMarked(a.hot + a.warm, s.cold, [], ids, now);
      var t := AccessAll(s, name, ids, now);
      var h, w := |a.hot|, |a.hot| + |a.warm|;
      forall k | 0 <= k < |all|
        ensures Located(t, name)[k] == MarkedAt(all, k, ids, now)
      {
        if k < h { assert Located(t, name)[k] == t.agents[name].hot[k] == MarkedAt(all, 0 + k, ids, now); }
        else if k < w { assert Located(t, name)[k] == t.agents[name].warm[k - h] == MarkedAt(all, h + (k - h), ids, now); }
        else { assert Located(t, name)[k] == t.cold[k - w] == MarkedAt(all, w + (k - w), ids, now); }
      }
    } else {
      NoIds();
      assert ids - Ids([]) == ids && [] + s.cold + [] == all;
      TierMarked([], s.cold, [], ids, now);
    }
  }

  /** The first record of a process with an id is the first with that id, if each tier is sound. */
  lemma {:induction false} OfProcessMembers(rs: seq<MemoryRecord>, name: string)
    ensures forall r :: r in OfProcess(rs, name) <==> r in rs && r.process == name
    decreases |rs|
  {
    if rs != [] {
      OfProcessMembers(rs[1..], name);
    }
  }

  lemma PositionAfter(r: MemoryRecord, rs: seq<MemoryRecord>, id: Id)
    requires r.id != id && id in Ids([r] + rs)
    ensures id in Ids(rs) && ([r] + rs)[Position([r] + rs, id)] == rs[Position(rs, id)]
  {
    HeadFresh([r] + rs);
    assert ([r] + rs)[1..] == rs;
  }

  lemma {:induction false} FirstOfProcess(rs: seq<MemoryRecord>, name: string, id: Id)
    requires id in Ids(OfProcess(rs, name)) && id in Ids(rs) && rs[Position(rs, id)].process == name
    ensures OfProcess(rs, name)[Position(OfProcess(rs, name), id)] == rs[Position(rs, id)]
    decreases |rs|
  {
    var rest := rs[1..];
    assert rs == [rs[0]] + rest;
    if rs[0].id == id {
      assert OfProcess(rs, name) == [rs[0]] + OfProcess(rest, name);
    } else {
      hide Ids, Position;
      PositionAfter(rs[0], rest, id);
      if rs[0].process == name {
        PositionAfter(rs[0], OfProcess(rest, name), id);
      } else {
        assert OfProcess(rs, name) == OfProcess(rest, name);
      }
      FirstOfProcess(rest, name, id);
    }
  }

  /** Among the located records an agent's record is not hidden by one of another process. */
  lemma FirstIsOwn(s: Store, name: string, id: Id)
    requires TiersSound(s, name) && id in Ids(OfProcess(Located(s, name), name))
    ensures id in Ids(Located(s, name)) && Located(s, name)[Position(Located(s, name), id)].process == name
  {
    hide Position, OfProcess;
    var all := Located(s, name);
    OfProcessMembers(all, name);
    var r :| r in OfProcess(all, name) && r.id == id;
    assert r in all && r.process == name;
    var k :| 0 <= k < |all| && all[k] == r;
    var p := Position(all, id);
    PositionIsFirst(all, id);
    var own := if name in s.agents then s.agents[name].hot + s.agents[name].warm else [];
    assert all == own + s.cold && p <= k;
    if p < |own| {
      assert all[p] == own[p] && own[p] in own;
    } else {
      assert all[p] == s.cold[p - |own|] && all[k] == s.cold[k - |own|];
    }
  }

  /** Every found record is the first located one with its id. */
  lemma FoundWhereFirst(s: Store, name: string, matches: MemoryRecord -> bool, r: MemoryRecord)
    requires TiersSound(s, name) && r in Found(s, name, matches)
    ensures matches(r) && r.process == name && r.id in Ids(Located(s, name)) && Located(s, name)[Position(Located(s, name), r.id)] == r
  {
    var all := Located(s, name);
    var own := OfProcess(all, name);
    RankedSorts(Keep(Known(s, name), matches));
    assert r in multiset(Found(s, name, matches));
    KeepMembers(Known(s, name), matches);
    FirstByIdMembers(own);
    OfProcessMembers(all, name);
    assert r in FirstById(own) && r in own;
    FirstIsOwn(s, name, r.id);
    FirstOfProcess(all, name, r.id);
  }

  predicate FirstLocated(s: Store, name: string, r: MemoryRecord) {
    var all := Located(s, name);
    exists k | 0 <= k < |all| :: all[k] == r && FoundFirst(all, k)
  }

  /**
    A query finds exactly the agent's matching records, each where its id is located first:
    among the hot ones, the warm ones, the index.
  */
  lemma FoundExactly(s: Store, name: string, matches: MemoryRecord -> bool, r: MemoryRecord)
    requires TiersSound(s, name)
    ensures r in Found(s, name, matches) <==> matches(r) && r.process == name && FirstLocated(s, name, r)
  {
    var all := Located(s, name);
    if r in Found(s, name, matches) {
      FoundWhereFirst(s, name, matches, r);
      PositionIsFirst(all, r.id);
      assert FoundFirst(all, Position(all, r.id));
    }
    if matches(r) && r.process == name && FirstLocated(s, name, r) {
      var k :| 0 <= k < |all| && all[k] == r && FoundFirst(all, k);
      var own := OfProcess(all, name);
      OfProcessMembers(all, name);
      assert r in own && r.id in Ids(own);
      FirstByIdMembers(own);
      var q :| q in FirstById(own) && q.id == r.id;
      FirstIsOwn(s, name, r.id);
      FirstOfProcess(all, name, r.id);
      PositionIsFirst(all, r.id);
      assert Position(all, r.id) == k && q == r;
      KeepMembers(Known(s, name), matches);
      RankedSorts(Keep(Known(s, name), matches));
      assert r in multiset(Found(s, name, matches));
    }
  }

  /** The ids that a recall marks: for a negative limit all the best matches but the last `-limit`. */
  function MarkedIds(s: Store, name: string, matches: MemoryRecord -> bool, limit: int): set<Id> {
    Ids(Slice(Found(s, name, matches), limit))
  }

  /**
    What a recall does to the store: the records at the head of the ranking, up to the limit,
    are marked as accessed where they are found first, hot before warm before cold; every other
    record, every other agent and the file stay as they are. Every returned record is one of
    the marked ones, as it is in the store afterwards.
  */
  lemma RecallMarksFound(s: Store, name: string, matches: MemoryRecord -> bool, limit: int, now: real)
    requires TiersSound(s, name)
    ensures var all, ids := Located(s, name), MarkedIds(s, name, matches, limit);
            var (t, returned) := Recall(s, name, matches, limit, now);
            var after := Located(t, name);
            && |after| == |all| && (forall k | 0 <= k < |all| :: after[k] == MarkedAt(all, k, ids, now))
            && t.file == s.file && t.agents.Keys == s.agents.Keys
            && (forall n | n in s.agents :: if n == name then t.agents[n].budget == s.agents[n].budget else t.agents[n] == s.agents[n])
            && forall r | r in returned :: r.id in ids && r.id in Ids(all) && r == after[Position(all, r.id)]
  {
    var all, ids := Located(s, name), MarkedIds(s, name, matches, limit);
    var found := Found(s, name, matches);
    var top := Slice(found, if limit < 0 then 0 else limit);
    var returned := Recall(s, name, matches, limit, now).1;
    hide Found, AccessAll, Touch;
    AccessMarks(s, name, ids, now);
    TouchAt(top, ids, now);
    forall r | r in returned
      ensures r.id in ids && r.id in Ids(all) && r == MarkedAt(all, Position(all, r.id), ids, now)
    {
      var i :| 0 <= i < |returned| && returned[i] == r;
      assert top[i] in Slice(found, limit) && top[i] in found;
      FoundWhereFirst(s, name, matches, top[i]);
      PositionIsFirst(all, r.id);
    }
  }

  /**
    With a negative limit nothing is returned, and still all but the last `-limit` matches are
    marked as accessed. On a clock that has moved on since the last accesses, the store stays as
    it is exactly when there are no more matches than that.
  */
  lemma NegativeLimitStillTouches(s: Store, name: string, matches: MemoryRecord -> bool, limit: int, now: real)
    requires limit < 0 && TiersSound(s, name) && forall r | r in Located(s, name) :: r.lastAccessed < now
    ensures Recall(s, name, matches, limit, now).1 == []
    ensures Recall(s, name, matches, limit, now).0 == s <==> |Found(s, name, matches)| <= -limit
  {
    var found, top := Found(s, name, matches), Slice(Found(s, name, matches), limit);
    if |found| <= -limit {
      assert top == [];
      AccessNone(s, name, now);
    } else {
      assert top != [] && top[0] == found[0] && top[0] in top;
      RecallMarksFound(s, name, matches, limit, now);
      FoundWhereFirst(s, name, matches, top[0]);
      var all := Located(s, name);
      var k := Position(all, top[0].id);
      PositionIsFirst(all, top[0].id);
      hide Recall, Found;
      assert MarkedAt(all, k, MarkedIds(s, name, matches, limit), now) == all[k].(lastAccessed := now);
    }
  }

  function Example(id: Id, importance: real, lastAccessed: real): MemoryRecord {
    MemoryRecord(id, "p", 1.0, "", 1, importance, [], Hot, lastAccessed)
  }

  function ExampleStore(lastAccessed: real): Store {
    Store(map["p" := Agent(10, [Example(1, 1.0, lastAccessed), Example(2, 0.0, 1.0)], [])], [], [])
  }

  lemma ExampleFound(matches: MemoryRecord -> bool)
    requires forall r :: matches(r)
    ensures Found(ExampleStore(1.0), "p", matches) == [Example(1, 1.0, 1.0), Example(2, 0.0, 1.0)]
  {
    var a, b := Example(1, 1.0, 1.0), Example(2, 0.0, 1.0);
    assert [a, b][1..] == [b] && [b][1..] == [] && [a, b] + [] + [] == [a, b] && [a, b][..1] == [a] && [a][..0] == [];
    assert OfProcess([b], "p") == [b] && OfProcess([a, b], "p") == [a, b];
    assert FirstById([a]) == [a] && FirstById([a, b]) == [a, b];
    KeepAll([a, b], matches);
    RankedPair(a, b);
  }

  lemma {:induction false} KeepAll(rs: seq<MemoryRecord>, matches: MemoryRecord -> bool)
    requires forall r :: matches(r)
    ensures Keep(rs, matches) == rs
    decreases |rs|
  {
    if rs != [] {
      KeepAll(rs[1..], matches);
    }
  }

  lemma RankedPair(a: MemoryRecord, b: MemoryRecord)
    requires !Above(b, a)
    ensures Ranked([a, b]) == [a, b]
  {
    assert [a, b][1..] == [b] && [b][1..] == [] && [b] + [] == [b] && [a] + [b] == [a, b];
    assert Ranked([b]) == [b];
    assert [b][0] == b && InsertRanked(a, [b]) == [a] + [b];
  }

  lemma ExampleMarked()
    ensures AccessAll(ExampleStore(1.0), "p", {1}, 5.0) == ExampleStore(5.0)
  {
    var a, b := Example(1, 1.0, 1.0), Example(2, 0.0, 1.0);
    assert [a, b][1..] == [b] && [b][1..] == [];
    assert Touch([b], {1}, 5.0) == [b] && Touch([a, b], {1}, 5.0) == [Example(1, 1.0, 5.0), b];
  }

  /** Two hot records and a limit of -1: nothing is returned, and one record is marked. */
  lemma NothingReturnedOneMarked(matches: MemoryRecord -> bool)
    requires forall r :: matches(r)
    ensures Recall(ExampleStore(1.0), "p", matches, -1, 5.0) == (ExampleStore(5.0), [])
  {
    ExampleFound(matches);
    ExampleMarked();
    hide Found, AccessAll, ExampleStore;
    var a, b := Example(1, 1.0, 1.0), Example(2, 0.0, 1.0);
    assert Slice([a, b], -1) == [a] && Ids([a]) == {1};
  }

  // ----- Marking records as accessed -----

  function AccessOne(s: Store, name: string, id: Id, now: real): Store {
    if name in s.agents && id in Ids(s.agents[name].hot)
    then s.(agents := s.agents[name := s.agents[name].(hot := Touch(s.agents[name].hot, {id}, now))])
    else if name in s.agents && id in Ids(s.agents[name].warm)
    then s.(agents := s.agents[name := s.agents[name].(warm := Touch(s.agents[name].warm, {id}, now))])
    else s.(cold := Touch(s.cold, {id}, now))
  }

  lemma {:induction false} TouchAgain(rs: seq<MemoryRecord>, a: set<Id>, b: set<Id>, now: real)
    ensures Touch(Touch(rs, a, now), b, now) == Touch(rs, a + b, now)
    ensures Ids(Touch(rs, a, now)) == Ids(rs)
    decreases |rs|
  {
    if rs != [] {
      TouchAgain(rs[1..], a, b, now);
      HeadFresh(rs);
      HeadFresh(Touch(rs, a, now));
    }
  }

  lemma {:induction false} TouchOthers(rs: seq<MemoryRecord>, a: set<Id>, now: real)
    requires Ids(rs) !! a
    ensures Touch(rs, a, now) == rs
    decreases |rs|
  {
    if rs != [] {
      HeadFresh(rs);
      TouchOthers(rs[1..], a, now);
    }
  }

  lemma AccessNone(s: Store, name: string, now: real)
    ensures AccessAll(s, name, Ids([]), now) == s
  {
    NoIds();
    TouchOthers(s.cold, {}, now);
    if name in s.agents {
      TouchOthers(s.agents[name].hot, {}, now);
      TouchOthers(s.agents[name].warm, {}, now);
      assert {} - Ids(s.agents[name].hot) == {} && {} - (Ids(s.agents[name].hot) + Ids(s.agents[name].warm)) == {};
      assert s.agents[name := s.agents[name]] == s.agents;
    }
  }

  /** Marking one more record. */
  lemma AccessMore(s: Store, name: string, ids: set<Id>, id: Id, now: real)
    ensures AccessOne(AccessAll(s, name, ids, now), name, id, now) == AccessAll(s, name, ids + {id}, now)
  {
    hide Touch, Ids;
    if name in s.agents {
      var a := s.agents[name];
      var hot := Ids(a.hot);
      var own := hot + Ids(a.warm);
      TouchAgain(a.hot, ids, {id}, now);
      TouchAgain(a.warm, ids - hot, {id}, now);
      TouchAgain(s.cold, ids - own, {id}, now);
      assert id in hot ==> ids + {id} - hot == ids - hot && ids + {id} - own == ids - own;
      assert id !in hot ==> ids + {id} - hot == ids - hot + {id};
      assert id in own ==> ids + {id} - own == ids - own;
      assert id !in own ==> ids + {id} - own == ids - own + {id};
      if id !in hot {
        TouchApart(a.hot, ids, id, now);
      }
      if id !in own {
        TouchApart(a.warm, ids - hot, id, now);
      }
    } else {
      TouchAgain(s.cold, ids, {id}, now);
    }
  }

  /** A record that is not in the list is not marked there. */
  lemma {:induction false} TouchApart(rs: seq<MemoryRecord>, ids: set<Id>, id: Id, now: real)
    requires id !in Ids(rs)
    ensures Touch(rs, ids + {id}, now) == Touch(rs, ids, now)
    decreases |rs|
  {
    if rs != [] {
      HeadFresh(rs);
      TouchApart(rs[1..], ids, id, now);
    }
  }

  // ----- The object -----

  lemma LastOfLast(w: seq<MemoryRecord>, a: seq<MemoryRecord>, n: nat)
    ensures Last(Last(w, n) + a, n) == Last(w + a, n)
  {
  }

  class PersistentMemoryManager {
    var agents: map<string, Agent>
    var coldIndex: seq<MemoryRecord>
    var file: seq<MemoryRecord>
    const warmLimit: nat

    function State(): Store
      reads this
    {
      Store(agents, coldIndex, file)
    }

    ghost predicate Valid()
      reads this
    {
      forall n | n in agents :: agents[n].budget >= 1
    }

    /** Opens a record file; the warm tier holds at least one record. */
    constructor (lines: seq<MemoryRecord>, warm: int)
      ensures Valid() && State() == Loaded(lines) && warmLimit == if warm < 1 then 1 else warm
    {
      agents, coldIndex, file := map[], [], lines;
      warmLimit := if warm < 1 then 1 else warm;
      new;
      LoadColdIndex();
    }

    /** Reads the file line by line into the index. */
    method LoadColdIndex()
      modifies this`coldIndex
      ensures coldIndex == UpsertAll(old(coldIndex), InTier(file, Cold))
    {
      InTierAt(file, Cold);
      ghost var lines := InTier(file, Cold);
      assert lines[0..] == lines;
      for i := 0 to |file|
        invariant UpsertAll(old(coldIndex), lines) == UpsertAll(coldIndex, lines[i..])
      {
        assert lines[i..][0] == Retier(file[i], Cold) && lines[i..][1..] == lines[i + 1..];
        coldIndex := Upsert(coldIndex, Retier(file[i], Cold));
      }
    }

    method RegisterAgent(name: string, budget: int) returns (r: Result<(), StoreError>)
      requires Valid()
      modifies this`agents
      ensures Valid()
      ensures match Register(old(State()), name, budget)
              case Ok(t) => r.Ok? && State() == t
              case Err(error) => r == Err(error) && State() == old(State())
    {
      if name == "" { return Err(EmptyName); }
      if budget <= 0 { return Err(BadBudget); }
      agents := agents[name := Agent(budget, [], [])];
      r := Ok(());
    }

    method UnregisterAgent(name: string) returns (known: bool)
      requires Valid()
      modifies this`agents
      ensures Valid() && (State(), known) == Unregister(old(State()), name)
    {
      known := name in agents;
      agents := agents - {name};
    }

    /** Copies a record into the index and appends it to the file. */
    method PersistRecord(r: MemoryRecord)
      modifies this`coldIndex, this`file
      ensures coldIndex == Upsert(old(coldIndex), Retier(r, Cold)) && file == old(file) + [Retier(r, Cold)]
    {
      coldIndex := Upsert(coldIndex, Retier(r, Cold));
      file := file + [Retier(r, Cold)];
    }

    /** Moves the lowest hot record of `name` to the warm tier, the index and the file. */
    method EvictLowest(name: string)
      requires name in agents && Tokens(agents[name].hot) > agents[name].budget
      modifies this
      ensures State() == EvictOne(old(State()), name, warmLimit)
    {
      var a := agents[name];
      var m := MinIndex(a.hot);
      var candidate := a.hot[m];
      a := a.(hot := RemoveAt(a.hot, m), warm := a.warm + [Retier(candidate, Warm)]);
      PersistRecord(candidate);
      if |a.warm| > warmLimit {
        a := a.(warm := a.warm[|a.warm| - warmLimit..]);
      }
      agents := agents[name := a];
      OneMoves(old(coldIndex), candidate);
    }

    /**
      Evicts until the budget holds. Stopping at 70% of the budget is never what ends the
      loop: by then the budget holds already.
    */
    method EvictIfNeeded(name: string) returns (evicted: bool)
      requires Valid() && name in agents
      modifies this
      ensures Valid() && State() == EvictAgent(old(State()), name, warmLimit)
      ensures evicted <==> Tokens(old(agents)[name].hot) > old(agents)[name].budget
    {
      evicted := false;
      var share := (agents[name].budget as real * 0.7).Floor;
      var target := if share < 1 then 1 else share;
      assert target <= agents[name].budget;
      while Tokens(agents[name].hot) > agents[name].budget && agents[name].hot != []
        invariant Valid() && name in agents && target <= agents[name].budget
        invariant EvictAgent(State(), name, warmLimit) == EvictAgent(old(State()), name, warmLimit)
        invariant evicted || State() == old(State())
        invariant evicted ==> Tokens(old(agents)[name].hot) > old(agents)[name].budget
        decreases |agents[name].hot|
      {
        EvictStep(State(), name, warmLimit);
        EvictLowest(name);
        evicted := true;
        if Tokens(agents[name].hot) <= target { break; }
      }
    }

    /** Appends a record to the hot tier; an unknown agent is registered first. */
    method AppendContextFrame(name: string, frame: Frame) returns (r: Result<bool, StoreError>)
      requires Valid()
      modifies this
      ensures Valid()
      ensures match Append(old(State()), name, frame, warmLimit)
              case Ok(t) => State() == t && r == Ok(|t.file| > |old(file)|)
              case Err(error) => r == Err(error) && State() == old(State())
    {
      if name !in agents {
        var registered := RegisterAgent(name, DEFAULT_BUDGET);
        if registered.Err? { return Err(registered.error); }
      }
      agents := agents[name := agents[name].(hot := agents[name].hot + [NewRecord(name, frame)])];
      EvictionGrowsFile(State(), name, warmLimit);
      var evicted := EvictIfNeeded(name);
      r := Ok(evicted);
    }

    /** Marks one found record as accessed, where it was found. */
    method Access(name: string, id: Id, now: real)
      modifies this`agents, this`coldIndex
      ensures State() == AccessOne(old(State()), name, id, now)
    {
      if name in agents && id in Ids(agents[name].hot) {
        agents := agents[name := agents[name].(hot := Touch(agents[name].hot, {id}, now))];
      } else if name in agents && id in Ids(agents[name].warm) {
        agents := agents[name := agents[name].(warm := Touch(agents[name].warm, {id}, now))];
      } else {
        coldIndex := Touch(coldIndex, {id}, now);
      }
    }

    /** The best matching records of an agent. */
    method RecallRecords(name: string, matches: MemoryRecord -> bool, limit: int, now: real) returns (returned: seq<MemoryRecord>)
      modifies this`agents, this`coldIndex
      ensures (State(), returned) == Recall(old(State()), name, matches, limit, now)
    {
      ghost var s := State();
      var found := Found(State(), name, matches);
      var top := Slice(found, limit);
      AccessNone(s, name, now);
      for i := 0 to |top|
        invariant State() == AccessAll(s, name, Ids(top[..i]), now)
      {
        AccessMore(s, name, Ids(top[..i]), top[i].id, now);
        assert top[..i + 1] == top[..i] + [top[i]];
        IdsAppend(top[..i], [top[i]]);
        assert Ids([top[i]]) == {top[i].id};
        Access(name, top[i].id, now);
      }
      assert top[..|top|] == top;
      returned := Touch(Slice(found, if limit < 0 then 0 else limit), Ids(top), now);
    }

    /** Removes a record from the hot and warm tiers of every agent. */
    method ForgetInTiers(id: Id) returns (removed: bool)
      requires Valid()
      modifies this`agents
      ensures Valid()
      ensures agents == map n | n in old(agents) :: Forgotten(old(agents)[n], id)
      ensures removed <==> exists n | n in old(agents) :: Holding(old(agents)[n], id)
    {
      removed := false;
      var todo := agents.Keys;
      while todo != {}
        invariant agents.Keys == old(agents).Keys && todo <= agents.Keys
        invariant forall n | n in agents :: agents[n] == if n in todo then old(agents)[n] else Forgotten(old(agents)[n], id)
        invariant removed <==> exists n | n in old(agents) && n !in todo :: Holding(old(agents)[n], id)
        decreases |todo|
      {
        var n :| n in todo;
        var a := agents[n];
        ForgottenShorter(a.hot, id);
        ForgottenShorter(a.warm, id);
        var b := Forgotten(a, id);
        removed := removed || |b.hot| != |a.hot| || |b.warm| != |a.warm|;
        agents := agents[n := b];
        todo := todo - {n};
      }
    }

    /** Forgets a record everywhere; the file is rewritten when the record was in the index. */
    method ForgetRecord(id: Id) returns (removed: bool)
      requires Valid()
      modifies this
      ensures Valid() && (State(), removed) == Forget(old(State()), id)
    {
      removed := ForgetInTiers(id);
      assert agents == Forget(old(State()), id).0.agents;
      if id in Ids(coldIndex) {
        coldIndex := Without(coldIndex, {id});
        removed := true;
        RewriteRecordsFile();
      }
    }

    /** Writes the index, line by line, over the file. */
    method RewriteRecordsFile()
      modifies this`file
      ensures file == coldIndex
    {
      file := [];
      for i := 0 to |coldIndex|
        invariant file == coldIndex[..i]
      {
        file := file + [coldIndex[i]];
      }
    }
  }

  /** A list gets shorter exactly when the record was in it. */
  lemma {:induction false} ForgottenShorter(rs: seq<MemoryRecord>, id: Id)
    ensures |Without(rs, {id})| <= |rs| && (|Without(rs, {id})| != |rs| <==> id in Ids(rs))
    decreases |rs|
  {
    if rs != [] {
      HeadFresh(rs);
      ForgottenShorter(rs[1..], id);
    }
  }

  /** A single record moves to the other tiers. */
  lemma OneMoves(cold: seq<MemoryRecord>, r: MemoryRecord)
    ensures InTier([r], Cold) == [Retier(r, Cold)] && InTier([r], Warm) == [Retier(r, Warm)]
    ensures UpsertAll(cold, InTier([r], Cold)) == Upsert(cold, Retier(r, Cold))
  {
    hide Upsert, Retier;
    var c := Retier(r, Cold);
    assert [r][1..] == [] && [c] + [] == [c] && [c][1..] == [];
    assert UpsertAll(cold, [c]) == UpsertAll(Upsert(cold, c), []);
  }

  /** One turn of the eviction loop. */
  function EvictOne(s: Store, name: string, warmLimit: nat): Store
    requires name in s.agents && Tokens(s.agents[name].hot) > s.agents[name].budget
  {
    var hot := s.agents[name].hot;
    MoveOut(s, name, Eviction(RemoveAt(hot, MinIndex(hot)), [hot[MinIndex(hot)]]), warmLimit)
  }

  /** Moving one record out and then others is moving all of them out. */
  lemma MoveTwice(s: Store, name: string, kept: seq<MemoryRecord>, r: MemoryRecord, e: Eviction, warmLimit: nat)
    requires name in s.agents
    ensures MoveOut(MoveOut(s, name, Eviction(kept, [r]), warmLimit), name, e, warmLimit)
         == MoveOut(s, name, Eviction(e.kept, [r] + e.evicted), warmLimit)
  {
    hide InTier, UpsertAll, Last;
    var a := s.agents[name];
    var w, c := InTier([r], Warm), InTier([r], Cold);
    InTierSplit([r], e.evicted, Warm);
    InTierSplit([r], e.evicted, Cold);
    UpsertAllSplit(s.cold, c, InTier(e.evicted, Cold));
    LastOfLast(a.warm + w, InTier(e.evicted, Warm), warmLimit);
    assert a.warm + w + InTier(e.evicted, Warm) == a.warm + (w + InTier(e.evicted, Warm));
    assert s.file + c + InTier(e.evicted, Cold) == s.file + (c + InTier(e.evicted, Cold));
  }

  /** Records went out exactly when the file got longer. */
  lemma EvictionGrowsFile(s: Store, name: string, warmLimit: nat)
    requires name in s.agents
    ensures Tokens(s.agents[name].hot) > s.agents[name].budget <==> |EvictAgent(s, name, warmLimit).file| > |s.file|
  {
    InTierAt(Evict(s.agents[name].hot, s.agents[name].budget).evicted, Cold);
  }

  /** Evicting one record and then the rest is evicting all. */
  lemma EvictStep(s: Store, name: string, warmLimit: nat)
    requires name in s.agents && Tokens(s.agents[name].hot) > s.agents[name].budget
    ensures EvictAgent(EvictOne(s, name, warmLimit), name, warmLimit) == EvictAgent(s, name, warmLimit)
  {
    hide MoveOut, RemoveAt, MinIndex;
    var a := s.agents[name];
    var m := MinIndex(a.hot);
    var rest := Evict(RemoveAt(a.hot, m), a.budget);
    MoveTwice(s, name, RemoveAt(a.hot, m), a.hot[m], rest, warmLimit);
    MovedAgent(s, name, Eviction(RemoveAt(a.hot, m), [a.hot[m]]), warmLimit);
    assert [a.hot[m]] + [] == [a.hot[m]];
  }

  lemma MovedAgent(s: Store, name: string, e: Eviction, warmLimit: nat)
    requires name in s.agents
    ensures name in MoveOut(s, name, e, warmLimit).agents
    ensures MoveOut(s, name, e, warmLimit).agents[name].hot == e.kept
    ensures MoveOut(s, name, e, warmLimit).agents[name].budget == s.agents[name].budget
  {
  }
}

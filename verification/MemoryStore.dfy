/**
  The tiered memory of kernel/memory_store.py: hot and warm records of each agent, the cold
  index, and the record file.
*/
module MemoryStore {
  import opened Common

  type Id = nat

  datatype Tier = Hot | Warm | Cold

  datatype MemoryRecord = MemoryRecord(
    id: Id,
    process: string,
    timestamp: real,
    content: string,
    tokens: nat,
    importance: real,
    tags: seq<string>,
    tier: Tier,
    lastAccessed: real)

  datatype Agent = Agent(budget: nat, hot: seq<MemoryRecord>, warm: seq<MemoryRecord>)

  /** `cold` is the index in its insertion order; `file` holds the lines of the record file. */
  datatype Store = Store(agents: map<string, Agent>, cold: seq<MemoryRecord>, file: seq<MemoryRecord>)

  const DEFAULT_BUDGET: nat := 8000

  function Ids(rs: seq<MemoryRecord>): set<Id> {
    set r | r in rs :: r.id
  }

  function Tokens(rs: seq<MemoryRecord>): nat {
    if rs == [] then 0 else rs[0].tokens + Tokens(rs[1..])
  }

  function Clamp(x: real): real {
    if x < 0.0 then 0.0 else if x > 1.0 then 1.0 else x
  }

  /** The records whose id is not in `gone`. */
  function Without(rs: seq<MemoryRecord>, gone: set<Id>): seq<MemoryRecord> {
    if rs == [] then []
    else (if rs[0].id in gone then [] else [rs[0]]) + Without(rs[1..], gone)
  }

  // ----- The index and the file -----

  function Position(rs: seq<MemoryRecord>, id: Id): (i: nat)
    requires id in Ids(rs)
    ensures i < |rs| && rs[i].id == id
  {
    if rs[0].id == id then 0 else assert id in Ids(rs[1..]); 1 + Position(rs[1..], id)
  }

  /** Assignment to an insertion-ordered dictionary: an existing key keeps its place. */
  function Upsert(rs: seq<MemoryRecord>, r: MemoryRecord): seq<MemoryRecord> {
    if r.id in Ids(rs) then rs[Position(rs, r.id) := r] else rs + [r]
  }

  function UpsertAll(rs: seq<MemoryRecord>, more: seq<MemoryRecord>): seq<MemoryRecord>
    decreases |more|
  {
    if more == [] then rs else UpsertAll(Upsert(rs, more[0]), more[1..])
  }

  /** The record as it is kept in a tier; the index gives every record a size of at least 1. */
  function Retier(r: MemoryRecord, tier: Tier): MemoryRecord {
    r.(tier := tier, tokens := if tier.Cold? && r.tokens == 0 then 1 else r.tokens)
  }

  function InTier(rs: seq<MemoryRecord>, tier: Tier): seq<MemoryRecord> {
    if rs == [] then [] else [Retier(rs[0], tier)] + InTier(rs[1..], tier)
  }

  /** The index that loading a file builds: the last line of an id wins. */
  function Replay(file: seq<MemoryRecord>): seq<MemoryRecord> {
    UpsertAll([], InTier(file, Cold))
  }

  // ----- Eviction -----

  /** The order in which records are evicted. */
  predicate Lower(a: MemoryRecord, b: MemoryRecord) {
    a.importance < b.importance ||
    (a.importance == b.importance &&
     (a.lastAccessed < b.lastAccessed || (a.lastAccessed == b.lastAccessed && a.timestamp < b.timestamp)))
  }

  /** The first of the lowest records. */
  function MinIndex(hot: seq<MemoryRecord>): (m: nat)
    requires hot != []
    ensures m < |hot|
    ensures forall j | 0 <= j < |hot| :: !Lower(hot[j], hot[m])
    ensures forall j | 0 <= j < m :: Lower(hot[m], hot[j])
    decreases |hot|
  {
    var last := |hot| - 1;
    if last == 0 then 0
    else
      var m := MinIndex(hot[..last]);
      if Lower(hot[last], hot[m]) then last else m
  }

  function RemoveAt(hot: seq<MemoryRecord>, i: nat): (rest: seq<MemoryRecord>)
    requires i < |hot|
    ensures |rest| == |hot| - 1
  {
    hot[..i] + hot[i + 1..]
  }

  datatype Eviction = Eviction(kept: seq<MemoryRecord>, evicted: seq<MemoryRecord>)

  /** Evicts the lowest record while the budget is exceeded. */
  function Evict(hot: seq<MemoryRecord>, budget: nat): Eviction
    decreases |hot|
  {
    if Tokens(hot) <= budget then Eviction(hot, [])
    else
      var m := MinIndex(hot);
      var rest := Evict(RemoveAt(hot, m), budget);
      Eviction(rest.kept, [hot[m]] + rest.evicted)
  }

  /** The last `n` records. */
  function Last(rs: seq<MemoryRecord>, n: nat): seq<MemoryRecord> {
    if |rs| <= n then rs else rs[|rs| - n..]
  }

  // ----- Operations -----

  datatype StoreError = EmptyName | BadBudget

  function Register(s: Store, name: string, budget: int): Result<Store, StoreError> {
    if name == "" then Err(EmptyName)
    else if budget <= 0 then Err(BadBudget)
    else Ok(s.(agents := s.agents[name := Agent(budget, [], [])]))
  }

  function Unregister(s: Store, name: string): (Store, bool) {
    (s.(agents := s.agents - {name}), name in s.agents)
  }

  /** The state of an agent; an unknown one is registered with the default budget. */
  function Ensure(s: Store, name: string): Store {
    if name in s.agents then s else s.(agents := s.agents[name := Agent(DEFAULT_BUDGET, [], [])])
  }

  /** Agent `name` keeps `e.kept`; the evicted records go to its warm tier, the index and the file. */
  function MoveOut(s: Store, name: string, e: Eviction, warmLimit: nat): Store
    requires name in s.agents
  {
    var a := s.agents[name];
    Store(s.agents[name := Agent(a.budget, e.kept, Last(a.warm + InTier(e.evicted, Warm), warmLimit))],
          UpsertAll(s.cold, InTier(e.evicted, Cold)),
          s.file + InTier(e.evicted, Cold))
  }

  function EvictAgent(s: Store, name: string, warmLimit: nat): Store
    requires name in s.agents
  {
    var a := s.agents[name];
    if Tokens(a.hot) <= a.budget then s else MoveOut(s, name, Evict(a.hot, a.budget), warmLimit)
  }

  /** What a caller gives for a new record; id and times come from outside. */
  datatype Frame = Frame(id: Id, content: string, tokens: int, importance: real, tags: seq<string>, timestamp: real, lastAccessed: real)

  function NewRecord(name: string, f: Frame): MemoryRecord {
    MemoryRecord(f.id, name, f.timestamp, f.content, if f.tokens < 1 then 1 else f.tokens, Clamp(f.importance), f.tags, Hot, f.lastAccessed)
  }

  function Append(s: Store, name: string, f: Frame, warmLimit: nat): Result<Store, StoreError> {
    if name == "" && name !in s.agents then Err(EmptyName)
    else
      var s1 := Ensure(s, name);
      var a := s1.agents[name];
      Ok(EvictAgent(s1.(agents := s1.agents[name := a.(hot := a.hot + [NewRecord(name, f)])]), name, warmLimit))
  }

  predicate Holding(a: Agent, id: Id) {
    id in Ids(a.hot) || id in Ids(a.warm)
  }

  function Forgotten(a: Agent, id: Id): Agent {
    a.(hot := Without(a.hot, {id}), warm := Without(a.warm, {id}))
  }

  /** Removes a record from every tier; the file is rewritten when the record was in the index. */
  function Forget(s: Store, id: Id): (Store, bool) {
    var known := (exists n | n in s.agents :: Holding(s.agents[n], id)) || id in Ids(s.cold);
    var s1 := s.(agents := map n | n in s.agents :: Forgotten(s.agents[n], id));
    if id in Ids(s.cold) then (s1.(cold := Without(s.cold, {id}), file := Without(s.cold, {id})), known) else (s1, known)
  }

  // ----- Recall -----

  function OfProcess(rs: seq<MemoryRecord>, name: string): seq<MemoryRecord> {
    if rs == [] then []
    else (if rs[0].process == name then [rs[0]] else []) + OfProcess(rs[1..], name)
  }

  /** Later records with an id that came earlier are dropped. */
  function FirstById(rs: seq<MemoryRecord>): seq<MemoryRecord>
    decreases |rs|
  {
    if rs == [] then []
    else
      var front := FirstById(rs[..|rs| - 1]);
      if rs[|rs| - 1].id in Ids(front) then front else front + [rs[|rs| - 1]]
  }

  function Keep(rs: seq<MemoryRecord>, matches: MemoryRecord -> bool): seq<MemoryRecord> {
    if rs == [] then [] else (if matches(rs[0]) then [rs[0]] else []) + Keep(rs[1..], matches)
  }

  /** Recalled first: the more important, then the newer. */
  predicate Above(a: MemoryRecord, b: MemoryRecord) {
    a.importance > b.importance || (a.importance == b.importance && a.timestamp > b.timestamp)
  }

  function InsertRanked(r: MemoryRecord, rs: seq<MemoryRecord>): seq<MemoryRecord> {
    if rs == [] || !Above(rs[0], r) then [r] + rs else [rs[0]] + InsertRanked(r, rs[1..])
  }

  /** Stable sort, highest first. */
  function Ranked(rs: seq<MemoryRecord>): seq<MemoryRecord> {
    if rs == [] then [] else InsertRanked(rs[0], Ranked(rs[1..]))
  }

  /** `rs[:limit]`, where a negative limit drops records from the end. */
  function Slice(rs: seq<MemoryRecord>, limit: int): seq<MemoryRecord> {
    if limit >= |rs| then rs else if limit >= 0 then rs[..limit] else if -limit >= |rs| then [] else rs[..|rs| + limit]
  }

  function Found(s: Store, name: string, matches: MemoryRecord -> bool): seq<MemoryRecord> {
    var own := if name in s.agents then s.agents[name].hot + s.agents[name].warm else [];
    Ranked(Keep(FirstById(OfProcess(own + s.cold, name)), matches))
  }

  /** The records of `ids` were accessed at time `now`. */
  function Touch(rs: seq<MemoryRecord>, ids: set<Id>, now: real): seq<MemoryRecord> {
    if rs == [] then []
    else [if rs[0].id in ids then rs[0].(lastAccessed := now) else rs[0]] + Touch(rs[1..], ids, now)
  }

  /** Each record is marked as accessed where it is found first: hot, else warm, else cold. */
  function AccessAll(s: Store, name: string, ids: set<Id>, now: real): Store {
    if name !in s.agents then s.(cold := Touch(s.cold, ids, now))
    else
      var a := s.agents[name];
      Store(s.agents[name := a.(hot := Touch(a.hot, ids, now), warm := Touch(a.warm, ids - Ids(a.hot), now))],
            Touch(s.cold, ids - (Ids(a.hot) + Ids(a.warm)), now),
            s.file)
  }

  /**
    The matching records of an agent, best first. The first of them are marked as accessed;
    the file keeps its lines.
  */
  function Recall(s: Store, name: string, matches: MemoryRecord -> bool, limit: int, now: real): (Store, seq<MemoryRecord>) {
    var found := Found(s, name, matches);
    var ids := Ids(Slice(found, limit));
    (AccessAll(s, name, ids, now), Touch(Slice(found, if limit < 0 then 0 else limit), ids, now))
  }

  // ----- Page table summary -----

  datatype Summary = Summary(activeTokens: nat, maxTokens: nat, active: nat, warm: nat, pagedOut: nat, total: nat, cold: nat)

  function Summarize(s: Store, name: string): Summary
    requires name in s.agents
  {
    var a, cold := s.agents[name], OfProcess(s.cold, name);
    var unique := |Without(cold, Ids(a.warm))|;
    Summary(Tokens(a.hot), a.budget, |a.hot|, |a.warm|, |a.warm| + unique, |a.hot| + |a.warm| + unique, |cold|)
  }
}

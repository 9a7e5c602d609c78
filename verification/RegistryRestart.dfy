/**
  Supervised restarts: what the three strategies do to the supervisor's child list.
*/
module RegistryRestart {
  import opened Common
  import opened Registry
  import opened RegistryKill

  // ----- The operation -----

  /** The result of a round of restarts: the new PIDs, and whether every candidate was restarted. */
  datatype Round = Round(reg: Reg, started: seq<Pid>, complete: bool)

  /**
    Restarts one candidate: kills it if it still runs, then starts its script again. Gives up
    when the supervisor is gone, when the candidate is no longer its child, or when the
    restart fails, which escalates.
  */
  function RestartNext(s: Reg, parent: Pid, c: Pid, profile: Option<Profile>): (Reg, Option<Pid>)
    requires Ordered(s)
  {
    if !IsLive(s, parent) || c !in s.records || s.records[c].parent != Some(parent) then (s, None)
    else
      var s1 := Kill(s, c);
      if !IsLive(s1, parent) then (s1, None)
      else
        var (s2, r) := RestartChild(s1, parent, c, profile);
        if r.Ok? then (s2, Some(r.value))
        else (if parent in s2.records then Put(s2, parent, s2.records[parent].(escalated := true)) else s2, None)
  }

  /** Restarts the candidates in order, up to the first that cannot be restarted. */
  function RestartAll(s: Reg, parent: Pid, candidates: seq<Pid>, load: Pid -> Option<Profile>): Round
    requires Ordered(s)
    decreases |candidates|
  {
    if candidates == [] then Round(s, [], true)
    else
      var (t, next) := RestartNext(s, parent, candidates[0], load(candidates[0]));
      if next.None? then Round(t, [], false)
      else
        NextOrdered(s, parent, candidates[0], load(candidates[0]));
        var rest := RestartAll(t, parent, candidates[1..], load);
        Round(rest.reg, [next.value] + rest.started, rest.complete)
  }

  lemma NextOrdered(s: Reg, parent: Pid, c: Pid, profile: Option<Profile>)
    requires Ordered(s) && RestartNext(s, parent, c, profile).1.Some?
    ensures Ordered(RestartNext(s, parent, c, profile).0)
  {
    RestartOrdered(Kill(s, c), parent, c, profile);
  }

  // ----- Lists -----

  lemma {:induction false} DedupDistinct(xs: seq<Pid>)
    ensures Distinct(Dedup(xs)) && forall x :: x in Dedup(xs) <==> x in xs
    decreases |xs|
  {
    if xs != [] {
      DedupDistinct(xs[..|xs| - 1]);
      assert xs == xs[..|xs| - 1] + [xs[|xs| - 1]];
    }
  }

  lemma {:induction false} DedupOfDistinct(xs: seq<Pid>)
    requires Distinct(xs)
    ensures Dedup(xs) == xs
    decreases |xs|
  {
    if xs != [] {
      var front := xs[..|xs| - 1];
      DedupOfDistinct(front);
      assert xs == front + [xs[|xs| - 1]];
    }
  }

  lemma DedupAgain(xs: seq<Pid>, x: Pid)
    requires Distinct(xs) && x in xs
    ensures Dedup(xs + [x]) == xs
  {
    DedupOfDistinct(xs);
    assert (xs + [x])[..|xs|] == xs;
  }

  /** Replacing an entry that the link has already appended moves the new PID to the old position. */
  lemma ReplaceInPlace(xs: seq<Pid>, stale: Pid, renewed: Pid)
    requires Distinct(xs) && stale in xs && renewed !in xs
    ensures Replace(xs + [renewed], stale, renewed) == xs[IndexOf(xs, stale) := renewed]
  {
    var i := IndexOf(xs, stale);
    var ys := xs + [renewed];
    assert Distinct(ys) && ys[i] == stale;
    assert IndexOf(ys, stale) == i;
    assert ys[i := renewed] == xs[i := renewed] + [renewed];
    assert xs[i := renewed][i] == renewed;
    DedupAgain(xs[i := renewed], renewed);
  }

  lemma ReplaceAtEnd(xs: seq<Pid>, stale: Pid, renewed: Pid)
    requires Distinct(xs) && stale !in xs && renewed !in xs && stale != renewed
    ensures Replace(xs + [renewed], stale, renewed) == xs + [renewed]
  {
    DedupOfDistinct(xs + [renewed]);
  }

  lemma ReplaceMembers(xs: seq<Pid>, stale: Pid, renewed: Pid, x: Pid)
    requires x in Replace(xs, stale, renewed)
    ensures x in xs || x == renewed
  {
    var ys := if stale in xs then xs[IndexOf(xs, stale) := renewed] else if renewed in xs then xs else xs + [renewed];
    DedupDistinct(ys);
  }

  // ----- One restart -----

  lemma LinkOrdered(s: Reg, parent: Pid, child: Pid)
    requires Ordered(s) && parent < child
    ensures Ordered(Link(s, parent, child)) && Link(s, parent, child).records.Keys == s.records.Keys
  {
  }

  lemma RestartOrdered(s: Reg, parent: Pid, child: Pid, profile: Option<Profile>)
    requires Ordered(s) && child in s.records
    ensures Ordered(RestartChild(s, parent, child, profile).0)
  {
    if profile.Some? {
      var c := s.records[child];
      var (s1, r) := Start(s, c.script, Some(parent), c.policy, profile.value);
      StartOrdered(s, c.script, Some(parent), c.policy, profile.value);
      if r.Ok? && r.value in s1.records {
        var s2 := Put(s1, r.value, s1.records[r.value].(restartCount := c.restartCount + 1));
        forall x | parent in s2.records && x in Replace(s2.records[parent].children, child, r.value)
          ensures parent < x
        {
          ReplaceMembers(s2.records[parent].children, child, r.value, x);
        }
      }
    }
  }

  lemma PutOrdered(s: Reg, pid: Pid, r: Record, byName: map<string, Pid>)
    requires Ordered(s) && pid < s.nextPid && r.children == []
    ensures Ordered(Put(s, pid, r).(byName := byName))
  {
  }

  lemma CommitOrdered(s: Reg, pid: Pid, script: string, parent: Option<Pid>, policy: RestartPolicy, profile: Profile, state: ProcessState)
    requires Ordered(s) && pid < s.nextPid && (parent.Some? ==> parent.value < pid)
    ensures Ordered(Commit(s, pid, script, parent, policy, profile, state).0)
  {
    hide Link, Rollback, Ordered;
    var (s1, ok) := RegisterResources(s, profile.name, profile.fault);
    RegisteredOrdered(s, profile.name, profile.fault);
    RollbackOrdered(s1, pid, profile.name, parent);
    var r := NewRecord(script, parent, policy, profile, state);
    PutOrdered(s1, pid, r, s1.byName[profile.name := pid]);
    if parent.Some? {
      LinkOrdered(Put(s1, pid, r).(byName := s1.byName[profile.name := pid]), parent.value, pid);
    }
  }

  lemma RegisteredOrdered(s: Reg, name: string, fault: Fault)
    requires Ordered(s)
    ensures Ordered(RegisterResources(s, name, fault).0) && RegisterResources(s, name, fault).0.nextPid == s.nextPid
  {
  }

  lemma StartOrdered(s: Reg, script: string, parent: Option<Pid>, policy: RestartPolicy, profile: Profile)
    requires Ordered(s)
    ensures var (t, r) := Start(s, script, parent, policy, profile);
            Ordered(t) && (r.Ok? ==> r.value == s.nextPid && (parent.Some? ==> parent.value < r.value))
  {
    hide RegisterResources, Link, Rollback;
    if ParentRunning(s, parent) && profile.name !in s.byName {
      CommitOrdered(s.(nextPid := s.nextPid + 1), s.nextPid, script, parent, policy, profile, Starting);
    }
  }

  lemma RollbackOrdered(s: Reg, pid: Pid, name: string, parent: Option<Pid>)
    requires Ordered(s)
    ensures Ordered(Rollback(s, pid, name, parent))
  {
    MinusSubset(s);
  }

  /** A successful start under `parent`: one new record, its name, and one new entry in the parent's list. */
  function Adopted(s: Reg, parent: Pid, r: Record): Reg
    requires parent in s.records
  {
    var p := s.records[parent];
    Reg(s.records[s.nextPid := r][parent := p.(children := p.children + [s.nextPid])],
        s.byName[r.name := s.nextPid],
        s.nextPid + 1,
        s.mailboxes + {r.name},
        s.tables + {r.name})
  }

  lemma StartAdopts(s: Reg, script: string, parent: Pid, policy: RestartPolicy, profile: Profile)
    requires Tidy(s) && Start(s, script, Some(parent), policy, profile).1.Ok?
    ensures IsLive(s, parent) && profile.name !in s.byName
    ensures Start(s, script, Some(parent), policy, profile)
         == (Adopted(s, parent, NewRecord(script, Some(parent), policy, profile, Starting)), Ok(s.nextPid))
  {
    FreshUnlisted(s, parent);
    var rec := NewRecord(script, Some(parent), policy, profile, Starting);
    var s2 := Reg(s.records[s.nextPid := rec], s.byName[profile.name := s.nextPid], s.nextPid + 1,
                  s.mailboxes + {profile.name}, s.tables + {profile.name});
    assert s2.records[s.nextPid := rec] == s2.records;
    assert Link(s2, parent, s.nextPid) == Adopted(s, parent, rec);
  }

  lemma FreshUnlisted(s: Reg, parent: Pid)
    requires Tidy(s) && parent in s.records
    ensures s.nextPid !in s.records && s.nextPid !in s.records[parent].children
  {
    assert forall c | c in s.records[parent].children :: c in s.records;
  }

  /** The supervisor's list after `child` came back as `renewed`. */
  function RenewedList(xs: seq<Pid>, child: Pid, renewed: Pid): seq<Pid> {
    if child in xs then xs[IndexOf(xs, child) := renewed] else xs + [renewed]
  }

  /** The state after a restart: one new record `r`, its name, and the renewed list. */
  function Renewed(s: Reg, parent: Pid, child: Pid, r: Record): Reg
    requires parent in s.records
  {
    var p := s.records[parent];
    Reg(s.records[s.nextPid := r][parent := p.(children := RenewedList(p.children, child, s.nextPid))],
        s.byName[r.name := s.nextPid],
        s.nextPid + 1,
        s.mailboxes + {r.name},
        s.tables + {r.name})
  }

  /** Link, then count, then relink: together one renewal. */
  lemma RelinkRenews(s: Reg, parent: Pid, child: Pid, r: Record, counted: Record)
    requires parent in s.records && s.nextPid !in s.records && s.nextPid !in s.records[parent].children
    requires Distinct(s.records[parent].children) && child != s.nextPid && counted.name == r.name
    ensures Relink(Put(Adopted(s, parent, r), s.nextPid, counted), parent, child, s.nextPid) == Renewed(s, parent, child, counted)
  {
    var n, p := s.nextPid, s.records[parent];
    RelinkedList(p.children, child, n);
    var t := Put(Adopted(s, parent, r), n, counted);
    assert n != parent && t.records[parent] == p.(children := p.children + [n]);
    var b := p.(children := RenewedList(p.children, child, n));
    assert Relink(t, parent, child, n) == Put(t, parent, b);
    PutTwice(s.records, n, parent, r, p.(children := p.children + [n]), counted, b);
  }

  lemma RelinkedList(xs: seq<Pid>, child: Pid, n: Pid)
    requires Distinct(xs) && n !in xs && child != n
    ensures Replace(xs + [n], child, n) == RenewedList(xs, child, n)
  {
    if child in xs {
      ReplaceInPlace(xs, child, n);
    } else {
      ReplaceAtEnd(xs, child, n);
    }
  }

  lemma PutTwice(m: map<Pid, Record>, n: Pid, q: Pid, r: Record, a: Record, r': Record, b: Record)
    requires n != q
    ensures m[n := r][q := a][n := r'][q := b] == m[n := r'][q := b]
  {
  }

  function Reborn(c: Record, parent: Pid, profile: Profile): Record {
    NewRecord(c.script, Some(parent), c.policy, profile, Starting).(restartCount := c.restartCount + 1)
  }

  lemma RestartRenews(s: Reg, parent: Pid, child: Pid, profile: Option<Profile>)
    requires Tidy(s) && child in s.records && RestartChild(s, parent, child, profile).1.Ok?
    ensures IsLive(s, parent) && profile.Some? && profile.value.name !in s.byName
    ensures RestartChild(s, parent, child, profile)
         == (Renewed(s, parent, child, Reborn(s.records[child], parent, profile.value)), Ok(s.nextPid))
  {
    var c := s.records[child];
    StartAdopts(s, c.script, parent, c.policy, profile.value);
    FreshUnlisted(s, parent);
    var r := NewRecord(c.script, Some(parent), c.policy, profile.value, Starting);
    RelinkRenews(s, parent, child, r, Reborn(c, parent, profile.value));
    assert s.nextPid in Adopted(s, parent, r).records && Adopted(s, parent, r).records[s.nextPid] == r;
  }

  lemma RenewedMember(xs: seq<Pid>, child: Pid, renewed: Pid, x: Pid)
    requires Distinct(xs) && renewed !in xs
    ensures x in RenewedList(xs, child, renewed) <==> x == renewed || (x in xs && x != child)
    ensures Distinct(RenewedList(xs, child, renewed))
  {
    if child in xs {
      var i := IndexOf(xs, child);
      var ys := xs[i := renewed];
      assert ys[i] == renewed;
      if x in xs && x != child {
        var j :| 0 <= j < |xs| && xs[j] == x;
        assert ys[j] == x;
      }
    }
  }

  /** A new record under `parent` that restarts the finished process `child`. */
  predicate Renews(s: Reg, parent: Pid, child: Pid, r: Record) {
    && IsLive(s, parent) && !IsActive(s, child)
    && r.parent == Some(parent) && r.state.Live() && r.registered && r.children == [] && r.name !in s.byName
  }

  lemma RenewedOlder(s: Reg, parent: Pid, child: Pid, r: Record)
    requires Tidy(s) && Renews(s, parent, child, r)
    ensures OlderParents(Renewed(s, parent, child, r))
  {
    var t := Renewed(s, parent, child, r);
    forall p {:trigger t.records[p].parent} | p in t.records && t.records[p].parent.Some?
      ensures t.records[p].parent.value in t.records && t.records[p].parent.value < p
    {
      assert p != s.nextPid ==> s.records[p].parent == t.records[p].parent;
    }
  }

  lemma RenewedRecord(s: Reg, parent: Pid, child: Pid, r: Record, q: Pid)
    requires Tidy(s) && parent in s.records
    ensures Renewed(s, parent, child, r).records.Keys == s.records.Keys + {s.nextPid} && Renewed(s, parent, child, r).nextPid == s.nextPid + 1
    ensures q in s.records ==>
              q != s.nextPid && Renewed(s, parent, child, r).records[q]
              == if q == parent then s.records[q].(children := RenewedList(s.records[q].children, child, s.nextPid)) else s.records[q]
    ensures Renewed(s, parent, child, r).records[s.nextPid] == r
  {
    FreshUnlisted(s, parent);
  }

  lemma ListedFacts(s: Reg, q: Pid, c: Pid)
    requires Tidy(s) && q in s.records && c in s.records[q].children
    ensures c in s.records && s.records[c].parent == Some(q) && q < c
  {
  }

  lemma RenewedListedAt(s: Reg, parent: Pid, child: Pid, r: Record, q: Pid, c: Pid)
    requires Tidy(s) && Renews(s, parent, child, r) && q in Renewed(s, parent, child, r).records
    requires c in Renewed(s, parent, child, r).records[q].children
    ensures c in Renewed(s, parent, child, r).records && Renewed(s, parent, child, r).records[c].parent == Some(q) && q < c
  {
    hide Renewed, RenewedList, LinksTidy, NamesTidy, Ordered;
    RenewedRecord(s, parent, child, r, q);
    RenewedRecord(s, parent, child, r, c);
    ParentIsOld(s, parent);
    if q == parent {
      TidyChildren(s, parent);
      RenewedMember(s.records[q].children, child, s.nextPid, c);
    }
    if c != s.nextPid || q != parent {
      ListedFacts(s, q, c);
    }
  }

  lemma ParentIsOld(s: Reg, parent: Pid)
    requires Ordered(s) && parent in s.records
    ensures parent < s.nextPid
  {
  }

  lemma TidyChildren(s: Reg, parent: Pid)
    requires Tidy(s) && parent in s.records
    ensures Distinct(s.records[parent].children) && s.nextPid !in s.records[parent].children
  {
    FreshUnlisted(s, parent);
  }

  lemma RenewedListed(s: Reg, parent: Pid, child: Pid, r: Record)
    requires Tidy(s) && Renews(s, parent, child, r)
    ensures ListedByParent(Renewed(s, parent, child, r)) && Ordered(Renewed(s, parent, child, r))
  {
    hide Renewed, LinksTidy, NamesTidy;
    var t := Renewed(s, parent, child, r);
    RenewedRecord(s, parent, child, r, parent);
    forall q, c | q in t.records && c in t.records[q].children
      ensures c in t.records && t.records[c].parent == Some(q) && q < c
    {
      RenewedListedAt(s, parent, child, r, q, c);
    }
    forall q | q in t.records
      ensures q < t.nextPid && forall c | c in t.records[q].children :: q < c
    {
      forall c | c in t.records[q].children
        ensures q < c
      {
        RenewedListedAt(s, parent, child, r, q, c);
      }
    }
  }

  lemma RenewedDistinct(s: Reg, parent: Pid, child: Pid, r: Record)
    requires Tidy(s) && Renews(s, parent, child, r)
    ensures DistinctLists(Renewed(s, parent, child, r))
  {
    hide Renewed, RenewedList, NamesTidy, Ordered;
    var t := Renewed(s, parent, child, r);
    TidyChildren(s, parent);
    RenewedMember(s.records[parent].children, child, s.nextPid, 0);
    RenewedRecord(s, parent, child, r, parent);
    forall q | q in t.records
      ensures Distinct(t.records[q].children)
    {
      RenewedRecord(s, parent, child, r, q);
    }
  }

  lemma RenewedActive(s: Reg, parent: Pid, child: Pid, r: Record)
    requires Tidy(s) && Renews(s, parent, child, r)
    ensures ActiveListed(Renewed(s, parent, child, r))
  {
    var t := Renewed(s, parent, child, r);
    FreshUnlisted(s, parent);
    forall c {:trigger t.records[c].parent} | c in t.records && IsActive(t, c) && t.records[c].parent.Some?
      ensures IsActive(t, t.records[c].parent.value) && c in t.records[t.records[c].parent.value].children
    {
      assert c != s.nextPid ==> s.records[c].parent == t.records[c].parent;
      RenewedMember(s.records[parent].children, child, s.nextPid, c);
    }
  }

  lemma RenewedNames(s: Reg, parent: Pid, child: Pid, r: Record)
    requires Tidy(s) && Renews(s, parent, child, r)
    ensures NamesTidy(Renewed(s, parent, child, r))
  {
    var t := Renewed(s, parent, child, r);
    FreshUnlisted(s, parent);
    forall p | p in t.records && t.records[p].registered
      ensures t.records[p].name in t.byName && t.byName[t.records[p].name] == p
    {
      assert p != s.nextPid ==> s.records[p].registered && s.records[p].name in s.byName;
    }
  }

  lemma RenewedTidy(s: Reg, parent: Pid, child: Pid, r: Record)
    requires Tidy(s) && Renews(s, parent, child, r)
    ensures Tidy(Renewed(s, parent, child, r))
  {
    RenewedOlder(s, parent, child, r);
    RenewedListed(s, parent, child, r);
    RenewedDistinct(s, parent, child, r);
    RenewedActive(s, parent, child, r);
    RenewedNames(s, parent, child, r);
  }

  /** The supervisor's list after one restart: a running child is killed and comes back at the end. */
  function ListAfter(xs: seq<Pid>, child: Pid, renewed: Pid, running: bool): seq<Pid> {
    RenewedList(if running then Minus(xs, {child}) else xs, child, renewed)
  }

  /** `t` is `s` after `child` was restarted: its script again under a new PID, in a renewed list. */
  predicate Restarted(s: Reg, t: Reg, parent: Pid, child: Pid)
    requires parent in s.records && child in s.records
  {
    var p, n := s.records[parent], s.nextPid;
    && Tidy(t) && IsLive(t, parent) && t.nextPid == n + 1
    && t.records[parent] == p.(children := ListAfter(p.children, child, n, IsActive(s, child)))
    && n in t.records && SameScript(s.records[child].(parent := Some(parent)), t.records[n])
    && forall d | d in p.children && d != child :: d in s.records && d in t.records && t.records[d] == s.records[d]
  }

  lemma OneRestart(s: Reg, parent: Pid, child: Pid, profile: Option<Profile>)
    requires Tidy(s) && IsLive(s, parent) && child in s.records[parent].children && child in s.records
    requires RestartChild(Kill(s, child), parent, child, profile).1.Ok?
    ensures var (t, r) := RestartChild(Kill(s, child), parent, child, profile);
            r == Ok(s.nextPid) && Restarted(s, t, parent, child)
  {
    var s1 := Kill(s, child);
    FreshUnlisted(s, parent);
    KillOneChild(s, parent, child);
    RestartRenews(s1, parent, child, profile);
    RenewalRestarts(s, s1, parent, child, Reborn(s1.records[child], parent, profile.value));
  }

  lemma RenewalRestarts(s: Reg, s1: Reg, parent: Pid, child: Pid, r: Record)
    requires Tidy(s) && IsLive(s, parent) && child in s.records[parent].children && child in s.records
    requires KilledChild(s, s1, parent, child) && r.name !in s1.byName
    requires SameScript(s.records[child].(parent := Some(parent)), r) && r.children == [] && r.registered
    ensures Restarted(s, Renewed(s1, parent, child, r), parent, child)
  {
    RenewedTidy(s1, parent, child, r);
    FreshUnlisted(s1, parent);
    FreshUnlisted(s, parent);
  }

  predicate KilledChild(s: Reg, t: Reg, parent: Pid, child: Pid)
    requires parent in s.records && child in s.records
  {
    var p := s.records[parent];
    && Tidy(t) && t.nextPid == s.nextPid && child in t.records && !IsActive(t, child) && IsLive(t, parent)
    && t.records[parent] == p.(children := if IsActive(s, child) then Minus(p.children, {child}) else p.children)
    && t.records[child].script == s.records[child].script && t.records[child].policy == s.records[child].policy
    && forall d | d in p.children && d != child :: d in s.records && d in t.records && t.records[d] == s.records[d]
  }

  /** Killing a listed child spares its supervisor and its siblings. */
  lemma SiblingsAreNotBelow(s: Reg, parent: Pid, child: Pid, x: Pid)
    requires LinksTidy(s) && parent in s.records && child in s.records[parent].children
    requires x == parent || (x in s.records[parent].children && x != child)
    ensures x in s.records && x !in Doomed(s, child)
  {
    assert s.records[child].parent == Some(parent) && parent < child;
    if Under(s, x, child) {
      UnderIsAbove(s, parent, child);
    }
  }

  lemma KillOneChild(s: Reg, parent: Pid, child: Pid)
    requires Tidy(s) && IsLive(s, parent) && child in s.records[parent].children && child in s.records
    ensures KilledChild(s, Kill(s, child), parent, child)
  {
    hide Doomed, Kill, NamesTidy, Ordered;
    assert s.records[child].parent == Some(parent);
    if IsActive(s, child) {
      KillExact(s, child);
      SiblingsAreNotBelow(s, parent, child, parent);
      forall x | x in s.records[parent].children && x != child
        ensures x in s.records && x !in Doomed(s, child) && s.records[x].parent == Some(parent)
      {
        SiblingsAreNotBelow(s, parent, child, x);
      }
    } else {
      KillRefused(s, child);
    }
  }

  lemma KillRefused(s: Reg, pid: Pid)
    requires Ordered(s) && !IsActive(s, pid)
    ensures Kill(s, pid) == s
  {
  }

  // ----- A round of restarts -----

  /** The list after restarting `cs` in order, with PIDs from `n` on; the children in `down` do not run. */
  function ListAfterAll(xs: seq<Pid>, cs: seq<Pid>, n: Pid, down: set<Pid>): seq<Pid>
    decreases |cs|
  {
    if cs == [] then xs else ListAfterAll(ListAfter(xs, cs[0], n, cs[0] !in down), cs[1..], n + 1, down)
  }

  /** n, n + 1, ... */
  function Fresh(n: Pid, k: nat): (ps: seq<Pid>)
    ensures |ps| == k
    decreases k
  {
    if k == 0 then [] else [n] + Fresh(n + 1, k - 1)
  }

  /** `t` is a restart of `r`: the same script under the same policy and parent. */
  predicate SameScript(r: Record, t: Record) {
    t.script == r.script && t.policy == r.policy && t.parent == r.parent && t.state.Live()
  }

  lemma ListAfterMember(xs: seq<Pid>, child: Pid, renewed: Pid, running: bool, x: Pid)
    requires Distinct(xs) && renewed !in xs && child in xs
    ensures x in ListAfter(xs, child, renewed, running) <==> x == renewed || (x in xs && x != child)
  {
    MinusDistinct(xs, {child});
    MinusMember(xs, {child}, x);
    MinusMember(xs, {child}, renewed);
    RenewedMember(if running then Minus(xs, {child}) else xs, child, renewed, x);
  }

  /** `ys` comes from `xs` by restarting `cs` in order, with PIDs from `n` on. */
  predicate Rebuilds(xs: seq<Pid>, ys: seq<Pid>, cs: seq<Pid>, n: Pid, down: set<Pid>)
    decreases |cs|
  {
    if cs == [] then ys == xs else Rebuilds(ListAfter(xs, cs[0], n, cs[0] !in down), ys, cs[1..], n + 1, down)
  }

  lemma {:induction false} RebuildsList(xs: seq<Pid>, ys: seq<Pid>, cs: seq<Pid>, n: Pid, down: set<Pid>)
    requires Rebuilds(xs, ys, cs, n, down)
    ensures ys == ListAfterAll(xs, cs, n, down)
    decreases |cs|
  {
    if cs != [] {
      RebuildsList(ListAfter(xs, cs[0], n, cs[0] !in down), ys, cs[1..], n + 1, down);
    }
  }

  /** The new processes, in PID order, run the candidates' scripts in the candidates' order. */
  predicate SameScripts(s: Reg, cs: seq<Pid>, t: Reg) {
    forall i | 0 <= i < |cs| :: RunsAgain(s, cs[i], t, s.nextPid + i)
  }

  /** Process `pid` of `t` is a restart of process `c` of `s`. */
  predicate RunsAgain(s: Reg, c: Pid, t: Reg, pid: Pid) {
    c in s.records && pid in t.records && SameScript(s.records[c], t.records[pid])
  }

  predicate Spares(s: Reg, parent: Pid, cs: seq<Pid>, t: Reg)
    requires parent in s.records
  {
    forall d | d in s.records[parent].children && d !in cs :: d in s.records && d in t.records && t.records[d] == s.records[d]
  }

  /** The candidates are listed children of the supervisor; those in `down` do not run. */
  predicate RoundReady(s: Reg, parent: Pid, cs: seq<Pid>, down: set<Pid>) {
    && Tidy(s) && IsLive(s, parent) && Distinct(cs)
    && forall c | c in cs :: c in s.records && c in s.records[parent].children && (IsActive(s, c) <==> c !in down)
  }

  lemma RoundNext(s: Reg, t: Reg, parent: Pid, cs: seq<Pid>, down: set<Pid>)
    requires RoundReady(s, parent, cs, down) && cs != [] && Restarted(s, t, parent, cs[0])
    ensures RoundReady(t, parent, cs[1..], down)
  {
    FreshUnlisted(s, parent);
    forall d | d in cs[1..]
      ensures d in t.records && d in t.records[parent].children && (IsActive(t, d) <==> d !in down)
    {
      assert d in cs && d != cs[0];
      ListAfterMember(s.records[parent].children, cs[0], s.nextPid, IsActive(s, cs[0]), d);
    }
  }

  lemma RoundScripts(s: Reg, t: Reg, cs: seq<Pid>, u: Reg)
    requires cs != [] && (forall c | c in cs :: c in s.records) && t.nextPid == s.nextPid + 1
    requires forall d | d in cs[1..] :: d in t.records && t.records[d] == s.records[d]
    requires s.nextPid in u.records && SameScript(s.records[cs[0]], u.records[s.nextPid])
    requires SameScripts(t, cs[1..], u)
    ensures SameScripts(s, cs, u)
  {
    forall i | 0 <= i < |cs|
      ensures RunsAgain(s, cs[i], u, s.nextPid + i)
    {
      if i > 0 {
        assert cs[i] == cs[1..][i - 1] && cs[i] in cs[1..];
        assert RunsAgain(t, cs[1..][i - 1], u, t.nextPid + (i - 1));
      }
    }
  }

  /** The first restarted process of a round is still there, unchanged, at its end. */
  lemma RoundKeepsFirst(s: Reg, t: Reg, parent: Pid, cs: seq<Pid>, down: set<Pid>, u: Reg)
    requires RoundReady(s, parent, cs, down) && cs != [] && Restarted(s, t, parent, cs[0])
    requires Spares(t, parent, cs[1..], u)
    ensures s.nextPid in u.records && SameScript(s.records[cs[0]], u.records[s.nextPid])
    ensures forall d | d in cs[1..] :: d in s.records && d in t.records && t.records[d] == s.records[d]
  {
    var c, n := cs[0], s.nextPid;
    FreshUnlisted(s, parent);
    ListAfterMember(s.records[parent].children, c, n, IsActive(s, c), n);
    assert forall d | d in cs[1..] :: d in cs && d != c;
    assert s.records[c].parent == Some(parent);
    assert s.records[c].(parent := Some(parent)) == s.records[c];
  }

  lemma RoundSpares(s: Reg, t: Reg, parent: Pid, cs: seq<Pid>, down: set<Pid>, u: Reg)
    requires RoundReady(s, parent, cs, down) && cs != [] && Restarted(s, t, parent, cs[0])
    requires Spares(t, parent, cs[1..], u)
    ensures Spares(s, parent, cs, u)
  {
    FreshUnlisted(s, parent);
    forall d | d in s.records[parent].children && d !in cs
      ensures d in s.records && d in u.records && u.records[d] == s.records[d]
    {
      ListAfterMember(s.records[parent].children, cs[0], s.nextPid, IsActive(s, cs[0]), d);
      assert forall e | e in cs[1..] :: e in cs;
    }
  }

  lemma RoundChildren(s: Reg, t: Reg, parent: Pid, cs: seq<Pid>, down: set<Pid>, u: Reg)
    requires RoundReady(s, parent, cs, down) && cs != [] && Restarted(s, t, parent, cs[0])
    requires SameScripts(t, cs[1..], u) && Spares(t, parent, cs[1..], u)
    ensures SameScripts(s, cs, u) && Spares(s, parent, cs, u)
  {
    RoundKeepsFirst(s, t, parent, cs, down, u);
    RoundScripts(s, t, cs, u);
    RoundSpares(s, t, parent, cs, down, u);
  }

  /** What a complete round does first. */
  lemma RoundUnfolds(s: Reg, parent: Pid, cs: seq<Pid>, load: Pid -> Option<Profile>)
    requires Ordered(s) && cs != [] && RestartAll(s, parent, cs, load).complete
    ensures cs[0] in s.records
    ensures var (t, r) := RestartChild(Kill(s, cs[0]), parent, cs[0], load(cs[0]));
            r.Ok? && Ordered(t) &&
            var rest := RestartAll(t, parent, cs[1..], load);
            RestartAll(s, parent, cs, load) == Round(rest.reg, [r.value] + rest.started, rest.complete)
  {
    RestartOrdered(Kill(s, cs[0]), parent, cs[0], load(cs[0]));
  }

  /** The state after the first restart of a complete round, ready for the others. */
  lemma RoundStep(s: Reg, parent: Pid, cs: seq<Pid>, load: Pid -> Option<Profile>, down: set<Pid>) returns (t: Reg)
    requires RoundReady(s, parent, cs, down) && cs != []
    requires RestartAll(s, parent, cs, load).complete
    ensures cs[0] in s.records && parent in s.records && Restarted(s, t, parent, cs[0]) && RoundReady(t, parent, cs[1..], down)
    ensures t.records[parent] == s.records[parent].(children := ListAfter(s.records[parent].children, cs[0], s.nextPid, cs[0] !in down))
    ensures var rest := RestartAll(t, parent, cs[1..], load);
            RestartAll(s, parent, cs, load) == Round(rest.reg, [s.nextPid] + rest.started, rest.complete)
  {
    RoundUnfolds(s, parent, cs, load);
    assert cs[0] in cs && IsActive(s, cs[0]) == (cs[0] !in down);
    OneRestart(s, parent, cs[0], load(cs[0]));
    t := RestartChild(Kill(s, cs[0]), parent, cs[0], load(cs[0])).0;
    RoundNext(s, t, parent, cs, down);
  }

  /** After a complete round the supervisor's list is rebuilt. */
  lemma {:induction false} WholeRoundList(s: Reg, parent: Pid, cs: seq<Pid>, load: Pid -> Option<Profile>, down: set<Pid>)
    requires RoundReady(s, parent, cs, down)
    requires RestartAll(s, parent, cs, load).complete
    ensures var round := RestartAll(s, parent, cs, load);
            && round.started == Fresh(s.nextPid, |cs|) && parent in round.reg.records
            && round.reg.records[parent] == s.records[parent].(children := round.reg.records[parent].children)
            && Rebuilds(s.records[parent].children, round.reg.records[parent].children, cs, s.nextPid, down)
    decreases |cs|
  {
    hide LinksTidy, NamesTidy, Ordered, RestartNext, Restarted, ListAfter;
    if cs != [] {
      var t := RoundStep(s, parent, cs, load, down);
      WholeRoundList(t, parent, cs[1..], load, down);
    }
  }

  /** After a complete round the registry is tidy, every candidate runs again, and no other child changed. */
  lemma {:induction false} WholeRoundChildren(s: Reg, parent: Pid, cs: seq<Pid>, load: Pid -> Option<Profile>, down: set<Pid>)
    requires RoundReady(s, parent, cs, down)
    requires RestartAll(s, parent, cs, load).complete
    ensures Tidy(RestartAll(s, parent, cs, load).reg)
    ensures SameScripts(s, cs, RestartAll(s, parent, cs, load).reg)
    ensures Spares(s, parent, cs, RestartAll(s, parent, cs, load).reg)
    decreases |cs|
  {
    if cs != [] {
      var t := RoundStep(s, parent, cs, load, down);
      WholeRoundChildren(t, parent, cs[1..], load, down);
      RoundChildren(s, t, parent, cs, down, RestartAll(t, parent, cs[1..], load).reg);
    } else {
      assert forall d | d in s.records[parent].children :: d in s.records;
    }
  }

  // ----- The rebuilt list -----

  /** What becomes of the old list: who was down is replaced in place, who ran is gone, the others stay. */
  function InPlace(xs: seq<Pid>, cs: seq<Pid>, n: Pid, down: set<Pid>): seq<Pid> {
    if xs == [] then []
    else (if xs[0] !in cs then [xs[0]] else if xs[0] in down then [n + IndexOf(cs, xs[0])] else [])
         + InPlace(xs[1..], cs, n, down)
  }

  /** The fresh PIDs, from `n` on in the order of `cs`, of the candidates in `chosen`. */
  function Renumbered(cs: seq<Pid>, n: Pid, chosen: set<Pid>): seq<Pid>
    decreases |cs|
  {
    if cs == [] then [] else (if cs[0] in chosen then [n] else []) + Renumbered(cs[1..], n + 1, chosen)
  }

  /** The candidates that ran when the round began. */
  function Running(cs: seq<Pid>, down: set<Pid>): set<Pid> {
    (set c | c in cs) - down
  }

  /** The list after a round: who ran follows at the end. */
  function RebuiltList(xs: seq<Pid>, cs: seq<Pid>, n: Pid, down: set<Pid>): seq<Pid> {
    InPlace(xs, cs, n, down) + Renumbered(cs, n, Running(cs, down))
  }

  lemma {:induction false} InPlaceSplits(xs: seq<Pid>, ys: seq<Pid>, cs: seq<Pid>, n: Pid, down: set<Pid>)
    ensures InPlace(xs + ys, cs, n, down) == InPlace(xs, cs, n, down) + InPlace(ys, cs, n, down)
    decreases |xs|
  {
    if xs == [] {
      assert xs + ys == ys;
    } else {
      assert (xs + ys)[0] == xs[0] && (xs + ys)[1..] == xs[1..] + ys;
      InPlaceSplits(xs[1..], ys, cs, n, down);
    }
  }

  /** Positions shift by one when the first candidate is done. */
  lemma LaterIndex(cs: seq<Pid>, x: Pid)
    requires cs != [] && x in cs && x != cs[0]
    ensures x in cs[1..] && IndexOf(cs, x) == 1 + IndexOf(cs[1..], x)
  {
  }

  /** Where `c0` does not occur, dropping it from the candidates changes nothing. */
  lemma {:induction false} InPlaceWithout(xs: seq<Pid>, cs: seq<Pid>, n: Pid, down: set<Pid>)
    requires cs != [] && Distinct(cs) && cs[0] !in xs
    ensures InPlace(xs, cs[1..], n + 1, down) == InPlace(xs, cs, n, down)
    decreases |xs|
  {
    hide IndexOf;
    if xs != [] {
      InPlaceWithout(xs[1..], cs, n, down);
      if xs[0] in cs {
        LaterIndex(cs, xs[0]);
      }
    }
  }

  /** One entry, split off the list. */
  lemma SplitOut(xs: seq<Pid>, c: Pid)
    requires Distinct(xs) && c in xs
    ensures var i := IndexOf(xs, c);
            xs == xs[..i] + [c] + xs[i + 1..] && c !in xs[..i] && c !in xs[i + 1..]
  {
  }

  lemma {:induction false} MinusMiddle(a: seq<Pid>, x: Pid, b: seq<Pid>)
    requires x !in a && x !in b
    ensures Minus(a + [x] + b, {x}) == a + b
    decreases |a|
  {
    if a == [] {
      assert [] + [x] + b == [x] + b && [] + b == b;
      assert ([x] + b)[1..] == b;
      MinusNothing(b, {x});
    } else {
      assert (a + [x] + b)[0] == a[0] && (a + [x] + b)[1..] == a[1..] + [x] + b;
      MinusMiddle(a[1..], x, b);
      assert [a[0]] + (a[1..] + b) == a + b;
    }
  }

  lemma IndexInMiddle(a: seq<Pid>, x: Pid, b: seq<Pid>)
    requires x !in a
    ensures IndexOf(a + [x] + b, x) == |a|
  {
    var xs := a + [x] + b;
    assert xs[|a|] == x;
    assert forall i | 0 <= i < |a| :: xs[i] == a[i];
    var i := IndexOf(xs, x);
    assert forall j | 0 <= j < i :: xs[j] in xs[..i];
  }

  /** A child that is down comes back in its own place; a running one is killed and comes back at the end. */
  lemma ListAfterMiddle(a: seq<Pid>, x: Pid, b: seq<Pid>, n: Pid)
    requires x !in a && x !in b
    ensures ListAfter(a + [x] + b, x, n, false) == a + [n] + b
    ensures ListAfter(a + [x] + b, x, n, true) == a + b + [n]
  {
    IndexInMiddle(a, x, b);
    assert (a + [x] + b)[|a|] == x;
    assert (a + [x] + b)[|a| := n] == a + [n] + b;
    MinusMiddle(a, x, b);
    assert x !in a + b;
  }

  lemma InPlaceThree(a: seq<Pid>, x: Pid, b: seq<Pid>, cs: seq<Pid>, n: Pid, down: set<Pid>)
    ensures InPlace(a + [x] + b, cs, n, down) == InPlace(a, cs, n, down) + InPlace([x], cs, n, down) + InPlace(b, cs, n, down)
  {
    InPlaceSplits(a + [x], b, cs, n, down);
    InPlaceSplits(a, [x], cs, n, down);
  }

  lemma InPlaceOne(x: Pid, cs: seq<Pid>, n: Pid, down: set<Pid>)
    ensures x !in cs ==> InPlace([x], cs, n, down) == [x]
    ensures x in cs && x in down ==> InPlace([x], cs, n, down) == [n + IndexOf(cs, x)]
    ensures x in cs && x !in down ==> InPlace([x], cs, n, down) == []
  {
    assert InPlace([x][1..], cs, n, down) == [];
  }

  /** The first restart of a round, seen from the list that the round leaves. */
  lemma InPlaceStep(xs: seq<Pid>, a: seq<Pid>, b: seq<Pid>, cs: seq<Pid>, n: Pid, down: set<Pid>)
    requires Distinct(cs) && cs != [] && xs == a + [cs[0]] + b && cs[0] !in a && cs[0] !in b && n !in cs
    ensures InPlace(ListAfter(xs, cs[0], n, cs[0] !in down), cs[1..], n + 1, down)
         == InPlace(xs, cs, n, down) + (if cs[0] in down then [] else [n])
  {
    hide InPlace, ListAfter, IndexOf;
    var c, rest := cs[0], cs[1..];
    ListAfterMiddle(a, c, b, n);
    FirstIndex(cs);
    InPlaceOne(c, cs, n, down);
    InPlaceOne(n, rest, n + 1, down);
    InPlaceWithout(a, cs, n, down);
    InPlaceWithout(b, cs, n, down);
    InPlaceThree(a, c, b, cs, n, down);
    if c in down {
      InPlaceThree(a, n, b, rest, n + 1, down);
    } else {
      InPlaceSplits(a + b, [n], rest, n + 1, down);
      InPlaceSplits(a, b, rest, n + 1, down);
      assert InPlace(a, cs, n, down) + [] + InPlace(b, cs, n, down) == InPlace(a, cs, n, down) + InPlace(b, cs, n, down);
    }
  }

  lemma FirstIndex(cs: seq<Pid>)
    requires cs != []
    ensures IndexOf(cs, cs[0]) == 0
  {
  }

  lemma {:induction false} RenumberedSame(cs: seq<Pid>, n: Pid, a: set<Pid>, b: set<Pid>)
    requires forall c | c in cs :: c in a <==> c in b
    ensures Renumbered(cs, n, a) == Renumbered(cs, n, b)
    decreases |cs|
  {
    if cs != [] {
      assert cs[0] in cs && forall c | c in cs[1..] :: c in cs;
      RenumberedSame(cs[1..], n + 1, a, b);
    }
  }

  lemma {:induction false} InPlaceNone(xs: seq<Pid>, n: Pid, down: set<Pid>)
    ensures InPlace(xs, [], n, down) == xs
    decreases |xs|
  {
    if xs != [] {
      InPlaceNone(xs[1..], n, down);
    }
  }

  lemma EmptyRound(xs: seq<Pid>, n: Pid, down: set<Pid>)
    ensures RebuiltList(xs, [], n, down) == xs
  {
    InPlaceNone(xs, n, down);
  }

  /** A round rebuilds the list: in place for who was down, at the end for who ran. */
  lemma {:induction false} ListAfterAllExact(xs: seq<Pid>, cs: seq<Pid>, n: Pid, down: set<Pid>)
    requires Distinct(xs) && Distinct(cs) && (forall c | c in cs :: c in xs) && forall x | x in xs :: x < n
    ensures ListAfterAll(xs, cs, n, down) == RebuiltList(xs, cs, n, down)
    decreases |cs|
  {
    hide ListAfter, InPlace, Running, Renumbered, IndexOf;
    if cs == [] {
      EmptyRound(xs, n, down);
    } else {
      var i := IndexOf(xs, cs[0]);
      NextList(xs, cs, n, down);
      SplitOut(xs, cs[0]);
      InPlaceStep(xs, xs[..i], xs[i + 1..], cs, n, down);
      ListAfterAllExact(ListAfter(xs, cs[0], n, cs[0] !in down), cs[1..], n + 1, down);
      RunningStep(cs, n, down);
    }
  }

  /** Who ran, from the first candidate on. */
  lemma RunningStep(cs: seq<Pid>, n: Pid, down: set<Pid>)
    requires cs != []
    ensures (if cs[0] in down then [] else [n]) + Renumbered(cs[1..], n + 1, Running(cs[1..], down))
         == Renumbered(cs, n, Running(cs, down))
  {
    assert cs[0] in cs && forall d | d in cs[1..] :: d in cs;
    RenumberedSame(cs[1..], n + 1, Running(cs, down), Running(cs[1..], down));
  }

  lemma NextList(xs: seq<Pid>, cs: seq<Pid>, n: Pid, down: set<Pid>)
    requires Distinct(xs) && Distinct(cs) && cs != [] && (forall c | c in cs :: c in xs) && forall x | x in xs :: x < n
    ensures var ys := ListAfter(xs, cs[0], n, cs[0] !in down);
            Distinct(ys) && (forall x | x in ys :: x < n + 1) && forall c | c in cs[1..] :: c in ys
    ensures Distinct(cs[1..]) && n !in cs && cs[0] in xs && cs[0] !in cs[1..]
  {
    var c, running := cs[0], cs[0] !in down;
    assert c in cs;
    MinusDistinct(xs, {c});
    MinusMember(xs, {c}, n);
    RenewedMember(if running then Minus(xs, {c}) else xs, c, n, n);
    hide ListAfter;
    forall x {
      ListAfterMember(xs, c, n, running, x);
    }
    assert forall d | d in cs[1..] :: d in cs;
  }

  /** The fresh PIDs for a list whose members all restart: first for those that were down, then for the others. */
  function DownFirst(cs: seq<Pid>, n: Pid, down: set<Pid>): seq<Pid> {
    Renumbered(cs, n, down) + Renumbered(cs, n, Running(cs, down))
  }

  lemma {:induction false} InPlaceAll(xs: seq<Pid>, cs: seq<Pid>, k: nat, n: Pid, down: set<Pid>)
    requires Distinct(cs) && k <= |cs| && xs == cs[k..]
    ensures InPlace(xs, cs, n, down) == Renumbered(xs, n + k, down)
    decreases |xs|
  {
    if xs != [] {
      assert xs[0] == cs[k] && IndexOf(cs, cs[k]) == k;
      InPlaceAll(xs[1..], cs, k + 1, n, down);
    }
  }

  lemma {:induction false} InPlaceOthers(xs: seq<Pid>, cs: seq<Pid>, n: Pid, down: set<Pid>)
    requires forall x | x in xs :: x !in cs
    ensures InPlace(xs, cs, n, down) == xs
    decreases |xs|
  {
    if xs != [] {
      assert xs[0] in xs && forall x | x in xs[1..] :: x in xs;
      InPlaceOthers(xs[1..], cs, n, down);
    }
  }

  /** When a whole suffix restarts, the list keeps what is before it. */
  lemma SuffixRebuilt(a: seq<Pid>, cs: seq<Pid>, n: Pid, down: set<Pid>)
    requires Distinct(cs) && forall c | c in a :: c !in cs
    ensures RebuiltList(a + cs, cs, n, down) == a + DownFirst(cs, n, down)
  {
    InPlaceSplits(a, cs, cs, n, down);
    InPlaceOthers(a, cs, n, down);
    InPlaceAll(cs, cs, 0, n, down);
  }

  /** No child that is down follows a running one. */
  predicate DownComeFirst(cs: seq<Pid>, down: set<Pid>) {
    forall i, j | 0 <= i < j < |cs| :: cs[j] in down ==> cs[i] in down
  }

  predicate AllRun(cs: seq<Pid>, down: set<Pid>) {
    forall c | c in cs :: c !in down
  }

  lemma {:induction false} RenumberedAbove(cs: seq<Pid>, n: Pid, chosen: set<Pid>)
    ensures forall p | p in Renumbered(cs, n, chosen) :: n <= p
    ensures (forall c | c in cs :: c in chosen) ==> Renumbered(cs, n, chosen) == Fresh(n, |cs|)
    ensures Renumbered(cs, n, chosen) == [] <==> forall c | c in cs :: c !in chosen
    decreases |cs|
  {
    if cs != [] {
      assert forall c | c in cs :: c == cs[0] || c in cs[1..];
      assert forall c | c in cs[1..] :: c in cs;
      RenumberedAbove(cs[1..], n + 1, chosen);
    }
  }

  lemma SameSuffix(a: seq<Pid>, b: seq<Pid>, c: seq<Pid>)
    ensures a + b == a + c <==> b == c
  {
    if a + b == a + c {
      assert (a + b)[|a|..] == b && (a + c)[|a|..] == c;
    }
  }

  /** The restarted children keep their order exactly when none that was down follows a running one. */
  lemma {:induction false} OrderKeptExactly(cs: seq<Pid>, n: Pid, down: set<Pid>)
    ensures DownFirst(cs, n, down) == Fresh(n, |cs|) <==> DownComeFirst(cs, down)
    decreases |cs|
  {
    hide DownFirst, DownComeFirst, RunningAhead, AllRun;
    if cs == [] {
      NothingOvertakes(n, down);
    } else {
      RestFirst(cs, n, down);
      if cs[0] in down {
        OrderKeptExactly(cs[1..], n + 1, down);
        DownHead(cs, down);
        SameSuffix([n], DownFirst(cs[1..], n + 1, down), Fresh(n + 1, |cs| - 1));
      } else {
        RunningHead(cs, down);
        RunningStarts(cs[1..], n, down);
      }
    }
  }

  lemma NothingOvertakes(n: Pid, down: set<Pid>)
    ensures DownFirst([], n, down) == [] && DownComeFirst([], down)
  {
  }

  /** The first candidate, and the others. */
  lemma RestFirst(cs: seq<Pid>, n: Pid, down: set<Pid>)
    requires cs != []
    ensures cs[0] in down ==> DownFirst(cs, n, down) == [n] + DownFirst(cs[1..], n + 1, down)
    ensures cs[0] !in down ==> DownFirst(cs, n, down) == RunningAhead(cs[1..], n, down)
  {
    hide Renumbered, Running;
    var a, b := Renumbered(cs[1..], n + 1, down), Renumbered(cs[1..], n + 1, Running(cs[1..], down));
    RunningStep(cs, n, down);
    RenumberedHead(cs, n, down);
    if cs[0] in down {
      assert ([n] + a) + ([] + b) == [n] + (a + b);
    } else {
      assert [] + a == a;
    }
  }

  lemma RenumberedHead(cs: seq<Pid>, n: Pid, chosen: set<Pid>)
    requires cs != []
    ensures Renumbered(cs, n, chosen) == (if cs[0] in chosen then [n] else []) + Renumbered(cs[1..], n + 1, chosen)
  {
  }

  /** The list for a running child with PID `n` and `rest`: who was down in `rest` comes first. */
  function RunningAhead(rest: seq<Pid>, n: Pid, down: set<Pid>): seq<Pid> {
    Renumbered(rest, n + 1, down) + ([n] + Renumbered(rest, n + 1, Running(rest, down)))
  }

  lemma RunningStarts(rest: seq<Pid>, n: Pid, down: set<Pid>)
    ensures RunningAhead(rest, n, down) == Fresh(n, 1 + |rest|) <==> AllRun(rest, down)
  {
    var d, r := Renumbered(rest, n + 1, down), Renumbered(rest, n + 1, Running(rest, down));
    RenumberedAbove(rest, n + 1, down);
    RenumberedAbove(rest, n + 1, Running(rest, down));
    if d != [] {
      assert (d + ([n] + r))[0] == d[0] && d[0] in d;
      assert Fresh(n, 1 + |rest|)[0] == n;
    } else {
      assert d + ([n] + r) == [n] + r;
    }
  }

  lemma DownHead(cs: seq<Pid>, down: set<Pid>)
    requires cs != [] && cs[0] in down
    ensures DownComeFirst(cs, down) <==> DownComeFirst(cs[1..], down)
  {
    if DownComeFirst(cs[1..], down) {
      forall i, j | 0 <= i < j < |cs| && cs[j] in down
        ensures cs[i] in down
      {
        if i > 0 {
          assert cs[1..][j - 1] == cs[j] && cs[1..][i - 1] == cs[i];
        }
      }
    }
  }

  lemma RunningHead(cs: seq<Pid>, down: set<Pid>)
    requires cs != [] && cs[0] !in down
    ensures DownComeFirst(cs, down) <==> AllRun(cs[1..], down)
  {
    if DownComeFirst(cs, down) {
      forall d | d in cs[1..]
        ensures d !in down
      {
        var j :| 0 <= j < |cs[1..]| && cs[1..][j] == d;
        assert cs[j + 1] == d;
      }
    } else {
      var i, j :| 0 <= i < j < |cs| && cs[j] in down && cs[i] !in down;
      assert cs[1..][j - 1] == cs[j];
    }
  }

  // ----- The three strategies -----

  /** The supervised child `f` has ended and been cleaned up. */
  predicate ChildDown(s: Reg, parent: Pid, f: Pid) {
    && Tidy(s) && IsLive(s, parent)
    && f in s.records && f in s.records[parent].children && !IsActive(s, f)
  }

  /** The listed children that do not run. */
  function Down(s: Reg, parent: Pid): set<Pid>
    requires parent in s.records
  {
    set c | c in s.records[parent].children && !IsActive(s, c)
  }

  /** Only the supervisor's restart history and count differ. */
  lemma SuperviseTidy(s: Reg, parent: Pid, f: Pid, checkedAt: real, recordedAt: real)
    requires ChildDown(s, parent, f) && Supervise(s, f, checkedAt, recordedAt).1.Restart?
    ensures var t := Supervise(s, f, checkedAt, recordedAt).0;
            && ChildDown(t, parent, f) && t.nextPid == s.nextPid && t.records.Keys == s.records.Keys
            && t.records[parent].children == s.records[parent].children && Down(t, parent) == Down(s, parent)
            && forall d | d in s.records && d != parent :: t.records[d] == s.records[d]
  {
    assert s.records[f].parent == Some(parent);
    var t := Supervise(s, f, checkedAt, recordedAt).0;
    assert SameLinks(s, t);
    SameOlder(s, t);
    SameListed(s, t);
    SameDistinct(s, t);
    SameActive(s, t);
    SameNames(s, t);
    assert forall p | p in s.records :: t.records[p].children == s.records[p].children;
  }

  /** Names, states and registrations are the same in both registries. */
  predicate SameNaming(s: Reg, t: Reg) {
    && t.records.Keys == s.records.Keys && t.byName == s.byName && t.mailboxes == s.mailboxes && t.tables == s.tables
    && forall p | p in s.records :: t.records[p].name == s.records[p].name && t.records[p].state == s.records[p].state
                                    && t.records[p].registered == s.records[p].registered
  }

  lemma SameNames(s: Reg, t: Reg)
    requires NamesTidy(s) && SameNaming(s, t)
    ensures NamesTidy(t)
  {
  }

  lemma SameActive(s: Reg, t: Reg)
    requires ActiveListed(s) && SameLinks(s, t) && SameNaming(s, t)
    ensures ActiveListed(t)
  {
    forall c {:trigger t.records[c].parent} | c in t.records && IsActive(t, c) && t.records[c].parent.Some?
      ensures IsActive(t, t.records[c].parent.value) && c in t.records[t.records[c].parent.value].children
    {
      assert s.records[c].parent == t.records[c].parent;
    }
  }

  /** The position of `f` splits the list. */
  function Before(xs: seq<Pid>, f: Pid): seq<Pid>
    requires f in xs
  {
    xs[..IndexOf(xs, f)]
  }

  function From(xs: seq<Pid>, f: Pid): seq<Pid>
    requires f in xs
  {
    xs[IndexOf(xs, f)..]
  }

  lemma SplitAt(xs: seq<Pid>, f: Pid)
    requires f in xs && Distinct(xs)
    ensures xs == Before(xs, f) + From(xs, f) && Distinct(From(xs, f)) && f !in Before(xs, f)
    ensures forall c | c in Before(xs, f) :: c in xs && c !in From(xs, f)
    ensures forall c | c in From(xs, f) :: c in xs
  {
  }

  // ----- Supervision of a terminal process -----

  lemma SuperviseOrdered(s: Reg, f: Pid, checkedAt: real, recordedAt: real)
    requires Ordered(s) && f in s.records
    ensures Ordered(Supervise(s, f, checkedAt, recordedAt).0)
  {
    MinusSubset(s);
  }

  /** What the supervisor of the terminal process `f` does: decide, then restart the candidates. */
  function Recover(s: Reg, f: Pid, checkedAt: real, recordedAt: real, load: Pid -> Option<Profile>): Round
    requires Ordered(s) && f in s.records
  {
    SuperviseOrdered(s, f, checkedAt, recordedAt);
    match Supervise(s, f, checkedAt, recordedAt)
    case (s1, Restart(cs)) => RestartAll(s1, (if s.records[f].parent.Some? then s.records[f].parent.value else 0), cs, load)
    case (s1, _) => Round(s1, [], false)
  }

  /**
    The outcome of a complete recovery that restarted `cs`: a rebuilt list whose fresh PIDs run
    the scripts of `cs`, and the other children as they were.
  */
  predicate Recovered(s: Reg, parent: Pid, cs: seq<Pid>, down: set<Pid>, u: Reg) {
    && Tidy(u) && parent in s.records && parent in u.records
    && u.records[parent].children == RebuiltList(s.records[parent].children, cs, s.nextPid, down)
    && SameScripts(s, cs, u)
    && Spares(s, parent, cs, u)
  }

  lemma RoundScriptsSame(s: Reg, t: Reg, parent: Pid, cs: seq<Pid>, u: Reg)
    requires t.nextPid == s.nextPid && t.records.Keys == s.records.Keys && parent !in cs
    requires forall d | d in s.records && d != parent :: t.records[d] == s.records[d]
    requires SameScripts(t, cs, u)
    ensures SameScripts(s, cs, u)
  {
    forall i | 0 <= i < |cs|
      ensures RunsAgain(s, cs[i], u, s.nextPid + i)
    {
      assert cs[i] in cs;
      assert RunsAgain(t, cs[i], u, t.nextPid + i);
    }
  }

  lemma RoundOf(s: Reg, t: Reg, parent: Pid, f: Pid, cs: seq<Pid>, load: Pid -> Option<Profile>)
    requires ChildDown(s, parent, f) && ChildDown(t, parent, f) && Down(t, parent) == Down(s, parent)
    requires t.nextPid == s.nextPid && t.records.Keys == s.records.Keys && t.records[parent].children == s.records[parent].children
    requires forall d | d in s.records && d != parent :: t.records[d] == s.records[d]
    requires Distinct(cs) && forall c | c in cs :: c in s.records[parent].children
    requires RestartAll(t, parent, cs, load).complete
    ensures Recovered(s, parent, cs, Down(s, parent), RestartAll(t, parent, cs, load).reg)
  {
    var xs, down := s.records[parent].children, Down(s, parent);
    ChildrenBelow(s, parent);
    assert forall c | c in xs :: parent < c;
    assert RoundReady(t, parent, cs, down);
    WholeRoundList(t, parent, cs, load, down);
    WholeRoundChildren(t, parent, cs, load, down);
    var u := RestartAll(t, parent, cs, load).reg;
    hide Tidy, RestartAll, ListAfterAll, RebuiltList;
    RebuildsList(xs, u.records[parent].children, cs, t.nextPid, down);
    ListAfterAllExact(xs, cs, t.nextPid, down);
    RoundScriptsSame(s, t, parent, cs, u);
  }

  lemma ChildrenBelow(s: Reg, parent: Pid)
    requires Tidy(s) && parent in s.records
    ensures Distinct(s.records[parent].children) && forall c | c in s.records[parent].children :: c in s.records && c < s.nextPid
  {
    forall c | c in s.records[parent].children
      ensures c in s.records && c < s.nextPid
    {
      assert s.records[c].parent == Some(parent);
    }
  }

  lemma ConsDistinct(x: Pid, xs: seq<Pid>)
    requires Distinct(xs) && x !in xs
    ensures Distinct([x] + xs)
  {
  }

  lemma {:induction false} CandidatesAmong(s: Reg, pids: seq<Pid>, abnormal: bool)
    requires Distinct(pids)
    ensures Distinct(Candidates(s, pids, abnormal)) && forall c | c in Candidates(s, pids, abnormal) :: c in pids
    decreases |pids|
  {
    if pids != [] {
      var rest := Candidates(s, pids[1..], abnormal);
      CandidatesAmong(s, pids[1..], abnormal);
      assert forall c | c in pids[1..] :: c in pids && c != pids[0];
      ConsDistinct(pids[0], rest);
    }
  }

  lemma AffectedAreChildren(p: Record, f: Pid)
    requires f in p.children && Distinct(p.children)
    ensures Distinct(Affected(p, f)) && forall c | c in Affected(p, f) :: c in p.children
  {
  }

  /**
    A complete recovery, under every strategy and whichever of the affected children may be
    restarted: those that were down are replaced in place, those that ran are killed and come
    back at the end of the list, all in the affected order and under consecutive fresh PIDs;
    the other children keep their places and their records.
  */
  lemma RecoveryRebuilds(s: Reg, parent: Pid, f: Pid, checkedAt: real, recordedAt: real, cs: seq<Pid>, load: Pid -> Option<Profile>)
    requires ChildDown(s, parent, f) && Supervise(s, f, checkedAt, recordedAt).1 == Restart(cs)
    requires Recover(s, f, checkedAt, recordedAt, load).complete
    ensures Recovered(s, parent, cs, Down(s, parent), Recover(s, f, checkedAt, recordedAt, load).reg)
  {
    var p := s.records[parent];
    ChildrenBelow(s, parent);
    AffectedAreChildren(p, f);
    CandidatesAmong(s, Affected(p, f), s.records[f].state.Crashed?);
    SuperviseTidy(s, parent, f, checkedAt, recordedAt);
    assert s.records[f].parent == Some(parent);
    hide Tidy, Affected, Candidates, Recovered, Down;
    RoundOf(s, Supervise(s, f, checkedAt, recordedAt).0, parent, f, cs, load);
  }

  /**
    `rest_for_one`: when every affected child may be restarted and is, the list keeps its part
    before the failed child, with those children untouched, and the rest is replaced by
    consecutive fresh PIDs that run the same scripts. They keep the order exactly when no child
    that was down follows a running one there.
  */
  lemma RestForOneRebuilds(s: Reg, parent: Pid, f: Pid, checkedAt: real, recordedAt: real, load: Pid -> Option<Profile>)
    requires ChildDown(s, parent, f) && s.records[parent].strategy == RestForOne
    requires Supervise(s, f, checkedAt, recordedAt).1 == Restart(From(s.records[parent].children, f))
    requires Recover(s, f, checkedAt, recordedAt, load).complete
    ensures var xs, u := s.records[parent].children, Recover(s, f, checkedAt, recordedAt, load).reg;
            && Tidy(u) && parent in u.records
            && u.records[parent].children == Before(xs, f) + DownFirst(From(xs, f), s.nextPid, Down(s, parent))
            && (u.records[parent].children == Before(xs, f) + Fresh(s.nextPid, |From(xs, f)|)
                <==> DownComeFirst(From(xs, f), Down(s, parent)))
            && SameScripts(s, From(xs, f), u)
            && forall d | d in Before(xs, f) :: d in s.records && d in u.records && u.records[d] == s.records[d]
  {
    var xs, n, down := s.records[parent].children, s.nextPid, Down(s, parent);
    ChildrenBelow(s, parent);
    RecoveryRebuilds(s, parent, f, checkedAt, recordedAt, From(xs, f), load);
    hide Tidy, Recover, Supervise, SameScripts, DownFirst, DownComeFirst, RebuiltList, Down;
    SplitAt(xs, f);
    SuffixRebuilt(Before(xs, f), From(xs, f), n, down);
    OrderKeptExactly(From(xs, f), n, down);
    SameSuffix(Before(xs, f), DownFirst(From(xs, f), n, down), Fresh(n, |From(xs, f)|));
  }

  /**
    `one_for_all`: when every child may be restarted and is, the list consists of fresh PIDs
    that run the same scripts. First come those that were down, in order, then the others; so
    the order is kept exactly when no child that was down follows a running one.
  */
  lemma OneForAllRebuilds(s: Reg, parent: Pid, f: Pid, checkedAt: real, recordedAt: real, load: Pid -> Option<Profile>)
    requires ChildDown(s, parent, f) && s.records[parent].strategy == OneForAll
    requires Supervise(s, f, checkedAt, recordedAt).1 == Restart(s.records[parent].children)
    requires Recover(s, f, checkedAt, recordedAt, load).complete
    ensures var xs, u := s.records[parent].children, Recover(s, f, checkedAt, recordedAt, load).reg;
            && Tidy(u) && parent in u.records
            && u.records[parent].children == DownFirst(xs, s.nextPid, Down(s, parent))
            && (u.records[parent].children == Fresh(s.nextPid, |xs|) <==> DownComeFirst(xs, Down(s, parent)))
            && SameScripts(s, xs, u)
  {
    var xs, n, down := s.records[parent].children, s.nextPid, Down(s, parent);
    ChildrenBelow(s, parent);
    RecoveryRebuilds(s, parent, f, checkedAt, recordedAt, xs, load);
    hide Tidy, Recover, Supervise, SameScripts, DownFirst, DownComeFirst, RebuiltList, Down;
    SuffixRebuilt([], xs, n, down);
    assert [] + xs == xs && [] + DownFirst(xs, n, down) == DownFirst(xs, n, down);
    OrderKeptExactly(xs, n, down);
  }

  /** `one_for_one`: the failed child comes back in its own place, and no sibling changes. */
  lemma OneForOneRebuilds(s: Reg, parent: Pid, f: Pid, checkedAt: real, recordedAt: real, load: Pid -> Option<Profile>)
    requires ChildDown(s, parent, f) && s.records[parent].strategy == OneForOne
    requires Supervise(s, f, checkedAt, recordedAt).1.Restart?
    requires Recover(s, f, checkedAt, recordedAt, load).complete
    ensures var xs, u := s.records[parent].children, Recover(s, f, checkedAt, recordedAt, load).reg;
            && Tidy(u) && parent in u.records
            && u.records[parent].children == xs[IndexOf(xs, f) := s.nextPid]
            && SameScripts(s, [f], u)
            && forall d | d in xs && d != f :: d in s.records && d in u.records && u.records[d] == s.records[d]
  {
    var xs, n, down := s.records[parent].children, s.nextPid, Down(s, parent);
    OnlyCandidate(s, f, s.records[f].state.Crashed?);
    ChildrenBelow(s, parent);
    assert s.records[f].parent == Some(parent) && f in down;
    RecoveryRebuilds(s, parent, f, checkedAt, recordedAt, [f], load);
    hide Tidy, Recover, Supervise, RebuiltList, Down, SameScripts, ListAfter;
    ListAfterAllExact(xs, [f], n, down);
    OneInPlace(xs, f, n, down);
  }

  lemma OneInPlace(xs: seq<Pid>, f: Pid, n: Pid, down: set<Pid>)
    requires f in xs && f in down
    ensures ListAfterAll(xs, [f], n, down) == xs[IndexOf(xs, f) := n]
  {
    assert ListAfterAll(xs, [f], n, down) == ListAfterAll(ListAfter(xs, f, n, false), [], n + 1, down);
  }

  lemma OnlyCandidate(s: Reg, f: Pid, abnormal: bool)
    ensures Candidates(s, [f], abnormal) == [] || Candidates(s, [f], abnormal) == [f]
  {
    assert Candidates(s, [f][1..], abnormal) == [];
  }
}

/**
  What a supervisor decides about a process that has ended, in terms of the records alone: who
  is restarted, when the budget forbids it, and what is written down. Likewise what a startup
  demands and what the new record holds.
*/
module RegistryVerdict {
  import opened Common
  import opened Registry
  import opened RegistryKill
  import opened RegistryRestart
  import opened RegistryCrash

  // ----- Who is restarted -----

  /** The strategy of `p` covers the child at place `i` when the child `f` has ended. */
  predicate Covers(p: Record, f: Pid, i: nat)
    requires i < |p.children|
  {
    match p.strategy
    case OneForOne => p.children[i] == f
    case OneForAll => true
    case RestForOne => exists j | 0 <= j <= i :: p.children[j] == f
  }

  /** A permanent child is always restarted, a transient one after a crash, a temporary one never. */
  predicate ComesBack(policy: RestartPolicy, crashed: bool) {
    match policy
    case Permanent => true
    case Transient => crashed
    case Temporary => false
  }

  /** The strategy restarts the child `c` when `f` has ended. */
  predicate Covered(p: Record, f: Pid, c: Pid) {
    exists i | 0 <= i < |p.children| :: p.children[i] == c && Covers(p, f, i)
  }

  /** The members of `cs` appear in `xs` in that order. */
  predicate InOrder(xs: seq<Pid>, cs: seq<Pid>) {
    forall i, j, a, b | 0 <= i < j < |cs| && 0 <= a < |xs| && 0 <= b < |xs| && xs[a] == cs[i] && xs[b] == cs[j] :: a < b
  }

  /**
    `cs` are the children of `p` to restart after `f` has ended: those that the strategy covers
    and whose policy allows it, in the order of the list. A process that is not listed stands alone.
  */
  ghost predicate Chosen(s: Reg, p: Record, f: Pid, crashed: bool, cs: seq<Pid>) {
    if f in p.children then
      && (forall c :: c in cs <==> Covered(p, f, c) && c in s.records && ComesBack(s.records[c].policy, crashed))
      && (Distinct(p.children) ==> InOrder(p.children, cs))
    else
      cs == if f in s.records && ComesBack(s.records[f].policy, crashed) then [f] else []
  }

  lemma {:induction false} CandidatesMembers(s: Reg, pids: seq<Pid>, crashed: bool)
    ensures forall c :: c in Candidates(s, pids, crashed) <==> c in pids && c in s.records && ComesBack(s.records[c].policy, crashed)
    decreases |pids|
  {
    if pids != [] {
      CandidatesMembers(s, pids[1..], crashed);
    }
  }

  lemma {:induction false} CandidatesInOrder(s: Reg, pids: seq<Pid>, crashed: bool)
    requires Distinct(pids)
    ensures InOrder(pids, Candidates(s, pids, crashed))
    decreases |pids|
  {
    if pids != [] {
      var rest, cs := Candidates(s, pids[1..], crashed), Candidates(s, pids, crashed);
      CandidatesInOrder(s, pids[1..], crashed);
      CandidatesMembers(s, pids[1..], crashed);
      forall i, j, a, b | 0 <= i < j < |cs| && 0 <= a < |pids| && 0 <= b < |pids| && pids[a] == cs[i] && pids[b] == cs[j]
        ensures a < b
      {
        var shift := |cs| - |rest|;
        assert cs[j] == rest[j - shift] && rest[j - shift] in pids[1..];
        assert b != 0;
        if a != 0 {
          assert pids[1..][a - 1] == pids[a] && pids[1..][b - 1] == pids[b];
          assert i >= shift ==> cs[i] == rest[i - shift];
        }
      }
    }
  }

  lemma InOrderOfSuffix(xs: seq<Pid>, k: nat, cs: seq<Pid>)
    requires k <= |xs| && Distinct(xs) && InOrder(xs[k..], cs) && forall c | c in cs :: c in xs[k..]
    ensures InOrder(xs, cs)
  {
    forall i, j, a, b | 0 <= i < j < |cs| && 0 <= a < |xs| && 0 <= b < |xs| && xs[a] == cs[i] && xs[b] == cs[j]
      ensures a < b
    {
      assert cs[i] in xs[k..] && cs[j] in xs[k..];
      var a' :| 0 <= a' < |xs[k..]| && xs[k..][a'] == cs[i];
      var b' :| 0 <= b' < |xs[k..]| && xs[k..][b'] == cs[j];
      assert xs[k + a'] == xs[a] && xs[k + b'] == xs[b];
      assert a' < b';
    }
  }

  lemma AffectedMembers(p: Record, f: Pid, c: Pid)
    requires f in p.children
    ensures c in Affected(p, f) <==> Covered(p, f, c)
  {
    var k := IndexOf(p.children, f);
    if p.strategy.RestForOne? {
      if c in p.children[k..] {
        var i :| 0 <= i < |p.children[k..]| && p.children[k..][i] == c;
        assert p.children[k + i] == c && Covers(p, f, k + i);
      }
      forall i | 0 <= i < |p.children| && p.children[i] == c && Covers(p, f, i)
        ensures c in p.children[k..]
      {
        var j :| 0 <= j <= i && p.children[j] == f;
        assert forall m | 0 <= m < k :: p.children[m] == p.children[..k][m] != f;
        assert p.children[k..][i - k] == c;
      }
    }
  }

  lemma CandidatesChosen(s: Reg, p: Record, f: Pid, crashed: bool)
    ensures Chosen(s, p, f, crashed, Candidates(s, Affected(p, f), crashed))
  {
    var cs := Candidates(s, Affected(p, f), crashed);
    CandidatesMembers(s, Affected(p, f), crashed);
    if f in p.children {
      forall c
        ensures c in cs <==> Covered(p, f, c) && c in s.records && ComesBack(s.records[c].policy, crashed)
      {
        AffectedMembers(p, f, c);
      }
      if Distinct(p.children) {
        CandidatesInOrder(s, Affected(p, f), crashed);
        match p.strategy
        case OneForAll =>
        case RestForOne => InOrderOfSuffix(p.children, IndexOf(p.children, f), cs);
        case OneForOne => assert |cs| <= 1;
      }
    } else {
      assert Affected(p, f) == [f] && [f][1..] == [];
    }
  }

  // ----- Whether the budget allows it -----

  /** The places in the restart history whose attempts lie within the window. */
  function RecentPlaces(p: Record, now: real): set<nat> {
    set i: nat | i < |p.history| && now - p.history[i] <= p.window
  }

  /** `kept` are the entries of `history` within the window, as often as they occur. */
  ghost predicate KeepsWindow(history: seq<real>, window: real, now: real, kept: seq<real>) {
    forall x :: multiset(kept)[x] == if now - x <= window then multiset(history)[x] else 0
  }

  lemma {:induction false} RecentKeeps(history: seq<real>, window: real, now: real)
    ensures KeepsWindow(history, window, now, Recent(history, window, now))
    decreases |history|
  {
    if history != [] {
      RecentKeeps(history[1..], window, now);
      assert history == [history[0]] + history[1..];
    }
  }

  lemma {:induction false} RecentCounted(p: Record, now: real)
    ensures |Recent(p.history, p.window, now)| == |RecentPlaces(p, now)|
    decreases |p.history|
  {
    if p.history == [] {
      assert RecentPlaces(p, now) == {};
    } else {
      var q := p.(history := p.history[1..]);
      RecentCounted(q, now);
      PlacesGrow(p, q, now);
    }
  }

  lemma PlacesGrow(p: Record, q: Record, now: real)
    requires p.history != [] && q == p.(history := p.history[1..])
    ensures |RecentPlaces(p, now)| == |RecentPlaces(q, now)| + if now - p.history[0] <= p.window then 1 else 0
  {
    var head: set<nat> := if now - p.history[0] <= p.window then {0} else {};
    var moved := Successors(RecentPlaces(q, now));
    SuccessorsCount(RecentPlaces(q, now));
    SuccessorsMembers(RecentPlaces(q, now));
    forall i: nat
      ensures i in RecentPlaces(p, now) <==> i in head + moved
    {
      if i > 0 {
        assert i < |p.history| ==> q.history[i - 1] == p.history[i];
        assert i in moved <==> i - 1 in RecentPlaces(q, now);
      }
    }
    assert RecentPlaces(p, now) == head + moved && head !! moved;
  }

  function Successors(xs: set<nat>): set<nat> {
    set i | i in xs :: i + 1
  }

  lemma SuccessorsMembers(xs: set<nat>)
    ensures forall y: nat :: y in Successors(xs) <==> y > 0 && y - 1 in xs
  {
    forall y: nat | y > 0 && y - 1 in xs
      ensures y in Successors(xs)
    {
      assert (y - 1) + 1 == y;
    }
  }

  lemma {:induction false} SuccessorsCount(xs: set<nat>)
    ensures |Successors(xs)| == |xs|
    decreases |xs|
  {
    if xs == {} {
      assert Successors(xs) == {};
    } else {
      var x :| x in xs;
      SuccessorsCount(xs - {x});
      SuccessorsMembers(xs);
      SuccessorsMembers(xs - {x});
      assert Successors(xs) == Successors(xs - {x}) + {x + 1};
    }
  }

  // ----- The verdict -----

  /** Process `f` is no longer in its supervisor's list, which is otherwise `p`, and has no parent. */
  predicate Detached(s: Reg, t: Reg, parent: Pid, f: Pid, p: Record) {
    && f in s.records && parent in t.records && f != parent
    && t.records[parent] == p.(children := t.records[parent].children) && f !in t.records[parent].children
    && (forall c | c in p.children && c != f :: c in t.records[parent].children)
    && t == s.(records := s.records[parent := t.records[parent]][f := s.records[f].(parent := None)])
  }

  /**
    The verdict on a process that has ended, in all cases. Without a live supervisor nothing
    happens. Otherwise the chosen children are restarted when there are any and their number
    and the attempts within the window do not exceed the limit; the attempts are then recorded
    at the time of the decision, and older ones forgotten. If not, the process leaves the list,
    and when it was the budget that forbade it the supervisor is escalated.
  */
  lemma VerdictExactly(s: Reg, f: Pid, checkedAt: real, recordedAt: real) returns (cs: seq<Pid>, kept: seq<real>)
    requires f in s.records && (s.records[f].parent.Some? ==> s.records[f].parent.value != f)
    ensures var (t, verdict) := Supervise(s, f, checkedAt, recordedAt);
            if s.records[f].parent.None? || s.records[f].parent.value !in s.records ||
               (s.records[s.records[f].parent.value].state != Starting && s.records[s.records[f].parent.value].state != Running)
            then verdict == NoSupervisor && t == s
            else
              var parent := s.records[f].parent.value;
              var p := s.records[parent];
              && Chosen(s, p, f, s.records[f].state == Crashed, cs)
              && KeepsWindow(p.history, p.window, checkedAt, kept) && |kept| == |RecentPlaces(p, checkedAt)|
              && (verdict == NothingToRestart <==> cs == [])
              && (verdict == Restart(cs) <==> cs != [] && |cs| + |RecentPlaces(p, checkedAt)| <= p.maxRestarts)
              && (verdict == Escalated <==> cs != [] && |cs| + |RecentPlaces(p, checkedAt)| > p.maxRestarts)
              && (verdict == NothingToRestart ==> Detached(s, t, parent, f, p))
              && (verdict == Escalated ==> Detached(s, t, parent, f, p.(history := kept, escalated := true)))
              && (verdict == Restart(cs) ==>
                    t == s.(records := s.records[parent := p.(history := kept + seq(|cs|, _ => recordedAt), restartCount := p.restartCount + |cs|)]))
  {
    hide Affected, Candidates, Recent, Unlink, Chosen, KeepsWindow, RecentPlaces, Detached;
    cs, kept := [], [];
    var r := s.records[f];
    if r.parent.Some? && r.parent.value in s.records {
      var p := s.records[r.parent.value];
      assert s.records[r.parent.value := p] == s.records;
      var affected := Affected(p, f);
      cs, kept := Candidates(s, affected, r.state.Crashed?), Recent(p.history, p.window, checkedAt);
      CandidatesChosen(s, p, f, r.state == Crashed);
      RecentKeeps(p.history, p.window, checkedAt);
      RecentCounted(p, checkedAt);
      AffectsItself(p, f);
      UnlinkDetaches(s, r.parent.value, f, p);
      UnlinkDetaches(s, r.parent.value, f, p.(history := kept, escalated := true));
    }
  }

  lemma AffectsItself(p: Record, f: Pid)
    ensures f in Affected(p, f)
  {
    if f in p.children {
      var k := IndexOf(p.children, f);
      assert p.children[k..][0] == f;
    }
  }

  lemma UnlinkDetaches(s: Reg, parent: Pid, f: Pid, p: Record)
    requires f in s.records && s.records[f].parent == Some(parent) && parent in s.records && parent != f
    ensures Detached(s, Unlink(Put(s, parent, p), f), parent, f, p)
  {
    MinusMembers(p.children, f);
    var s1 := Put(s, parent, p);
    assert s1.records[f] == s.records[f];
  }

  lemma {:induction false} MinusMembers(xs: seq<Pid>, f: Pid)
    ensures forall c :: c in Minus(xs, {f}) <==> c in xs && c != f
    decreases |xs|
  {
    if xs != [] {
      MinusMembers(xs[1..], f);
    }
  }

  /** The chosen children depend only on the policies of the listed ones. */
  lemma SameChosen(s: Reg, t: Reg, p: Record, f: Pid, crashed: bool, cs: seq<Pid>)
    requires f in p.children && forall c | c in p.children :: c in s.records && c in t.records && s.records[c].policy == t.records[c].policy
    ensures Chosen(s, p, f, crashed, cs) <==> Chosen(t, p, f, crashed, cs)
  {
    forall c
      ensures Covered(p, f, c) ==> c in p.children
    {
    }
  }

  /**
    From the moment a supervised process ends: after its own children are gone, its supervisor
    restarts exactly the chosen children, read off the registry before the end, if the budget
    allows that many; after a crash and after an exit that differs only for transient ones.
  */
  lemma FallVerdictExactly(s: Reg, parent: Pid, f: Pid, state: ProcessState, checkedAt: real, recordedAt: real) returns (cs: seq<Pid>)
    requires Supervised(s, parent, f) && (state == Crashed || state == Exited)
    ensures var p := s.records[parent];
            && f in AfterFall(s, f, state).records
            && Chosen(s, p, f, state == Crashed, cs)
            && (Supervise(AfterFall(s, f, state), f, checkedAt, recordedAt).1 == Restart(cs) <==>
                  cs != [] && |cs| + |RecentPlaces(p, checkedAt)| <= p.maxRestarts)
            && (Supervise(AfterFall(s, f, state), f, checkedAt, recordedAt).1 == NothingToRestart <==> cs == [])
  {
    hide Supervise, Chosen, AfterFall, RecentPlaces, LinksTidy, NamesTidy, Ordered, KeepsWindow, Detached;
    var t := AfterFall(s, f, state);
    FallLeavesChildDown(s, parent, f, state);
    ListedParent(t, parent, f);
    assert s.records[parent].state.Live();
    NotItself(t, parent, f);
    var kept;
    cs, kept := VerdictExactly(t, f, checkedAt, recordedAt);
    forall c | c in s.records[parent].children
      ensures c in s.records && c in t.records && s.records[c].policy == t.records[c].policy
    {
    }
    SameChosen(s, t, s.records[parent], f, state == Crashed, cs);
  }

  /**
    A crash that is recovered from, in full: if the chosen children fit the budget and every
    restart succeeds, exactly these run their scripts again, under fresh PIDs; the crashed one
    and others that were down in their places, those that ran at the end; and the other children
    stay as they were.
  */
  lemma CrashRestartsChosen(s: Reg, parent: Pid, f: Pid, checkedAt: real, recordedAt: real, load: Pid -> Option<Profile>) returns (cs: seq<Pid>)
    requires Supervised(s, parent, f) && Ordered(Fallen(s, f, Crashed))
    requires HandleTerminal(Fallen(s, f, Crashed), f, checkedAt, recordedAt, load).complete
    ensures var p, u := s.records[parent], HandleTerminal(Fallen(s, f, Crashed), f, checkedAt, recordedAt, load).reg;
            && Chosen(s, p, f, true, cs) && cs != [] && |cs| + |RecentPlaces(p, checkedAt)| <= p.maxRestarts
            && Tidy(u) && parent in u.records
            && u.records[parent].children == RebuiltList(p.children, cs, s.nextPid, Down(s, parent) + {f})
            && SameScripts(s, cs, u)
            && forall d | d in p.children && d !in cs && d != f :: d in s.records && d in u.records && u.records[d] == s.records[d]
  {
    hide Fallen, TerminateChildren, LinksTidy, NamesTidy, Ordered, Supervise, RestartAll, RebuiltList, Down, SameScripts, Chosen, RecentPlaces, AfterFall;
    var chosen := FallVerdictExactly(s, parent, f, Crashed, checkedAt, recordedAt);
    cs := ToRestart(s, parent, f);
    CandidatesChosen(s, s.records[parent], f, true);
    RestartsWhenComplete(s, f, checkedAt, recordedAt, load);
    RecentCounted(s.records[parent], checkedAt);
    VerdictIsToRestart(s, parent, f, checkedAt, recordedAt);
    CrashRebuilds(s, parent, f, checkedAt, recordedAt, load);
  }

  lemma RestartsWhenComplete(s: Reg, f: Pid, checkedAt: real, recordedAt: real, load: Pid -> Option<Profile>)
    requires Ordered(s) && f in s.records && Ordered(Fallen(s, f, Crashed))
    requires HandleTerminal(Fallen(s, f, Crashed), f, checkedAt, recordedAt, load).complete
    ensures f in AfterFall(s, f, Crashed).records && Supervise(AfterFall(s, f, Crashed), f, checkedAt, recordedAt).1.Restart?
  {
    hide Supervise, RestartAll, Ordered, Fallen, TerminateChildren;
    FallenOrdered(s, f, Crashed);
    TerminateOrdered(Fallen(s, f, Crashed), f);
  }

  /** The verdict after a crash restarts what the registry before it says, and only within the budget. */
  lemma VerdictIsToRestart(s: Reg, parent: Pid, f: Pid, checkedAt: real, recordedAt: real)
    requires Supervised(s, parent, f) && f in AfterFall(s, f, Crashed).records
    requires Supervise(AfterFall(s, f, Crashed), f, checkedAt, recordedAt).1.Restart?
    ensures ToRestart(s, parent, f) != []
    ensures WithinBudget(Prune(s.records[parent], checkedAt), |ToRestart(s, parent, f)|)
  {
    hide AfterFall, LinksTidy, NamesTidy, Ordered, Affected, Candidates, Recent;
    var t, p := AfterFall(s, f, Crashed), s.records[parent];
    FallLeavesChildDown(s, parent, f, Crashed);
    ListedParent(t, parent, f);
    NotItself(t, parent, f);
    AffectedListed(p, f);
    SameCandidates(s, t, Affected(p, f), true);
  }

  lemma AffectedListed(p: Record, f: Pid)
    requires f in p.children
    ensures forall c | c in Affected(p, f) :: c in p.children
  {
    forall c { AffectedMembers(p, f, c); }
  }

  lemma NotItself(t: Reg, parent: Pid, f: Pid)
    requires Ordered(t) && parent in t.records && f in t.records[parent].children
    ensures f != parent
  {
  }

  // ----- What a startup demands and writes down -----

  /** The parent of a new process, if it has one, is starting or running. */
  predicate Adoptable(s: Reg, parent: Option<Pid>) {
    parent.Some? ==> parent.value in s.records && (s.records[parent.value].state == Starting || s.records[parent.value].state == Running)
  }

  /**
    `pid` is a new process of the script: with the settings that the script declares, the given
    policy, no children and a clean restart history; known by its name to the registry, the bus
    and the memory manager, and last in its parent's list.
  */
  predicate Joins(s: Reg, t: Reg, pid: Pid, script: string, parent: Option<Pid>, policy: RestartPolicy, profile: Profile, state: ProcessState) {
    && t.byName == s.byName[profile.name := pid] && t.mailboxes == s.mailboxes + {profile.name} && t.tables == s.tables + {profile.name}
    && t.records.Keys == s.records.Keys + {pid}
    && t.records[pid] == Record(profile.name, script, state, parent, [], true, policy, profile.strategy,
                                profile.maxRestarts, profile.window, 0, [], false)
    && forall q | q in s.records ::
         t.records[q] == if parent == Some(q) then s.records[q].(children := s.records[q].children + [pid]) else s.records[q]
  }

  /** A PID that nobody knows. */
  predicate Unknown(s: Reg, pid: Pid) {
    pid !in s.records && forall q | q in s.records :: pid !in s.records[q].children
  }

  lemma EnrollJoins(s: Reg, pid: Pid, script: string, parent: Option<Pid>, policy: RestartPolicy, profile: Profile, state: ProcessState)
    requires Unknown(s, pid) && Adoptable(s, parent)
    ensures var (t, ok) := Enroll(s, pid, script, parent, policy, profile, state);
            && (ok <==> profile.name !in s.mailboxes && (profile.fault == NoFault || profile.fault == SettingsFault))
            && (ok ==> t.nextPid == s.nextPid && Joins(s, t, pid, script, parent, policy, profile, state))
  {
  }

  /**
    A start in this process succeeds exactly when the script loads with valid settings, its
    parent is starting or running, its name is free in the registry and on the bus, and no
    registration fails; the errors come in this order.
  */
  lemma StartExactly(s: Reg, script: string, parent: Option<Pid>, policy: RestartPolicy, profile: Profile)
    requires Unknown(s, s.nextPid)
    ensures var (t, result) := Start(s, script, parent, policy, profile);
            && result == (if profile.fault == SettingsFault then Err(LoadFailed)
                          else if !Adoptable(s, parent) then Err(ParentNotRunning)
                          else if profile.name in s.byName then Err(NameTaken)
                          else if profile.name in s.mailboxes || profile.fault != NoFault then Err(RegistrationFailed)
                          else Ok(s.nextPid))
            && (result.Ok? ==> t.nextPid == s.nextPid + 1 && Joins(s, t, s.nextPid, script, parent, policy, profile, Starting))
  {
    hide Enroll, Rollback, Joins;
    assert ParentRunning(s, parent) <==> Adoptable(s, parent);
    var s1 := s.(nextPid := s.nextPid + 1);
    if profile.fault != SettingsFault && Adoptable(s, parent) {
      EnrollJoins(s1, s.nextPid, script, parent, policy, profile, Starting);
      SameJoins(s, s1, Start(s, script, parent, policy, profile).0, s.nextPid, script, parent, policy, profile, Starting);
    }
  }

  lemma SameJoins(s: Reg, s1: Reg, t: Reg, pid: Pid, script: string, parent: Option<Pid>, policy: RestartPolicy, profile: Profile, state: ProcessState)
    requires s1 == s.(nextPid := s1.nextPid)
    ensures Joins(s, t, pid, script, parent, policy, profile, state) <==> Joins(s1, t, pid, script, parent, policy, profile, state)
  {
  }

  /** The section of an isolated startup, likewise; the process runs already. */
  lemma ReadyExactly(s: Reg, pid: Pid, script: string, parent: Option<Pid>, policy: RestartPolicy, profile: Profile)
    requires Unknown(s, pid)
    ensures var (t, ready) := ReadySection(s, pid, script, parent, policy, profile);
            && (ready.Joined? <==> Adoptable(s, parent) && profile.name !in s.byName && profile.name !in s.mailboxes && profile.fault == NoFault)
            && (ready.Joined? ==> t.nextPid == s.nextPid && Joins(s, t, pid, script, parent, policy, profile, Running))
            && (ready.FailsAs? ==> ready.name == if Adoptable(s, parent) && profile.name !in s.byName then profile.name else Placeholder(pid))
  {
    hide Enroll, Joins, Placeholder;
    assert ParentRunning(s, parent) <==> Adoptable(s, parent);
    if Adoptable(s, parent) {
      EnrollJoins(s, pid, script, parent, policy, profile, Running);
    }
  }

  /**
    An isolated child that crashes while it starts: under a live parent it is recorded as a
    crashed child, last in the list, so that its supervisor can act.
  */
  lemma StartupCrashIsSupervised(s: Reg, pid: Pid, script: string, parent: Pid, policy: RestartPolicy)
    requires Unknown(s, pid) && Adoptable(s, Some(parent))
    ensures var t := IsolatedCrashed(s, pid, script, Some(parent), policy);
            && t.byName == s.byName && t.mailboxes == s.mailboxes && t.tables == s.tables && t.nextPid == s.nextPid
            && t.records.Keys == s.records.Keys + {pid}
            && t.records[pid].state == Crashed && t.records[pid].parent == Some(parent) && t.records[pid].children == []
            && t.records[pid].script == script && t.records[pid].policy == policy && !t.records[pid].registered
            && forall q | q in s.records ::
                 t.records[q] == if q == parent then s.records[q].(children := s.records[q].children + [pid]) else s.records[q]
  {
    hide Decimal;
  }

  /**
    A restarted child: its script and policy, the settings its script now declares, its
    supervisor as parent, and one restart more than the child it replaces.
  */
  lemma RestartedRecord(s: Reg, parent: Pid, child: Pid, profile: Profile)
    requires child in s.records && Unknown(s, s.nextPid) && RestartChild(s, parent, child, Some(profile)).1.Ok?
    ensures var (t, result) := RestartChild(s, parent, child, Some(profile));
            && result == Ok(s.nextPid) && s.nextPid in t.records
            && t.records[s.nextPid] == Record(profile.name, s.records[child].script, Starting, Some(parent), [], true, s.records[child].policy,
                                              profile.strategy, profile.maxRestarts, profile.window, s.records[child].restartCount + 1, [], false)
  {
    hide Start, Joins, Replace, Unknown;
    var c := s.records[child];
    StartExactly(s, c.script, Some(parent), c.policy, profile);
    JoinsRecord(s, Start(s, c.script, Some(parent), c.policy, profile).0, s.nextPid, c.script, Some(parent), c.policy, profile, Starting);
    assert parent != s.nextPid by { UnknownIsNew(s, parent); }
  }

  lemma UnknownIsNew(s: Reg, parent: Pid)
    requires Unknown(s, s.nextPid) && Adoptable(s, Some(parent))
    ensures parent != s.nextPid
  {
  }

  lemma JoinsRecord(s: Reg, t: Reg, pid: Pid, script: string, parent: Option<Pid>, policy: RestartPolicy, profile: Profile, state: ProcessState)
    requires Joins(s, t, pid, script, parent, policy, profile, state)
    ensures pid in t.records && t.records[pid] == Record(profile.name, script, state, parent, [], true, policy, profile.strategy,
                                                         profile.maxRestarts, profile.window, 0, [], false)
  {
  }

  /** A restart that fails under a live supervisor escalates it. */
  lemma FailedRestartEscalates(s: Reg, parent: Pid, c: Pid, profile: Option<Profile>)
    requires Ordered(s) && IsLive(s, parent) && c in s.records && s.records[c].parent == Some(parent)
    requires IsLive(Kill(s, c), parent) && RestartChild(Kill(s, c), parent, c, profile).1.Err?
    ensures RestartNext(s, parent, c, profile).1.None?
    ensures parent in RestartNext(s, parent, c, profile).0.records && RestartNext(s, parent, c, profile).0.records[parent].escalated
  {
    hide Ordered, Kill, RestartChild;
    NextEscalates(s, Kill(s, c), parent, c, profile);
  }

  lemma NextEscalates(s: Reg, s1: Reg, parent: Pid, c: Pid, profile: Option<Profile>)
    requires Ordered(s) && IsLive(s, parent) && c in s.records && s.records[c].parent == Some(parent)
    requires s1 == Kill(s, c) && IsLive(s1, parent) && RestartChild(s1, parent, c, profile).1.Err?
    ensures RestartNext(s, parent, c, profile).1.None?
    ensures parent in RestartNext(s, parent, c, profile).0.records && RestartNext(s, parent, c, profile).0.records[parent].escalated
  {
    hide Kill;
    FailedRestartKeeps(s1, parent, c, profile);
  }

  lemma FailedRestartKeeps(s: Reg, parent: Pid, c: Pid, profile: Option<Profile>)
    requires Ordered(s) && parent in s.records && c in s.records && RestartChild(s, parent, c, profile).1.Err?
    ensures parent in RestartChild(s, parent, c, profile).0.records
  {
    hide Link, Relink;
  }
}

/**
  Whole runs of the registry: what holds in every reachable state, and what two operations
  that the model keeps apart would break.
*/
module RegistryRuns {
  import opened Common
  import opened Registry
  import opened RegistryKill
  import opened RestartBudget
  import opened RegistrySystem
  import opened RegistryInvariant

  /** `steps` lead from `y` to `z`, each enabled where it is taken. */
  ghost predicate Reaches(y: Sys, steps: seq<Step>, z: Sys)
    decreases |steps|
  {
    if steps == [] then z == y
    else Consistent(y) && Enabled(y, steps[0]) && Reaches(Apply(y, steps[0]), steps[1..], z)
  }

  lemma {:induction false} RunKeeps(y: Sys, steps: seq<Step>, z: Sys)
    requires Inv(y) && Reaches(y, steps, z)
    ensures Inv(z)
    decreases |steps|
  {
    hide Inv, Consistent, Enabled, Apply;
    if steps != [] {
      StepKeeps(y, steps[0]);
      RunKeeps(Apply(y, steps[0]), steps[1..], z);
    }
  }

  /** The registry invariant holds in every reachable state. */
  lemma ReachableInv(y: Sys, steps: seq<Step>, z: Sys)
    requires Initial(y) && Reaches(y, steps, z)
    ensures Inv(z)
  {
    InitialInv(y);
    RunKeeps(y, steps, z);
  }

  /** The names that failed isolated startups still have to roll back. */
  function Leftovers(y: Sys): set<string> {
    set p | p in y.failing :: y.failing[p].name
  }

  /**
    In every reachable state the name table is a bijection onto the processes that hold
    resources. The bus and the memory manager know exactly these names and the control plane's,
    apart from what failed isolated startups have left behind until they are rolled back.
  */
  lemma NamesAreABijection(y: Sys, steps: seq<Step>, z: Sys)
    requires Initial(y) && Reaches(y, steps, z)
    ensures forall n, p :: n in z.reg.byName && z.reg.byName[n] == p
                           <==> p in z.reg.records && z.reg.records[p].registered && z.reg.records[p].name == n
    ensures var known := z.reg.byName.Keys + z.control;
            && known <= z.reg.mailboxes <= known + Leftovers(z) && known <= z.reg.tables <= known + Leftovers(z)
            && z.reg.byName.Keys !! z.control && Leftovers(z) !! z.control
  {
    ReachableInv(y, steps, z);
    hide Linked, Numbered, Limited, Consistent, Reaches, Placeholder;
    assert forall n | n in z.reg.byName :: n !in z.control;
    forall n | LeftBehind(z, n)
      ensures n in Leftovers(z)
    {
    }
  }

  /** Parents are older than their children, so parent links form a forest. */
  lemma ParentsAreOlder(y: Sys, steps: seq<Step>, z: Sys, child: Pid)
    requires Initial(y) && Reaches(y, steps, z)
    requires child in z.reg.records && z.reg.records[child].parent.Some?
    ensures z.reg.records[child].parent.value in z.reg.records && z.reg.records[child].parent.value < child < z.reg.nextPid
  {
    ReachableInv(y, steps, z);
    hide Named, Numbered, Limited, Consistent, Reaches;
  }

  /**
    When no kill is running and no terminal process still has to detach its children, every
    live process with a parent has a live parent that lists it, exactly once.
  */
  lemma QuiescentTree(y: Sys, steps: seq<Step>, z: Sys, child: Pid)
    requires Initial(y) && Reaches(y, steps, z) && z.killing == map[] && z.unorphaned == {}
    requires IsLive(z.reg, child) && z.reg.records[child].parent.Some?
    ensures IsLive(z.reg, z.reg.records[child].parent.value)
    ensures exists i :: Listed(z.reg, child, i) && forall j | Listed(z.reg, child, j) :: j == i
  {
    ReachableInv(y, steps, z);
    var s, parent := z.reg, z.reg.records[child].parent.value;
    assert Attached(z, child) by { hide Named, Numbered, Limited, Consistent, Reaches; }
    assert Distinct(s.records[parent].children) by { hide Named, Numbered, Limited, Consistent, Reaches; }
    assert IsLive(s, parent) by { hide Linked, Named, Numbered, Limited, Reaches; }
    hide Linked, Named, Numbered, Limited, Consistent, Reaches, Inv;
    var i :| 0 <= i < |s.records[parent].children| && s.records[parent].children[i] == child;
    assert Listed(s, child, i);
  }

  /** Position `i` of the list of `child`'s parent holds `child`. */
  predicate Listed(s: Reg, child: Pid, i: int) {
    && child in s.records && s.records[child].parent.Some? && s.records[child].parent.value in s.records
    && 0 <= i < |s.records[s.records[child].parent.value].children|
    && s.records[s.records[child].parent.value].children[i] == child
  }

  /** No supervisor exceeds its restart budget in any window of any run. */
  lemma BudgetOverRuns(y: Sys, steps: seq<Step>, z: Sys, supervisor: Pid, t: real)
    requires Initial(y) && Reaches(y, steps, z) && supervisor in z.reg.records
    ensures supervisor in z.log
    ensures CountIn(z.log[supervisor], t, z.reg.records[supervisor].window) <= z.reg.records[supervisor].maxRestarts
  {
    ReachableInv(y, steps, z);
    hide Linked, Named, Numbered, Consistent, Reaches;
    assert Budgeted(z.reg.records[supervisor], z.log[supervisor], z.now);
  }

  // ----- PIDs -----

  /** Process `p` is still the same process, and terminal if it was. */
  predicate SameProcess(s: Reg, t: Reg, p: Pid)
    requires p in s.records
  {
    && p in t.records && t.records[p].name == s.records[p].name && t.records[p].script == s.records[p].script
    && t.records[p].policy == s.records[p].policy && (IsDone(s, p) ==> IsDone(t, p))
  }

  lemma UnlinkIdentity(s: Reg, pid: Pid, p: Pid)
    requires pid in s.records && p in s.records
    ensures SameProcess(s, Unlink(s, pid), p)
  {
  }

  /** A change of a record that leaves name, script, policy and state alone. */
  lemma PutIdentity(s: Reg, q: Pid, r: Record, p: Pid)
    requires q in s.records && p in s.records
    requires r.name == s.records[q].name && r.script == s.records[q].script && r.policy == s.records[q].policy && r.state == s.records[q].state
    ensures SameProcess(s, Put(s, q, r), p) && Put(s, q, r).records.Keys == s.records.Keys
  {
  }

  lemma SameTrans(s: Reg, t: Reg, u: Reg, p: Pid)
    requires p in s.records && SameProcess(s, t, p) && SameProcess(t, u, p)
    ensures SameProcess(s, u, p)
  {
  }

  lemma SupervisedIdentity(y: Sys, pid: Pid, checkedAt: real, recordedAt: real, p: Pid)
    requires Consistent(y) && pid in y.reg.records && p in y.reg.records
    ensures SameProcess(y.reg, Supervised(y, pid, checkedAt, recordedAt).reg, p)
  {
    hide Consistent, Candidates, Affected, Unlink, SameProcess, Prune, Charge;
    var s, r := y.reg, y.reg.records[pid];
    UnlinkIdentity(s, pid, p);
    SameIdentity(s, p);
    if r.parent.Some? && IsLive(s, r.parent.value) {
      var parent := r.parent.value;
      var pruned := Prune(s.records[parent], checkedAt);
      BudgetFields(s.records[parent], checkedAt, |Candidates(s, Affected(s.records[parent], pid), r.state.Crashed?)|, recordedAt);
      var s1 := Put(s, parent, pruned.(escalated := true));
      PutIdentity(s, parent, pruned.(escalated := true), p);
      PutIdentity(s, parent, Charge(pruned, |Candidates(s, Affected(s.records[parent], pid), r.state.Crashed?)|, recordedAt), p);
      KnownAfter(s, s1, p);
      UnlinkIdentity(s1, pid, p);
      SameTrans(s, s1, Unlink(s1, pid), p);
    }
  }

  lemma KnownAfter(s: Reg, t: Reg, p: Pid)
    requires p in s.records && SameProcess(s, t, p)
    ensures p in t.records
  {
  }

  lemma SameIdentity(s: Reg, p: Pid)
    requires p in s.records
    ensures SameProcess(s, s, p)
  {
  }

  lemma BudgetFields(p: Record, checkedAt: real, attempts: nat, recordedAt: real)
    ensures var pruned := Prune(p, checkedAt);
            && pruned == p.(history := pruned.history)
            && Charge(pruned, attempts, recordedAt)
               == pruned.(history := Charge(pruned, attempts, recordedAt).history, restartCount := pruned.restartCount + attempts)
  {
  }

  lemma EnrollIdentity(s: Reg, pid: Pid, script: string, parent: Option<Pid>, policy: RestartPolicy, profile: Profile, state: ProcessState, p: Pid)
    requires Unknown(s, pid) && ParentRunning(s, parent) && p in s.records
    ensures SameProcess(s, Enroll(s, pid, script, parent, policy, profile, state).0, p)
  {
    if Enroll(s, pid, script, parent, policy, profile, state).1 {
      SuccessfulCommit(s, pid, script, parent, policy, profile, state);
      hide Enroll;
    } else {
      FailedEnroll(s, pid, script, parent, policy, profile, state);
      hide Enroll;
    }
  }

  lemma CommitIdentity(s: Reg, pid: Pid, script: string, parent: Option<Pid>, policy: RestartPolicy, profile: Profile, state: ProcessState, p: Pid)
    requires Unknown(s, pid) && ParentRunning(s, parent) && p in s.records
    requires profile.name !in s.byName
    ensures SameProcess(s, Commit(s, pid, script, parent, policy, profile, state).0, p)
  {
    EnrollIdentity(s, pid, script, parent, policy, profile, state, p);
    if !Enroll(s, pid, script, parent, policy, profile, state).1 {
      FailedEnroll(s, pid, script, parent, policy, profile, state);
      RollbackUndoes(Enroll(s, pid, script, parent, policy, profile, state).0, pid, profile.name, parent);
      hide Enroll, Rollback;
    }
  }

  lemma UnknownAfterAllocation(s: Reg, pid: Pid)
    requires Unknown(s, pid)
    ensures Unknown(s.(nextPid := s.nextPid + 1), pid)
  {
  }

  lemma StartIdentity(s: Reg, script: string, parent: Option<Pid>, policy: RestartPolicy, profile: Profile, p: Pid)
    requires Unknown(s, s.nextPid) && p in s.records
    ensures SameProcess(s, Start(s, script, parent, policy, profile).0, p)
  {
    hide Commit, Unknown, SameProcess;
    var s1 := s.(nextPid := s.nextPid + 1);
    UnknownAfterAllocation(s, s.nextPid);
    SameIdentity(s, p);
    AllocateIdentity(s, p);
    if profile.fault != SettingsFault && ParentRunning(s, parent) && profile.name !in s.byName {
      CommitIdentity(s1, s.nextPid, script, parent, policy, profile, Starting, p);
      SameTrans(s, s1, Commit(s1, s.nextPid, script, parent, policy, profile, Starting).0, p);
    }
  }

  lemma PendingIsUnknown(y: Sys, pid: Pid)
    requires Inv(y) && pid in y.pending
    ensures pid !in y.used && Unknown(y.reg, pid)
  {
    hide Named, Limited, Consistent, Unknown, Linked;
    UnknownFresh(y, pid);
  }

  lemma ReadyIdentity(y: Sys, pid: Pid, script: string, policy: RestartPolicy, profile: Profile, p: Pid)
    requires Inv(y) && pid in y.pending && p in y.reg.records
    ensures SameProcess(y.reg, ReadySection(y.reg, pid, script, y.pending[pid], policy, profile).0, p)
  {
    hide Inv, Enroll, Unknown, SameProcess;
    var s, parent := y.reg, y.pending[pid];
    PendingIsUnknown(y, pid);
    SameIdentity(s, p);
    if ParentRunning(s, parent) {
      EnrollIdentity(s, pid, script, parent, policy, profile, Running, p);
    }
  }

  lemma RollbackIdentity(y: Sys, pid: Pid, p: Pid)
    requires Inv(y) && pid in y.failing && y.failing[pid].name !in y.reg.byName && p in y.reg.records
    ensures SameProcess(y.reg, RolledBack(y, pid).reg, p)
  {
    FailingIsUnknown(y, pid);
    RollbackUndoes(y.reg, pid, y.failing[pid].name, y.failing[pid].parent);
    hide Rollback;
  }

  lemma CrashIdentity(s: Reg, pid: Pid, script: string, parent: Pid, policy: RestartPolicy, p: Pid)
    requires Unknown(s, pid) && p in s.records
    ensures SameProcess(s, IsolatedCrashed(s, pid, script, Some(parent), policy), p)
  {
    CrashedCommit(s, pid, script, parent, policy);
    hide IsolatedCrashed;
  }

  lemma KillEndIdentity(s: Reg, pid: Pid, auto: bool, p: Pid)
    requires pid in s.records && p in s.records
    ensures SameProcess(s, FinishKill(s, pid, auto), p)
  {
    hide Unlink;
    UnlinkIdentity(KillEnd(s, pid), pid, p);
  }

  lemma PendingCrashIdentity(y: Sys, pid: Pid, script: string, policy: RestartPolicy, p: Pid)
    requires Inv(y) && pid in y.pending && p in y.reg.records
    ensures SameProcess(y.reg, IsolatedCrashed(y.reg, pid, script, y.pending[pid], policy), p)
  {
    hide Inv, Rollback, Unknown, SameProcess;
    PendingIsUnknown(y, pid);
    var parent := y.pending[pid];
    SameIdentity(y.reg, p);
    if parent.Some? {
      CrashIdentity(y.reg, pid, script, parent.value, policy, p);
    } else {
      PlaceholderRollback(y, pid, parent);
    }
  }

  lemma StateIdentity(s: Reg, pid: Pid, state: ProcessState, p: Pid)
    requires IsActive(s, pid) && p in s.records
    ensures SameProcess(s, Put(s, pid, s.records[pid].(state := state)), p)
  {
  }

  lemma AllocateIdentity(s: Reg, p: Pid)
    requires p in s.records
    ensures SameProcess(s, s.(nextPid := s.nextPid + 1), p)
  {
  }

  lemma OrphanIdentity(s: Reg, pid: Pid, p: Pid)
    requires Ordered(s) && pid in s.records && p in s.records
    ensures SameProcess(s, Orphan(s, pid), p)
  {
    OrphanEffect(s, pid, p);
    hide Orphan, Ordered;
  }

  lemma CleanupIdentity(s: Reg, pid: Pid, p: Pid)
    requires pid in s.records && p in s.records
    ensures SameProcess(s, Cleanup(s, pid), p)
  {
  }

  lemma RelinkIdentity(s: Reg, parent: Pid, stale: Pid, renewed: Pid, p: Pid)
    requires p in s.records
    ensures SameProcess(s, Relink(s, parent, stale, renewed), p)
  {
    hide Replace;
  }

  lemma NextIsUnknown(y: Sys)
    requires Inv(y)
    ensures Ordered(y.reg) && Unknown(y.reg, y.reg.nextPid)
    ensures Consistent(y)
  {
    hide Named, Limited, Numbered;
  }

  /** The steps of startups. */
  predicate IsStartup(step: Step) {
    step.StartStep? || step.AllocateStep? || step.ReadyStep? || step.RollbackStep? || step.CrashStep? || step.FailStep?
  }

  lemma StartupIdentity(y: Sys, step: Step, p: Pid)
    requires Inv(y) && Enabled(y, step) && p in y.reg.records && IsStartup(step)
    ensures SameProcess(y.reg, Apply(y, step).reg, p)
  {
    hide Linked, Named, Numbered, Limited, AgentName, Start, ReadySection, IsolatedCrashed, Rollback, RolledBack, Unknown, SameProcess, Inv,
      Ordered, Consistent, Placeholder;
    NextIsUnknown(y);
    match step
    case StartStep(script, parent, policy, profile) => StartIdentity(y.reg, script, parent, policy, profile, p);
    case AllocateStep(_) => AllocateIdentity(y.reg, p);
    case ReadyStep(pid, script, policy, profile) => ReadyIdentity(y, pid, script, policy, profile, p);
    case RollbackStep(pid) => RollbackIdentity(y, pid, p);
    case CrashStep(pid, script, policy) => PendingCrashIdentity(y, pid, script, policy, p);
    case FailStep(pid) => FailIdentity(y, pid, p);
  }

  /** The steps that move one process through its states. */
  predicate IsTransition(step: Step) {
    step.TaskStartsStep? || step.TaskEndsStep? || step.KillBeginStep? || step.CleanupStep?
  }

  lemma TransitionIdentity(y: Sys, step: Step, p: Pid)
    requires Consistent(y) && Enabled(y, step) && p in y.reg.records && IsTransition(step)
    ensures SameProcess(y.reg, Apply(y, step).reg, p)
  {
    hide AgentName, Cleanup, SameProcess, Consistent;
    var s := y.reg;
    KnownStates(y);
    match step
    case TaskStartsStep(pid) => StateIdentity(s, pid, Running, p);
    case TaskEndsStep(pid, abnormal) => StateIdentity(s, pid, if abnormal then Crashed else Exited, p);
    case CleanupStep(pid) => CleanupIdentity(s, pid, p);
    case KillBeginStep(pid) => StateIdentity(s, pid, Stopping, p);
  }

  lemma KnownStates(y: Sys)
    requires Consistent(y)
    ensures forall pid | pid in y.dying || pid in y.unorphaned || pid in y.killing :: pid in y.reg.records
  {
  }

  lemma StepIdentity(y: Sys, step: Step, p: Pid)
    requires Inv(y) && Enabled(y, step) && p in y.reg.records
    ensures SameProcess(y.reg, Apply(y, step).reg, p)
  {
    hide Linked, Named, Numbered, Limited, AgentName, Supervised, Unlink, Orphan, FinishKill,
      Cleanup, Relink, Unknown, SameProcess, Inv, Ordered, Start, ReadySection, IsolatedCrashed, Rollback, RolledBack, Consistent;
    var s := y.reg;
    NextIsUnknown(y);
    KnownStates(y);
    match step
    case OrphanStep(pid) => OrphanIdentity(s, pid, p);
    case SuperviseStep(pid, checkedAt, recordedAt) => SupervisedIdentity(y, pid, checkedAt, recordedAt, p);
    case KillEndStep(pid, auto) => KillEndIdentity(s, pid, auto, p);
    case RelinkStep(parent, stale, renewed) => RelinkIdentity(s, parent, stale, renewed, p);
    case UnlinkStep(pid) => UnlinkIdentity(s, pid, p);
    case _ =>
      if IsStartup(step) {
        StartupIdentity(y, step, p);
      } else {
        TransitionIdentity(y, step, p);
      }
  }

  lemma FailIdentity(y: Sys, pid: Pid, p: Pid)
    requires Inv(y) && pid in y.pending && p in y.reg.records
    ensures SameProcess(y.reg, Rollback(y.reg, pid, Placeholder(pid), y.pending[pid]), p)
  {
    assert pid !in y.used;
    PlaceholderRollback(y, pid, y.pending[pid]);
  }

  lemma {:induction false} RunIdentity(y: Sys, steps: seq<Step>, z: Sys, p: Pid)
    requires Inv(y) && Reaches(y, steps, z) && p in y.reg.records
    ensures SameProcess(y.reg, z.reg, p)
    decreases |steps|
  {
    hide Inv, Consistent, Enabled, Apply;
    if steps != [] {
      StepKeeps(y, steps[0]);
      StepIdentity(y, steps[0], p);
      RunIdentity(Apply(y, steps[0]), steps[1..], z, p);
    }
  }

  /** A PID denotes one process for ever: a later state has the same process under it, and a terminal one stays terminal. */
  lemma PidsAreNeverReused(y: Sys, before: seq<Step>, m: Sys, after: seq<Step>, z: Sys, p: Pid)
    requires Initial(y) && Reaches(y, before, m) && Reaches(m, after, z) && p in m.reg.records
    ensures SameProcess(m.reg, z.reg, p)
  {
    ReachableInv(y, before, m);
    RunIdentity(m, after, z, p);
  }

  // ----- Failed startups -----

  /** Rolling back leaves the registry as it was exactly when nobody else uses the name. */
  lemma RollbackExact(s: Reg, pid: Pid, name: string, parent: Option<Pid>)
    requires Unknown(s, pid)
    ensures Rollback(s, pid, name, parent) == s <==> name !in s.byName && name !in s.mailboxes && name !in s.tables
  {
    var t := Rollback(s, pid, name, parent);
    assert name !in t.byName && name !in t.mailboxes && name !in t.tables;
    if name !in s.byName {
      RollbackUndoes(s, pid, name, parent);
      if name !in s.mailboxes && name !in s.tables {
        assert s.mailboxes - {name} == s.mailboxes && s.tables - {name} == s.tables;
      }
    }
  }

  /** A startup that fails before it registers anything, or under a name that is free on bus and memory manager. */
  predicate FailsCleanly(s: Reg, parent: Option<Pid>, profile: Profile) {
    || profile.fault == SettingsFault || !ParentRunning(s, parent) || profile.name in s.byName
    || (profile.name !in s.mailboxes && profile.name !in s.tables)
  }

  /** A failed in-process startup consumes at most a PID exactly when it fails cleanly. */
  lemma FailedStart(s: Reg, script: string, parent: Option<Pid>, policy: RestartPolicy, profile: Profile)
    requires Unknown(s, s.nextPid) && Start(s, script, parent, policy, profile).1.Err?
    ensures Start(s, script, parent, policy, profile).0.(nextPid := s.nextPid) == s <==> FailsCleanly(s, parent, profile)
  {
    if profile.fault != SettingsFault && ParentRunning(s, parent) && profile.name !in s.byName {
      FailedCommit(s.(nextPid := s.nextPid + 1), s.nextPid, script, parent, policy, profile, Starting);
    }
  }

  /**
    In every reachable state, a failed startup under a permitted name that no failed isolated
    startup has left behind leaves the registry as it was, but for the PID.
  */
  lemma FailedStartInRuns(y: Sys, steps: seq<Step>, z: Sys, script: string, parent: Option<Pid>, policy: RestartPolicy, profile: Profile)
    requires Initial(y) && Reaches(y, steps, z) && AgentName(z.control, profile.name) && profile.name !in Leftovers(z)
    requires Start(z.reg, script, parent, policy, profile).1.Err?
    ensures Start(z.reg, script, parent, policy, profile).0.(nextPid := z.reg.nextPid) == z.reg
  {
    ReachableInv(y, steps, z);
    hide Reaches, Start, Unknown, Linked, Numbered, Limited;
    NextIsUnknown(z);
    if profile.name !in z.reg.byName {
      NotLeftBehind(z, profile.name);
    }
    FailedStart(z.reg, script, parent, policy, profile);
  }

  lemma NotLeftBehind(z: Sys, n: string)
    requires Named(z) && AgentName(z.control, n) && n !in Leftovers(z) && n !in z.reg.byName
    ensures n !in z.reg.mailboxes && n !in z.reg.tables
  {
    hide Placeholder;
    assert !LeftBehind(z, n);
  }

  // ----- Overlapping kills -----

  /**
    Two overlapping kills of `pid` between which its name is taken again: the second cleanup
    pops the name of the new process, which stays registered.
  */
  lemma OverlappingKillsLoseAName(s: Reg, pid: Pid, script: string, policy: RestartPolicy, profile: Profile)
    requires IsLive(s, pid) && s.records[pid].registered && s.records[pid].parent == None && s.nextPid !in s.records
    requires profile.name == s.records[pid].name && profile.fault == NoFault
    ensures var ended := FinishKill(KillBegin(KillBegin(s, pid), pid), pid, false);
            var (restarted, result) := Start(ended, script, None, policy, profile);
            && result == Ok(s.nextPid) && restarted.byName[profile.name] == s.nextPid
            && pid in restarted.records
            && profile.name !in FinishKill(restarted, pid, false).byName
            && FinishKill(restarted, pid, false).records[s.nextPid].registered
  {
  }
}

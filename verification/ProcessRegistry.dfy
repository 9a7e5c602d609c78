/**
  The process registry as an object that is updated in place. Every method leaves the state
  that the corresponding function of the other registry modules describes.
*/
module ProcessRegistryClass {
  import opened Common
  import opened Registry
  import K = RegistryKill
  import opened RegistryRestart
  import A = RegistryAutoKill
  import T = RegistryCrash

  const FIRST_PID: Pid := 100

  datatype KillError = UnknownPid | AlreadyTerminal | RestartFailed(error: StartError)

  /** What a kill returns; a failed automatic restart raises after the process was killed. */
  function KillResult(s: Reg, pid: Pid, autoRestart: bool, profile: Option<Profile>): Result<Pid, KillError>
    requires K.Ordered(s)
  {
    if pid !in s.records then Err(UnknownPid)
    else if !IsActive(s, pid) then Err(AlreadyTerminal)
    else if !autoRestart then Ok(pid)
    else match A.KillAuto(s, pid, profile).1
         case Some(Err(error)) => Err(RestartFailed(error))
         case _ => Ok(pid)
  }

  /** The killed process keeps its record and its parent until the end of the kill. */
  lemma KilledShape(s: Reg, pid: Pid)
    requires K.Ordered(s) && IsActive(s, pid)
    ensures K.Ordered(A.Killed0(s, pid)) && K.SameShape(s, A.Killed0(s, pid))
    ensures K.Kill(s, pid) == Unlink(A.Killed0(s, pid), pid)
  {
    A.Killed0Ordered(s, pid);
  }

  class ProcessRegistry {
    var records: map<Pid, Record>
    var byName: map<string, Pid>
    var nextPid: Pid
    var mailboxes: set<string>
    var tables: set<string>

    /** `control` are the names of the control plane on the bus and in the memory manager. */
    constructor (control: set<string>)
      ensures State() == Reg(map[], map[], FIRST_PID, control, control)
    {
      records, byName, nextPid, mailboxes, tables := map[], map[], FIRST_PID, control, control;
    }

    function State(): Reg
      reads this
    {
      Reg(records, byName, nextPid, mailboxes, tables)
    }

    method AllocatePid() returns (pid: Pid)
      modifies this`nextPid
      ensures pid == old(nextPid) && State() == old(State()).(nextPid := pid + 1)
    {
      pid := nextPid;
      nextPid := nextPid + 1;
    }

    method LinkChild(parent: Pid, child: Pid)
      modifies this`records
      ensures State() == Link(old(State()), parent, child)
    {
      if parent !in records || child !in records { return; }
      records := records[child := records[child].(parent := Some(parent))];
      if child !in records[parent].children {
        records := records[parent := records[parent].(children := records[parent].children + [child])];
      }
    }

    method UnlinkChild(pid: Pid)
      requires pid in records
      modifies this`records
      ensures State() == Unlink(old(State()), pid)
    {
      if records[pid].parent.None? {
        assert records[pid := records[pid].(parent := None)] == records;
        return;
      }
      var parent := records[pid].parent.value;
      if parent in records {
        records := records[parent := records[parent].(children := Minus(records[parent].children, {pid}))];
      }
      records := records[pid := records[pid].(parent := None)];
    }

    method CleanupLocked(pid: Pid)
      requires pid in records
      modifies this
      ensures State() == Cleanup(old(State()), pid)
    {
      var name := records[pid].name;
      byName := byName - {name};
      if records[pid].registered {
        mailboxes := mailboxes - {name};
        tables := tables - {name};
        records := records[pid := records[pid].(registered := false)];
      }
    }

    /** The record being rolled back need not be in the table. */
    method RollbackStartup(pid: Pid, name: string, parent: Option<Pid>)
      modifies this
      ensures State() == Rollback(old(State()), pid, name, parent)
    {
      byName := byName - {name};
      records := records - {pid};
      if parent.Some? && parent.value in records {
        records := records[parent.value := records[parent.value].(children := Minus(records[parent.value].children, {pid}))];
      }
      mailboxes := mailboxes - {name};
      tables := tables - {name};
    }

    /** Starts an agent in this process; a failed registration raises and is rolled back. */
    method RunPathInProcess(script: string, parent: Option<Pid>, policy: RestartPolicy, profile: Profile)
      returns (r: Result<Pid, StartError>)
      modifies this
      ensures (State(), r) == Start(old(State()), script, parent, policy, profile)
    {
      if profile.fault == SettingsFault { return Err(LoadFailed); }
      if !ParentRunning(State(), parent) { return Err(ParentNotRunning); }
      if profile.name in byName { return Err(NameTaken); }
      var pid := AllocatePid();
      var registered := false;
      if profile.name !in mailboxes && profile.fault != MailboxFault {
        mailboxes := mailboxes + {profile.name};
        if profile.fault != TableFault {
          tables := tables + {profile.name};
          registered := profile.fault != CapabilityFault;
        }
      }
      if !registered {
        RollbackStartup(pid, profile.name, parent);
        return Err(RegistrationFailed);
      }
      records := records[pid := NewRecord(script, parent, policy, profile, Starting)];
      byName := byName[profile.name := pid];
      if parent.Some? {
        LinkChild(parent.value, pid);
      }
      r := Ok(pid);
    }

    /** Removes duplicates from a list, keeping first occurrences. */
    method Deduplicate(xs: seq<Pid>) returns (ys: seq<Pid>)
      ensures ys == Dedup(xs)
    {
      var seen: set<Pid> := {};
      ys := [];
      assert xs[..0] == [];
      for i := 0 to |xs|
        invariant ys == Dedup(xs[..i])
        invariant seen == set x | x in ys
      {
        assert xs[..i + 1][..i] == xs[..i];
        if xs[i] !in seen {
          seen := seen + {xs[i]};
          ys := ys + [xs[i]];
        }
      }
      assert xs[..|xs|] == xs;
    }

    /** Puts `renewed` into the supervisor's list where `stale` was, or at its end. */
    method RelinkChild(parent: Pid, stale: Pid, renewed: Pid)
      modifies this`records
      ensures State() == Relink(old(State()), parent, stale, renewed)
    {
      if parent !in records { return; }
      var list := records[parent].children;
      if stale in list {
        list := list[IndexOf(list, stale) := renewed];
      } else if renewed !in list {
        list := list + [renewed];
      }
      list := Deduplicate(list);
      records := records[parent := records[parent].(children := list)];
    }

    /** Restarts the script of `child` and puts the replacement into its place in the supervisor's list. */
    method RestartSupervised(parent: Pid, child: Pid, profile: Option<Profile>) returns (r: Result<Pid, StartError>)
      requires child in records
      modifies this
      ensures (State(), r) == RestartChild(old(State()), parent, child, profile)
    {
      hide Start, Relink;
      if profile.None? { return Err(LoadFailed); }
      var c := records[child];
      r := RunPathInProcess(c.script, Some(parent), c.policy, profile.value);
      if r.Err? || r.value !in records { return; }
      records := records[r.value := records[r.value].(restartCount := c.restartCount + 1)];
      RelinkChild(parent, child, r.value);
    }

    /** Kills a process and everything below it; an automatic kill under a live supervisor restarts it. */
    method Kill(pid: Pid, autoRestart: bool, profile: Option<Profile>) returns (r: Result<Pid, KillError>)
      requires K.Ordered(State())
      modifies this
      ensures r == KillResult(old(State()), pid, autoRestart, profile)
      ensures !autoRestart || !old(IsActive(State(), pid)) ==> State() == K.Kill(old(State()), pid)
      ensures autoRestart && old(IsActive(State(), pid)) ==> State() == A.KillAuto(old(State()), pid, profile).0
      decreases K.Left(State(), pid), 1, 0
    {
      if pid !in records { return Err(UnknownPid); }
      if !records[pid].state.Active() { return Err(AlreadyTerminal); }
      hide K.Ordered, A.Killed0, RestartChild, Unlink;
      ghost var s := State();
      KillSubtree(pid);
      KilledShape(s, pid);
      if !KillRestarts(State(), pid, autoRestart) {
        UnlinkChild(pid);
        return Ok(pid);
      }
      var replacement := RestartSupervised(records[pid].parent.value, pid, profile);
      if replacement.Err? { return Err(RestartFailed(replacement.error)); }
      if pid in records {
        UnlinkChild(pid);
      }
      r := Ok(pid);
    }

    /** Stops the process, kills its children, and releases what it holds. */
    method KillSubtree(pid: Pid)
      requires K.Ordered(State()) && IsActive(State(), pid)
      modifies this
      ensures State() == A.Killed0(old(State()), pid)
      decreases K.Left(State(), pid), 0, |records[pid].children| + 1
    {
      ghost var s := State();
      var children := records[pid].children;
      A.BeginOrdered(s, pid);
      hide K.Ordered;
      records := records[pid := records[pid].(state := Stopping)];
      assert State() == KillBegin(s, pid);
      KillEach(children, pid);
      records := records[pid := records[pid].(state := Killed)];
      CleanupLocked(pid);
      records := records[pid := records[pid].(children := [])];
    }

    /** Kills the given processes, all younger than `above`; refused kills are ignored. */
    method KillEach(children: seq<Pid>, above: Pid)
      requires K.Ordered(State()) && above < nextPid && forall c | c in children :: above < c
      modifies this
      ensures State() == K.KillChildren(old(State()), children, above)
      decreases nextPid - above, 0, |children|
    {
      hide K.Kill, K.Ordered;
      ghost var s := State();
      assert children[0..] == children;
      for i := 0 to |children|
        invariant K.Ordered(State()) && K.SameShape(s, State())
        invariant forall c | c in children[i..] :: above < c
        invariant K.KillChildren(s, children, above) == K.KillChildren(State(), children[i..], above)
      {
        assert children[i..][0] == children[i] && children[i..][1..] == children[i + 1..];
        assert children[i..][0] in children[i..] && forall c | c in children[i..][1..] :: c in children[i..];
        var _ := Kill(children[i], false, None);
      }
    }

    // ----- Termination and supervision -----

    /** Kills the children of a terminal process, then detaches the ones still listed. */
    method TerminateChildrenOf(pid: Pid)
      requires K.Ordered(State()) && pid in records
      modifies this
      ensures State() == T.TerminateChildren(old(State()), pid)
    {
      var children := records[pid].children;
      if children == [] { return; }
      KillEach(children, pid);
      DetachChildrenOf(pid);
    }

    method DetachChildrenOf(pid: Pid)
      requires pid in records
      modifies this`records
      ensures State() == Orphan(old(State()), pid)
    {
      ghost var before := records;
      var list := records[pid].children;
      for i := 0 to |list|
        invariant records == map p | p in before :: if p in list[..i] then before[p].(parent := None) else before[p]
      {
        assert list[..i + 1] == list[..i] + [list[i]];
        if list[i] in records {
          records := records[list[i] := records[list[i]].(parent := None)];
        }
      }
      assert list[..|list|] == list;
      records := records[pid := records[pid].(children := [])];
    }

    /** Prunes the supervisor's history and says whether it may restart `attempts` more children. */
    method RestartBudgetAllows(parent: Pid, attempts: nat, now: real) returns (allowed: bool)
      requires parent in records
      modifies this`records
      ensures State() == Put(old(State()), parent, Prune(old(records)[parent], now))
      ensures allowed == WithinBudget(Prune(old(records)[parent], now), attempts)
    {
      var p := records[parent];
      records := records[parent := p.(history := Recent(p.history, p.window, now))];
      allowed := |records[parent].history| + attempts <= records[parent].maxRestarts;
    }

    method RecordRestartAttempts(parent: Pid, attempts: nat, now: real)
      requires parent in records
      modifies this`records
      ensures State() == Put(old(State()), parent, Charge(old(records)[parent], attempts, now))
    {
      var p := records[parent];
      records := records[parent := p.(history := p.history + Repeat(now, attempts), restartCount := p.restartCount + attempts)];
    }

    /** The supervisor's decision about a terminal process. */
    method Decide(pid: Pid, checkedAt: real, recordedAt: real) returns (verdict: Verdict)
      requires pid in records
      modifies this`records
      ensures (State(), verdict) == Supervise(old(State()), pid, checkedAt, recordedAt)
    {
      hide Prune, Charge, Affected, Candidates, Unlink;
      var r := records[pid];
      if r.parent.None? || !IsLive(State(), r.parent.value) { return NoSupervisor; }
      var parent := r.parent.value;
      var affected := Affected(records[parent], pid);
      var candidates := Candidates(State(), affected, r.state.Crashed?);
      if candidates == [] {
        if pid in affected { UnlinkChild(pid); }
        return NothingToRestart;
      }
      ghost var before := records;
      var allowed := RestartBudgetAllows(parent, |candidates|, checkedAt);
      if !allowed {
        records := records[parent := records[parent].(escalated := true)];
        assert records == before[parent := Prune(before[parent], checkedAt).(escalated := true)];
        if pid in affected { UnlinkChild(pid); }
        return Escalated;
      }
      RecordRestartAttempts(parent, |candidates|, recordedAt);
      assert records == before[parent := Charge(Prune(before[parent], checkedAt), |candidates|, recordedAt)];
      verdict := Restart(candidates);
    }

    /** Restarts one candidate, or gives up. */
    method RestartCandidate(parent: Pid, c: Pid, profile: Option<Profile>) returns (renewed: Option<Pid>)
      requires K.Ordered(State())
      modifies this
      ensures (State(), renewed) == RestartNext(old(State()), parent, c, profile)
    {
      hide RestartChild, K.Ordered;
      if !IsLive(State(), parent) || c !in records || records[c].parent != Some(parent) { return None; }
      if records[c].state.Active() {
        var _ := Kill(c, false, None);
      }
      if !IsLive(State(), parent) { return None; }
      var replacement := RestartSupervised(parent, c, profile);
      if replacement.Ok? { return Some(replacement.value); }
      if parent in records {
        records := records[parent := records[parent].(escalated := true)];
      }
      renewed := None;
    }

    /** Restarts the candidates in order, and stops at the first that cannot be restarted. */
    method RestartCandidates(parent: Pid, candidates: seq<Pid>, load: Pid -> Option<Profile>)
      returns (started: seq<Pid>, complete: bool)
      requires K.Ordered(State())
      modifies this
      ensures Round(State(), started, complete) == RestartAll(old(State()), parent, candidates, load)
    {
      hide RestartNext, K.Ordered;
      ghost var whole := RestartAll(State(), parent, candidates, load);
      started := [];
      assert candidates[0..] == candidates;
      for i := 0 to |candidates|
        invariant K.Ordered(State())
        invariant whole == After(started, RestartAll(State(), parent, candidates[i..], load))
      {
        ghost var s := State();
        var c := candidates[i];
        assert candidates[i..][0] == c && candidates[i..][1..] == candidates[i + 1..];
        var renewed := RestartCandidate(parent, c, load(c));
        if renewed.None? { return started, false; }
        NextOrdered(s, parent, c, load(c));
        started := started + [renewed.value];
      }
      complete := true;
    }

    /** Everything that follows the end of a process. */
    method HandleTerminalProcess(pid: Pid, checkedAt: real, recordedAt: real, load: Pid -> Option<Profile>)
      returns (started: seq<Pid>, complete: bool)
      requires K.Ordered(State()) && pid in records
      modifies this
      ensures Round(State(), started, complete) == T.HandleTerminal(old(State()), pid, checkedAt, recordedAt, load)
    {
      T.TerminateOrdered(State(), pid);
      TerminateChildrenOf(pid);
      SuperviseOrdered(State(), pid, checkedAt, recordedAt);
      var parent := if records[pid].parent.Some? then records[pid].parent.value else 0;
      var verdict := Decide(pid, checkedAt, recordedAt);
      match verdict
      case Restart(candidates) => started, complete := RestartCandidates(parent, candidates, load);
      case _ => started, complete := [], false;
    }
  }

  /** A round that goes on after `started`. */
  function After(started: seq<Pid>, r: Round): Round {
    r.(started := started + r.started)
  }
}

/**
  The process registry of kernel/process.py: its state, and each lock-protected step as a
  function from state to state.
*/
module Registry {
  import opened Common

  type Pid = nat

  datatype ProcessState = Starting | Running | Stopping | Killed | Crashed | Exited {
    /** May supervise: starting or running. */
    predicate Live() {
      Starting? || Running?
    }

    /** Not yet terminal. */
    predicate Active() {
      Live() || Stopping?
    }
  }

  datatype Strategy = OneForOne | OneForAll | RestForOne

  datatype RestartPolicy = Permanent | Transient | Temporary

  datatype Record = Record(
    name: string,
    script: string,
    state: ProcessState,
    parent: Option<Pid>,
    children: seq<Pid>,
    registered: bool,
    policy: RestartPolicy,
    strategy: Strategy,
    maxRestarts: nat,
    window: real,
    restartCount: nat,
    history: seq<real>,
    escalated: bool)

  /** `mailboxes` and `tables` are the names known to the bus and to the memory manager. */
  datatype Reg = Reg(
    records: map<Pid, Record>,
    byName: map<string, Pid>,
    nextPid: Pid,
    mailboxes: set<string>,
    tables: set<string>)

  function Put(s: Reg, pid: Pid, r: Record): Reg {
    s.(records := s.records[pid := r])
  }

  predicate IsLive(s: Reg, pid: Pid) {
    pid in s.records && s.records[pid].state.Live()
  }

  predicate IsActive(s: Reg, pid: Pid) {
    pid in s.records && s.records[pid].state.Active()
  }

  /** The list without the members of `gone`. */
  function Minus(xs: seq<Pid>, gone: set<Pid>): seq<Pid> {
    if xs == [] then []
    else (if xs[0] in gone then [] else [xs[0]]) + Minus(xs[1..], gone)
  }

  // ----- Links -----

  function Link(s: Reg, parent: Pid, child: Pid): Reg {
    if parent !in s.records || child !in s.records then s
    else
      var s1 := Put(s, child, s.records[child].(parent := Some(parent)));
      var p := s1.records[parent];
      if child in p.children then s1 else Put(s1, parent, p.(children := p.children + [child]))
  }

  /** Removes `child` from the list of `parent`. */
  function Drop(s: Reg, parent: Option<Pid>, child: Pid): Reg {
    if parent.None? || parent.value !in s.records then s
    else
      var p := s.records[parent.value];
      Put(s, parent.value, p.(children := Minus(p.children, {child})))
  }

  function Unlink(s: Reg, pid: Pid): Reg
    requires pid in s.records
  {
    var s1 := Drop(s, s.records[pid].parent, pid);
    Put(s1, pid, s1.records[pid].(parent := None))
  }

  // ----- Resources -----

  /** Pops the name unconditionally; releases mailbox and table only if they are registered. */
  function Cleanup(s: Reg, pid: Pid): Reg
    requires pid in s.records
  {
    var r := s.records[pid];
    var s1 := s.(byName := s.byName - {r.name});
    if !r.registered then s1
    else Put(s1, pid, r.(registered := false)).(mailboxes := s.mailboxes - {r.name}, tables := s.tables - {r.name})
  }

  /** Undoes whatever a startup under this name may have registered. */
  function Rollback(s: Reg, pid: Pid, name: string, parent: Option<Pid>): Reg {
    var s1 := Drop(s.(records := s.records - {pid}, byName := s.byName - {name}), parent, pid);
    s1.(mailboxes := s1.mailboxes - {name}, tables := s1.tables - {name})
  }

  // ----- Startup -----

  /** Which registration call raises, if any; or that the supervision settings of the script are invalid. */
  datatype Fault = NoFault | SettingsFault | MailboxFault | TableFault | CapabilityFault

  /** What loading an agent script yields. */
  datatype Profile = Profile(name: string, strategy: Strategy, maxRestarts: nat, window: real, fault: Fault)

  datatype StartError = ParentNotRunning | NameTaken | RegistrationFailed | LoadFailed | ChildCrashed

  function NewRecord(script: string, parent: Option<Pid>, policy: RestartPolicy, profile: Profile, state: ProcessState): Record {
    Record(profile.name, script, state, parent, [], true, policy, profile.strategy,
           profile.maxRestarts, profile.window, 0, [], false)
  }

  predicate ParentRunning(s: Reg, parent: Option<Pid>) {
    parent.None? || IsLive(s, parent.value)
  }

  /** Registers the resources of `name`: the mailbox must be new, the memory table is overwritten. */
  function RegisterResources(s: Reg, name: string, fault: Fault): (Reg, bool) {
    if name in s.mailboxes || fault == MailboxFault then (s, false)
    else
      var s1 := s.(mailboxes := s.mailboxes + {name});
      if fault == TableFault then (s1, false)
      else
        var s2 := s1.(tables := s1.tables + {name});
        (s2, fault != CapabilityFault)
  }

  /** Registers, commits and links `pid`, up to the registration call that raises. */
  function Enroll(s: Reg, pid: Pid, script: string, parent: Option<Pid>, policy: RestartPolicy, profile: Profile, state: ProcessState): (Reg, bool) {
    var (s1, ok) := RegisterResources(s, profile.name, profile.fault);
    if !ok then (s1, false)
    else
      var s2 := Put(s1, pid, NewRecord(script, parent, policy, profile, state)).(byName := s1.byName[profile.name := pid]);
      (if parent.Some? then Link(s2, parent.value, pid) else s2, true)
  }

  /** Registers, commits and links `pid`, or rolls back. */
  function Commit(s: Reg, pid: Pid, script: string, parent: Option<Pid>, policy: RestartPolicy, profile: Profile, state: ProcessState)
    : (Reg, Result<Pid, StartError>)
  {
    var (s1, ok) := Enroll(s, pid, script, parent, policy, profile, state);
    if ok then (s1, Ok(pid)) else (Rollback(s1, pid, profile.name, parent), Err(RegistrationFailed))
  }

  /** Starts an agent in this process; its settings are validated when the script is loaded. */
  function Start(s: Reg, script: string, parent: Option<Pid>, policy: RestartPolicy, profile: Profile): (Reg, Result<Pid, StartError>) {
    if profile.fault == SettingsFault then (s, Err(LoadFailed))
    else if !ParentRunning(s, parent) then (s, Err(ParentNotRunning))
    else if profile.name in s.byName then (s, Err(NameTaken))
    else Commit(s.(nextPid := s.nextPid + 1), s.nextPid, script, parent, policy, profile, Starting)
  }

  /** The name of an isolated process until its child reports one. */
  function Placeholder(pid: Pid): string {
    "<starting:" + Decimal(pid) + ">"
  }

  /** What the lock-protected section of an isolated startup comes to; a failed one is rolled back later, under `name`. */
  datatype Ready = Joined | FailsAs(name: string, error: StartError)

  /**
    The isolated child `pid` reported ready. When this section raises, whatever it registered
    stays until the child has been stopped and a later section rolls back.
  */
  function ReadySection(s: Reg, pid: Pid, script: string, parent: Option<Pid>, policy: RestartPolicy, profile: Profile): (Reg, Ready) {
    if !ParentRunning(s, parent) then (s, FailsAs(Placeholder(pid), ParentNotRunning))
    else if profile.name in s.byName then (s, FailsAs(Placeholder(pid), NameTaken))
    else if profile.fault == SettingsFault then (s, FailsAs(profile.name, LoadFailed))
    else
      var (t, ok) := Enroll(s, pid, script, parent, policy, profile, Running);
      (t, if ok then Joined else FailsAs(profile.name, RegistrationFailed))
  }

  /** The isolated child `pid` crashed during startup: recorded only when it has a parent. */
  function IsolatedCrashed(s: Reg, pid: Pid, script: string, parent: Option<Pid>, policy: RestartPolicy): Reg {
    if parent.None? then Rollback(s, pid, Placeholder(pid), parent)
    else
      var r := Record("<crashed:" + Decimal(pid) + ">", script, Crashed, if ParentRunning(s, parent) then parent else None,
                      [], false, policy, OneForOne, 3, 60.0, 0, [], false);
      var s1 := Put(s, pid, r);
      if ParentRunning(s, parent) then Link(s1, parent.value, pid) else s1
  }

  // ----- Kill -----

  function KillBegin(s: Reg, pid: Pid): Reg
    requires pid in s.records
  {
    Put(s, pid, s.records[pid].(state := Stopping))
  }

  /** The last step of a kill, up to the decision whether to restart. */
  function KillEnd(s: Reg, pid: Pid): Reg
    requires pid in s.records
  {
    var s1 := Cleanup(Put(s, pid, s.records[pid].(state := Killed)), pid);
    Put(s1, pid, s1.records[pid].(children := []))
  }

  /** A restart follows only an automatic kill under a live supervisor. */
  predicate KillRestarts(s: Reg, pid: Pid, auto: bool)
    requires pid in s.records
  {
    auto && s.records[pid].parent.Some? && IsLive(s, s.records[pid].parent.value)
  }

  // ----- Termination and supervision -----

  /** Detaches the children of a terminal parent. */
  function Orphan(s: Reg, pid: Pid): Reg
    requires pid in s.records
  {
    var cs := s.records[pid].children;
    var s1 := s.(records := map p | p in s.records :: if p in cs then s.records[p].(parent := None) else s.records[p]);
    Put(s1, pid, s1.records[pid].(children := []))
  }

  function IndexOf(xs: seq<Pid>, x: Pid): (i: nat)
    requires x in xs
    ensures i < |xs| && xs[i] == x && x !in xs[..i]
  {
    if xs[0] == x then 0 else 1 + IndexOf(xs[1..], x)
  }

  /** The children that the supervisor's strategy restarts together with `failed`. */
  function Affected(p: Record, failed: Pid): seq<Pid> {
    if failed !in p.children then [failed]
    else match p.strategy
         case OneForAll => p.children
         case RestForOne => p.children[IndexOf(p.children, failed)..]
         case OneForOne => [failed]
  }

  predicate PolicyAllows(child: Record, abnormal: bool) {
    child.policy == Permanent || (child.policy == Transient && abnormal)
  }

  function Candidates(s: Reg, pids: seq<Pid>, abnormal: bool): seq<Pid> {
    if pids == [] then []
    else (if pids[0] in s.records && PolicyAllows(s.records[pids[0]], abnormal) then [pids[0]] else [])
         + Candidates(s, pids[1..], abnormal)
  }

  /** The history entries no older than `window` at time `now`. */
  function Recent(history: seq<real>, window: real, now: real): seq<real> {
    if history == [] then []
    else (if now - history[0] <= window then [history[0]] else []) + Recent(history[1..], window, now)
  }

  function Prune(p: Record, now: real): Record {
    p.(history := Recent(p.history, p.window, now))
  }

  predicate WithinBudget(p: Record, attempts: nat) {
    |p.history| + attempts <= p.maxRestarts
  }

  function Repeat(x: real, n: nat): seq<real> {
    seq(n, i => x)
  }

  function Charge(p: Record, attempts: nat, now: real): Record {
    p.(history := p.history + Repeat(now, attempts), restartCount := p.restartCount + attempts)
  }

  /** What the supervisor decides about a terminal child. */
  datatype Verdict = NoSupervisor | NothingToRestart | Escalated | Restart(candidates: seq<Pid>)

  /**
    The supervisor's step for the terminal process `pid`. The clock is read twice: once to
    prune the history and once to record the attempts.
  */
  function Supervise(s: Reg, pid: Pid, checkedAt: real, recordedAt: real): (Reg, Verdict)
    requires pid in s.records
  {
    var r := s.records[pid];
    if r.parent.None? || !IsLive(s, r.parent.value) then (s, NoSupervisor)
    else
      var p := s.records[r.parent.value];
      var affected := Affected(p, pid);
      var candidates := Candidates(s, affected, r.state.Crashed?);
      if candidates == [] then (if pid in affected then Unlink(s, pid) else s, NothingToRestart)
      else
        var pruned := Prune(p, checkedAt);
        if WithinBudget(pruned, |candidates|)
        then (Put(s, r.parent.value, Charge(pruned, |candidates|, recordedAt)), Restart(candidates))
        else
          var s1 := Put(s, r.parent.value, pruned.(escalated := true));
          (if pid in affected then Unlink(s1, pid) else s1, Escalated)
  }

  /** Duplicates removed, first occurrences kept. */
  function Dedup(xs: seq<Pid>): seq<Pid> {
    if xs == [] then []
    else
      var front := Dedup(xs[..|xs| - 1]);
      if xs[|xs| - 1] in front then front else front + [xs[|xs| - 1]]
  }

  /** Puts `renewed` where `stale` was, or at the end. */
  function Replace(xs: seq<Pid>, stale: Pid, renewed: Pid): seq<Pid> {
    Dedup(if stale in xs then xs[IndexOf(xs, stale) := renewed] else if renewed in xs then xs else xs + [renewed])
  }

  function Relink(s: Reg, parent: Pid, stale: Pid, renewed: Pid): Reg {
    if parent !in s.records then s
    else Put(s, parent, s.records[parent].(children := Replace(s.records[parent].children, stale, renewed)))
  }

  /** Restarts `child` under `parent`; `profile` is None when its script no longer loads. */
  function RestartChild(s: Reg, parent: Pid, child: Pid, profile: Option<Profile>): (Reg, Result<Pid, StartError>)
    requires child in s.records
  {
    if profile.None? then (s, Err(LoadFailed))
    else
      var c := s.records[child];
      var (s1, started) := Start(s, c.script, Some(parent), c.policy, profile.value);
      if started.Err? || started.value !in s1.records then (s1, started)
      else
        var renewed := s1.records[started.value];
        (Relink(Put(s1, started.value, renewed.(restartCount := c.restartCount + 1)), parent, child, started.value), started)
  }
}

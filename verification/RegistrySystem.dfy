/**
  The registry as a transition system. Every lock-protected section, and every unlocked
  update of a record's state, is one step; steps of different operations may interleave.
*/
module RegistrySystem {
  import opened Common
  import opened Registry
  import opened RegistryKill
  import opened RestartBudget

  /**
    The registry, and what the running operations remember between their steps:
    `pending` the isolated startups with their parents, `failing` the failed ones that have not
    been rolled back yet, with the names to roll back, `killing` the kills in progress with
    the children they saw, `dying` the terminal processes not yet cleaned up, `unorphaned`
    the terminal processes whose children have not been detached yet. `control` are the
    control-plane names, `used` every PID that ever had a record, `now` the clock, and `log`
    every restart attempt ever recorded.
  */
  datatype Sys = Sys(
    reg: Reg,
    pending: map<Pid, Option<Pid>>,
    failing: map<Pid, Failing>,
    killing: map<Pid, seq<Pid>>,
    dying: set<Pid>,
    unorphaned: set<Pid>,
    control: set<string>,
    used: set<Pid>,
    now: real,
    log: map<Pid, seq<real>>)

  datatype Failing = Failing(name: string, parent: Option<Pid>)

  datatype Step =
    | StartStep(script: string, parent: Option<Pid>, policy: RestartPolicy, profile: Profile)
    | AllocateStep(parent: Option<Pid>)
    | ReadyStep(pid: Pid, script: string, policy: RestartPolicy, profile: Profile)
    | RollbackStep(pid: Pid)
    | CrashStep(pid: Pid, script: string, policy: RestartPolicy)
    | FailStep(pid: Pid)
    | TaskStartsStep(pid: Pid)
    | TaskEndsStep(pid: Pid, abnormal: bool)
    | CleanupStep(pid: Pid)
    | OrphanStep(pid: Pid)
    | SuperviseStep(pid: Pid, checkedAt: real, recordedAt: real)
    | KillBeginStep(pid: Pid)
    | KillEndStep(pid: Pid, auto: bool)
    | RelinkStep(supervisor: Pid, stale: Pid, renewed: Pid)
    | UnlinkStep(pid: Pid)

  /** A name an agent may have: not a control-plane name, and no startup placeholder. */
  ghost predicate AgentName(control: set<string>, name: string) {
    name !in control && forall p: Pid :: name != Placeholder(p)
  }

  predicate IsDone(s: Reg, pid: Pid) {
    pid in s.records && !s.records[pid].state.Active()
  }

  /** A child of `pid` that the kill in progress has not seen still runs: it was started after the kill began. */
  predicate LateChild(y: Sys, pid: Pid, c: Pid) {
    IsActive(y.reg, c) && y.reg.records[c].parent == Some(pid) && (pid in y.killing ==> c !in y.killing[pid])
  }

  /** What the code waits for before the last step of a kill: the children that it saw are dead. */
  predicate KillMayEnd(y: Sys, pid: Pid) {
    pid in y.killing && forall c | c in y.killing[pid] :: !IsActive(y.reg, c)
  }

  /**
    When a step may be taken. Beyond what the code checks: agent names avoid the reserved
    ones; a failed isolated startup is rolled back while nobody holds its name; kills of one
    process do not overlap; a process does not end by itself while it is being killed; and a
    kill ends when no child that was started meanwhile still runs.
  */
  ghost predicate Enabled(y: Sys, step: Step) {
    var s := y.reg;
    match step
    case StartStep(_, _, _, profile) => AgentName(y.control, profile.name)
    case AllocateStep(parent) => parent.Some? ==> parent.value in s.records
    case ReadyStep(pid, _, _, profile) => pid in y.pending && AgentName(y.control, profile.name)
    case RollbackStep(pid) => pid in y.failing && y.failing[pid].name !in s.byName
    case CrashStep(pid, _, _) => pid in y.pending
    case FailStep(pid) => pid in y.pending
    case TaskStartsStep(pid) => pid in s.records && (s.records[pid].state == Starting || s.records[pid].state == Stopping)
    case TaskEndsStep(pid, _) => pid in s.records && s.records[pid].state == Running && pid !in y.killing
    case CleanupStep(pid) => pid in y.dying
    case OrphanStep(pid) =>
      pid in y.unorphaned && pid !in y.dying && pid in s.records && forall c | c in s.records[pid].children :: !IsActive(s, c)
    case SuperviseStep(pid, checkedAt, recordedAt) =>
      IsDone(s, pid) && pid !in y.unorphaned && y.now <= checkedAt <= recordedAt
    case KillBeginStep(pid) => IsActive(s, pid) && pid !in y.killing
    case KillEndStep(pid, _) => KillMayEnd(y, pid) && forall c | c in s.records :: !LateChild(y, pid, c)
    case RelinkStep(parent, stale, renewed) =>
      && parent in s.records && renewed in s.records && parent < renewed && IsDone(s, stale)
      && (s.records[renewed].parent == Some(parent) || s.records[renewed].parent == None)
    case UnlinkStep(pid) => IsDone(s, pid)
  }

  /** Records and logs a new process. */
  function Admit(y: Sys, t: Reg, pid: Pid): Sys {
    if pid in t.records && pid !in y.reg.records
    then y.(reg := t, used := y.used + {pid}, log := y.log[pid := []])
    else y.(reg := t)
  }

  function FinishKill(s: Reg, pid: Pid, auto: bool): Reg
    requires pid in s.records
  {
    var t := KillEnd(s, pid);
    if KillRestarts(t, pid, auto) then t else Unlink(t, pid)
  }

  /** The supervisor's decision, with the granted attempts added to the log. */
  function Supervised(y: Sys, pid: Pid, checkedAt: real, recordedAt: real): Sys
    requires Consistent(y) && pid in y.reg.records
  {
    var (t, verdict) := Supervise(y.reg, pid, checkedAt, recordedAt);
    var y1 := y.(reg := t, now := recordedAt);
    if !verdict.Restart? then y1
    else
      var parent := y.reg.records[pid].parent.value;
      y1.(log := y.log[parent := y.log[parent] + Repeat(recordedAt, |verdict.candidates|)])
  }

  /** The late rollback of a failed isolated startup. */
  function RolledBack(y: Sys, pid: Pid): Sys
    requires pid in y.failing
  {
    y.(reg := Rollback(y.reg, pid, y.failing[pid].name, y.failing[pid].parent), failing := y.failing - {pid})
  }

  ghost function Apply(y: Sys, step: Step): Sys
    requires Consistent(y) && Enabled(y, step)
  {
    var s := y.reg;
    match step
    case StartStep(script, parent, policy, profile) => Admit(y, Start(s, script, parent, policy, profile).0, s.nextPid)
    case AllocateStep(parent) => y.(reg := s.(nextPid := s.nextPid + 1), pending := y.pending[s.nextPid := parent])
    case ReadyStep(pid, script, policy, profile) =>
      var (t, outcome) := ReadySection(s, pid, script, y.pending[pid], policy, profile);
      var y1 := y.(pending := y.pending - {pid});
      if outcome.Joined? then Admit(y1, t, pid) else y1.(reg := t, failing := y.failing[pid := Failing(outcome.name, y.pending[pid])])
    case RollbackStep(pid) => RolledBack(y, pid)
    case CrashStep(pid, script, policy) =>
      Admit(y.(pending := y.pending - {pid}), IsolatedCrashed(s, pid, script, y.pending[pid], policy), pid)
    case FailStep(pid) => y.(pending := y.pending - {pid}, reg := Rollback(s, pid, Placeholder(pid), y.pending[pid]))
    case TaskStartsStep(pid) => y.(reg := Put(s, pid, s.records[pid].(state := Running)))
    case TaskEndsStep(pid, abnormal) =>
      y.(reg := Put(s, pid, s.records[pid].(state := if abnormal then Crashed else Exited)),
         dying := y.dying + {pid}, unorphaned := y.unorphaned + {pid})
    case CleanupStep(pid) => y.(reg := Cleanup(s, pid), dying := y.dying - {pid})
    case OrphanStep(pid) => y.(reg := Orphan(s, pid), unorphaned := y.unorphaned - {pid})
    case SuperviseStep(pid, checkedAt, recordedAt) => Supervised(y, pid, checkedAt, recordedAt)
    case KillBeginStep(pid) => y.(reg := KillBegin(s, pid), killing := y.killing[pid := s.records[pid].children])
    case KillEndStep(pid, auto) => y.(reg := FinishKill(s, pid, auto), killing := y.killing - {pid})
    case RelinkStep(parent, stale, renewed) => y.(reg := Relink(s, parent, stale, renewed))
    case UnlinkStep(pid) => y.(reg := Unlink(s, pid))
  }

  /** Operations remember only processes that exist. */
  predicate Consistent(y: Sys) {
    && (forall p | p in y.killing :: IsActive(y.reg, p))
    && (forall p | p in y.reg.records && y.reg.records[p].state == Stopping :: p in y.killing)
    && (forall p | p in y.unorphaned :: IsDone(y.reg, p))
    && y.dying <= y.unorphaned
    && y.log.Keys == y.reg.records.Keys
  }

  // ----- The invariant -----

  /** A listed child is known, and has the lister as its parent unless it was detached. */
  predicate WeaklyListed(s: Reg) {
    forall q, c | q in s.records && c in s.records[q].children ::
      c in s.records && (s.records[c].parent == Some(q) || s.records[c].parent == None)
  }

  /** Active process `c` is listed by its parent, which is active or still has to detach its children. */
  predicate Attached(y: Sys, c: Pid)
    requires c in y.reg.records
  {
    var parent := y.reg.records[c].parent;
    IsActive(y.reg, c) && parent.Some? ==>
      && parent.value in y.reg.records
      && c in y.reg.records[parent.value].children
      && (IsActive(y.reg, parent.value) || parent.value in y.unorphaned)
  }

  predicate AllAttached(y: Sys) {
    forall c | c in y.reg.records :: Attached(y, c)
  }

  predicate Linked(y: Sys) {
    Ordered(y.reg) && OlderParents(y.reg) && WeaklyListed(y.reg) && DistinctLists(y.reg) && AllAttached(y)
  }

  /** A process that should hold its name and resources: it has not been cleaned up. */
  predicate Holds(y: Sys, p: Pid) {
    IsActive(y.reg, p) || p in y.dying
  }

  predicate HeldUntilCleanup(y: Sys) {
    forall p | p in y.reg.records :: y.reg.records[p].registered <==> Holds(y, p)
  }

  /** Every table entry is a registered process of that name. */
  predicate EntriesRight(s: Reg) {
    forall n | n in s.byName :: s.byName[n] in s.records && s.records[s.byName[n]].registered && s.records[s.byName[n]].name == n
  }

  /** A failed isolated startup still has to roll back this name. */
  ghost predicate LeftBehind(y: Sys, n: string) {
    AgentName(y.control, n) && exists p | p in y.failing :: y.failing[p].name == n
  }

  /** The bus or the memory manager knows the agents and the control plane, and otherwise only leftovers. */
  ghost predicate Knows(y: Sys, names: set<string>) {
    y.reg.byName.Keys + y.control <= names && forall n | n in names :: n in y.reg.byName || n in y.control || LeftBehind(y, n)
  }

  /** Agents and the control plane share the bus and the memory manager without clashes. */
  ghost predicate Disjoint(y: Sys) {
    && (forall n | n in y.reg.byName :: AgentName(y.control, n))
    && Knows(y, y.reg.mailboxes) && Knows(y, y.reg.tables)
    && (forall p: Pid :: Placeholder(p) !in y.control)
  }

  /** The name table is a bijection onto the processes that hold resources, and agrees with bus and memory up to leftovers. */
  ghost predicate Named(y: Sys) {
    HeldUntilCleanup(y) && EntriesRight(y.reg) && TableComplete(y.reg) && Disjoint(y) && FailingNamed(y)
  }

  /** PIDs are handed out once. */
  predicate Numbered(y: Sys) {
    && y.reg.records.Keys <= y.used
    && (forall p | p in y.used :: p < y.reg.nextPid)
    && (forall p | p in y.pending :: p < y.reg.nextPid && p !in y.used &&
          (y.pending[p].Some? ==> y.pending[p].value in y.reg.records && y.pending[p].value < p))
    && (forall p | p in y.failing :: p < y.reg.nextPid && p !in y.used && p !in y.pending)
  }

  /** The name of a failed isolated startup is the one its child reported, or still the placeholder. */
  ghost predicate FailingNamed(y: Sys) {
    forall p | p in y.failing :: AgentName(y.control, y.failing[p].name) || y.failing[p].name == Placeholder(p)
  }

  /** Every supervisor keeps its restart budget in every window. */
  ghost predicate Limited(y: Sys) {
    forall p | p in y.reg.records :: p in y.log && Budgeted(y.reg.records[p], y.log[p], y.now)
  }

  ghost predicate Inv(y: Sys) {
    Consistent(y) && Linked(y) && Named(y) && Numbered(y) && Limited(y)
  }

  /** An empty registry beside a control plane. */
  ghost predicate Initial(y: Sys) {
    && y.reg.records == map[] && y.reg.byName == map[] && y.reg.mailboxes == y.control && y.reg.tables == y.control
    && y.pending == map[] && y.failing == map[] && y.killing == map[] && y.dying == {} && y.unorphaned == {} && y.used == {} && y.log == map[]
    && forall p: Pid :: Placeholder(p) !in y.control
  }

  lemma InitialInv(y: Sys)
    requires Initial(y)
    ensures Inv(y)
  {
  }
}

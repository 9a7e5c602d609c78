/**
  Three races that the transition system keeps apart, each on a reachable state: a late
  rollback, a child that is started while its parent is being killed, and a process that ends
  by itself while it is being killed.
*/
module RegistryRaces {
  import opened Common
  import opened Registry
  import opened RegistryKill
  import opened RegistrySystem
  import opened RegistryInvariant
  import opened RegistryRuns

  /** `z` can be reached. */
  ghost predicate Reachable(z: Sys) {
    exists y, steps :: Initial(y) && Reaches(y, steps, z)
  }

  lemma {:induction false} OneMoreStep(y: Sys, steps: seq<Step>, m: Sys, step: Step)
    requires Reaches(y, steps, m) && Consistent(m) && Enabled(m, step)
    ensures Reaches(y, steps + [step], Apply(m, step))
    decreases |steps|
  {
    hide Consistent, Enabled, Apply;
    if steps == [] {
      assert [] + [step] == [step] && [step][1..] == [];
      assert Reaches(Apply(m, step), [], Apply(m, step));
    } else {
      assert (steps + [step])[1..] == steps[1..] + [step];
      OneMoreStep(Apply(y, steps[0]), steps[1..], m, step);
    }
  }

  lemma StepReachable(m: Sys, step: Step)
    requires Reachable(m) && Inv(m) && Enabled(m, step)
    ensures Reachable(Apply(m, step)) && Inv(Apply(m, step))
  {
    hide Initial, Enabled, Apply, Inv, Consistent;
    StepKeeps(m, step);
    var y, steps :| Initial(y) && Reaches(y, steps, m);
    InvConsistent(m);
    OneMoreStep(y, steps, m, step);
  }

  lemma InvConsistent(m: Sys)
    requires Inv(m)
    ensures Consistent(m)
  {
  }

  lemma InitialReachable(y: Sys)
    requires Initial(y)
    ensures Reachable(y) && Inv(y)
  {
    hide Initial;
    InitialInv(y);
    assert Reaches(y, [], y);
  }

  /** An agent whose script loads and registers without faults. */
  ghost predicate Sane(y: Sys, profile: Profile) {
    AgentName(y.control, profile.name) && profile.fault == NoFault
  }

  /** The effect of a start that succeeds. */
  predicate Began(y: Sys, z: Sys, parent: Option<Pid>, r: Record) {
    && z.reg.records == WithRecord(y.reg, y.reg.nextPid, r) && z.reg.byName == y.reg.byName[r.name := y.reg.nextPid]
    && z.reg.nextPid == y.reg.nextPid + 1 && y.reg.nextPid !in y.reg.records && r.parent == parent
    && z.failing == y.failing && z.killing == y.killing && z.control == y.control && z.unorphaned == y.unorphaned
  }

  lemma Begin(y: Sys, script: string, parent: Option<Pid>, policy: RestartPolicy, profile: Profile)
    requires Inv(y) && Reachable(y) && y.failing == map[] && Sane(y, profile) && profile.name !in y.reg.byName && ParentRunning(y.reg, parent)
    ensures Consistent(y) && Enabled(y, StartStep(script, parent, policy, profile))
    ensures var z := Apply(y, StartStep(script, parent, policy, profile));
            Inv(z) && Reachable(z) && Began(y, z, parent, NewRecord(script, parent, policy, profile, Starting))
  {
    hide Linked, Named, Numbered, Limited, Placeholder, Reachable, Start;
    StartSucceeds(y, script, parent, policy, profile);
    StepReachable(y, StartStep(script, parent, policy, profile));
  }

  lemma StartSucceeds(y: Sys, script: string, parent: Option<Pid>, policy: RestartPolicy, profile: Profile)
    requires Inv(y) && profile.name !in Leftovers(y)
    requires Sane(y, profile) && profile.name !in y.reg.byName && ParentRunning(y.reg, parent)
    ensures var (t, result) := Start(y.reg, script, parent, policy, profile);
            && result == Ok(y.reg.nextPid) && y.reg.nextPid !in y.reg.records
            && t == Reg(WithRecord(y.reg, y.reg.nextPid, NewRecord(script, parent, policy, profile, Starting)),
                        y.reg.byName[profile.name := y.reg.nextPid], y.reg.nextPid + 1,
                        y.reg.mailboxes + {profile.name}, y.reg.tables + {profile.name})
  {
    hide Linked, Numbered, Limited, Consistent, Placeholder, Reachable;
    NextIsUnknown(y);
    NotLeftBehind(y, profile.name);
    SuccessfulCommit(y.reg.(nextPid := y.reg.nextPid + 1), y.reg.nextPid, script, parent, policy, profile, Starting);
  }

  // ----- A late rollback -----

  /**
    An isolated startup fails after it has taken its name, since its settings are invalid;
    while its child is being stopped another agent starts under that name; the rollback then
    leaves this live process without its entry, its mailbox and its table.
  */
  lemma LateRollbackLosesAName(y: Sys, script: string, policy: RestartPolicy, broken: Profile, sound: Profile) returns (z: Sys, pid: Pid)
    requires Initial(y) && Sane(y, sound) && broken.name == sound.name && broken.fault == SettingsFault
    ensures Reachable(z) && pid in z.failing && sound.name in z.reg.byName
    ensures var owner, t := z.reg.byName[sound.name], RolledBack(z, pid).reg;
            && IsLive(t, owner) && t.records[owner].registered && t.records[owner].name == sound.name
            && sound.name !in t.byName && sound.name !in t.mailboxes && sound.name !in t.tables
  {
    hide Reachable, Placeholder, Linked, Numbered, Limited;
    pid := y.reg.nextPid;
    InitialReachable(y);
    var y1 := Apply(y, AllocateStep(None));
    StepReachable(y, AllocateStep(None));
    var y2 := Apply(y1, ReadyStep(pid, script, policy, broken));
    StepReachable(y1, ReadyStep(pid, script, policy, broken));
    assert y2.reg == y1.reg && y2.failing == map[pid := Failing(sound.name, None)];
    z := Apply(y2, StartStep(script, None, policy, sound));
    StepReachable(y2, StartStep(script, None, policy, sound));
    FailingIsUnknown(z, pid);
    hide Start;
    FirstStart(y2.reg, script, policy, sound);
    RollbackPops(z, pid);
  }

  lemma FirstStart(s: Reg, script: string, policy: RestartPolicy, profile: Profile)
    requires s.records == map[] && profile.name !in s.byName && profile.name !in s.mailboxes && profile.fault == NoFault
    ensures var (t, result) := Start(s, script, None, policy, profile);
            && result == Ok(s.nextPid) && t.byName == s.byName[profile.name := s.nextPid]
            && t.records == map[s.nextPid := NewRecord(script, None, policy, profile, Starting)]
  {
  }

  // ----- A late child -----

  /** Process `d` runs under a parent that is dead, and no list holds it. */
  predicate Stranded(s: Reg, d: Pid) {
    && IsLive(s, d) && s.records[d].parent.Some? && !IsActive(s, s.records[d].parent.value)
    && forall q | q in s.records :: d !in s.records[q].children
  }

  /** The links of one process. */
  predicate Links(s: Reg, p: Pid, state: ProcessState, parent: Option<Pid>, children: seq<Pid>) {
    p in s.records && s.records[p].state == state && s.records[p].parent == parent && s.records[p].children == children
  }

  lemma InitialFacts(y: Sys)
    requires Initial(y)
    ensures y.failing == map[] && y.killing == map[] && y.unorphaned == {} && y.reg.records == map[] && y.reg.byName == map[]
  {
  }

  /** P runs, with a child C, and is being killed. */
  predicate Killing(y: Sys, pid: Pid) {
    && y.reg.nextPid == pid + 2 && y.reg.records.Keys == {pid, pid + 1} && y.failing == map[] && y.killing == map[pid := [pid + 1]]
    && Links(y.reg, pid, Running, None, [pid + 1]) && Links(y.reg, pid + 1, Starting, Some(pid), [])
  }

  /** Process `p` moves to `state`, and the kills in progress are now `killing`. */
  predicate Moved(y: Sys, z: Sys, p: Pid, state: ProcessState, killing: map<Pid, seq<Pid>>) {
    && p in y.reg.records && z.reg == y.reg.(records := y.reg.records[p := y.reg.records[p].(state := state)])
    && z == y.(reg := z.reg, killing := killing)
  }

  lemma KillBegins(y: Sys, p: Pid) returns (z: Sys)
    requires Inv(y) && Reachable(y) && IsActive(y.reg, p) && p !in y.killing
    ensures Inv(z) && Reachable(z) && Moved(y, z, p, Stopping, y.killing[p := y.reg.records[p].children])
  {
    hide Reachable, Linked, Named, Numbered, Limited;
    StepReachable(y, KillBeginStep(p));
    z := Apply(y, KillBeginStep(p));
  }

  lemma TaskBegins(y: Sys, p: Pid) returns (z: Sys)
    requires Inv(y) && Reachable(y) && p in y.reg.records && y.reg.records[p].state == Stopping
    ensures Inv(z) && Reachable(z) && Moved(y, z, p, Running, y.killing)
  {
    hide Reachable, Linked, Named, Numbered, Limited;
    StepReachable(y, TaskStartsStep(p));
    z := Apply(y, TaskStartsStep(p));
  }

  /** The kill of a process without children that has a parent. */
  lemma KillEnds(y: Sys, p: Pid, parent: Pid) returns (z: Sys)
    requires Inv(y) && Reachable(y) && p in y.killing && y.killing[p] == [] && p in y.reg.records && y.reg.records[p].parent == Some(parent)
    requires parent in y.reg.records && forall c | c in y.reg.records :: y.reg.records[c].parent != Some(p)
    ensures Inv(z) && Reachable(z) && z.killing == y.killing - {p} && z.reg.records.Keys == y.reg.records.Keys
    ensures Links(z.reg, p, Killed, None, [])
    ensures z.reg.records[parent] == y.reg.records[parent].(children := Minus(y.reg.records[parent].children, {p}))
    ensures forall q | q in y.reg.records && q != p && q != parent :: z.reg.records[q] == y.reg.records[q]
  {
    hide Reachable, Minus, Inv, KillEnd, Unlink;
    InvConsistent(y);
    StepReachable(y, KillEndStep(p, false));
    z := Apply(y, KillEndStep(p, false));
    EndedRecords(y, p);
  }

  lemma EndedRecords(y: Sys, p: Pid)
    requires Inv(y) && p in y.reg.records
    ensures var t := FinishKill(y.reg, p, false);
            t.records.Keys == y.reg.records.Keys && forall q | q in y.reg.records ::
              t.records[q] == if q == p then y.reg.records[p].(state := Killed, registered := false, children := [], parent := None)
                              else if y.reg.records[p].parent == Some(q) then y.reg.records[q].(children := Minus(y.reg.records[q].children, {p}))
                              else y.reg.records[q]
  {
    hide Named, Limited, Numbered, Consistent;
    var s := KillEnd(y.reg, p);
    KillEndRecords(y.reg, p);
    hide KillEnd, Ordered, WeaklyListed, DistinctLists, Unlink, Minus;
    assert OlderParents(s) by {
      forall q {:trigger s.records[q].parent} | q in s.records && s.records[q].parent.Some?
        ensures s.records[q].parent.value in s.records && s.records[q].parent.value < q
      {
        assert y.reg.records[q].parent == s.records[q].parent;
      }
    }
    forall q | q in y.reg.records { UnlinkEffect(s, p, q); }
    UnlinkEffect(s, p, p);
  }

  lemma BeganLinks(y: Sys, z: Sys, parent: Option<Pid>, r: Record)
    requires Began(y, z, parent, r) && r.children == [] && (parent.Some? ==> parent.value in y.reg.records)
    ensures Links(z.reg, y.reg.nextPid, r.state, parent, []) && z.reg.records.Keys == y.reg.records.Keys + {y.reg.nextPid}
    ensures forall q | q in y.reg.records ::
              z.reg.records[q] == if parent == Some(q) then y.reg.records[q].(children := y.reg.records[q].children + [y.reg.nextPid]) else y.reg.records[q]
  {
  }

  lemma StartUnder(y: Sys, script: string, parent: Option<Pid>, policy: RestartPolicy, profile: Profile) returns (z: Sys)
    requires Inv(y) && Reachable(y) && y.failing == map[] && Sane(y, profile) && profile.name !in y.reg.byName && ParentRunning(y.reg, parent)
    ensures Inv(z) && Reachable(z) && Began(y, z, parent, NewRecord(script, parent, policy, profile, Starting))
    ensures Links(z.reg, y.reg.nextPid, Starting, parent, []) && z.reg.records.Keys == y.reg.records.Keys + {y.reg.nextPid}
    ensures forall q | q in y.reg.records ::
              z.reg.records[q] == if parent == Some(q) then y.reg.records[q].(children := y.reg.records[q].children + [y.reg.nextPid]) else y.reg.records[q]
  {
    hide Reachable, Inv, Began;
    Begin(y, script, parent, policy, profile);
    z := Apply(y, StartStep(script, parent, policy, profile));
    BeganLinks(y, z, parent, NewRecord(script, parent, policy, profile, Starting));
  }

  /** The first half: P and C are started, the kill of P begins, and then the task of P. */
  lemma KilledBeforeItRan(y: Sys, script: string, policy: RestartPolicy, a: Profile, b: Profile) returns (z: Sys)
    requires Initial(y) && Sane(y, a) && Sane(y, b) && a.name != b.name
    ensures Reachable(z) && Inv(z) && Killing(z, y.reg.nextPid) && z.control == y.control && z.reg.byName.Keys == {a.name, b.name}
  {
    hide Reachable, Inv, AgentName, Initial, WithRecord;
    var pid := y.reg.nextPid;
    InitialReachable(y);
    InitialFacts(y);
    var y1 := StartUnder(y, script, None, policy, a);
    var y2 := StartUnder(y1, script, Some(pid), policy, b);
    assert y2.reg.byName.Keys == {a.name, b.name};
    assert y2.reg.records[pid].children == [] + [pid + 1] == [pid + 1];
    var y3 := KillBegins(y2, pid);
    z := TaskBegins(y3, pid);
  }

  lemma MinusFirst(c: Pid, d: Pid)
    requires c != d
    ensures Minus([c, d], {c}) == [d]
  {
    assert [c, d][1..] == [d] && [d][1..] == [];
    assert Minus([d], {c}) == [d];
  }

  /** The second half: P starts D, and the kill of C is done. */
  lemma ChildJoinsLate(y: Sys, pid: Pid, script: string, policy: RestartPolicy, c: Profile) returns (z: Sys)
    requires Reachable(y) && Inv(y) && Killing(y, pid) && Sane(y, c) && c.name !in y.reg.byName
    ensures Reachable(z) && Inv(z) && z.killing == map[pid := [pid + 1]] && z.reg.records.Keys == {pid, pid + 1, pid + 2}
    ensures Links(z.reg, pid, Running, None, [pid + 2]) && Links(z.reg, pid + 1, Killed, None, [])
    ensures Links(z.reg, pid + 2, Starting, Some(pid), [])
  {
    hide Reachable, Inv, AgentName, WithRecord, Began;
    var y1 := StartUnder(y, script, Some(pid), policy, c);
    BeganKilling(y, y1, Some(pid), NewRecord(script, Some(pid), policy, c, Starting));
    assert y1.reg.records[pid].children == [pid + 1] + [pid + 2] == [pid + 1, pid + 2];
    z := ChildDies(y1, pid);
  }

  lemma BeganKilling(y: Sys, z: Sys, parent: Option<Pid>, r: Record)
    requires Began(y, z, parent, r)
    ensures z.killing == y.killing
  {
  }

  lemma ChildDies(y: Sys, pid: Pid) returns (z: Sys)
    requires Reachable(y) && Inv(y) && y.killing == map[pid := [pid + 1]] && y.reg.records.Keys == {pid, pid + 1, pid + 2}
    requires Links(y.reg, pid, Running, None, [pid + 1, pid + 2]) && Links(y.reg, pid + 1, Starting, Some(pid), [])
    requires Links(y.reg, pid + 2, Starting, Some(pid), [])
    ensures Reachable(z) && Inv(z) && z.killing == map[pid := [pid + 1]] && z.reg.records.Keys == {pid, pid + 1, pid + 2}
    ensures Links(z.reg, pid, Running, None, [pid + 2]) && Links(z.reg, pid + 1, Killed, None, [])
    ensures Links(z.reg, pid + 2, Starting, Some(pid), [])
  {
    hide Reachable, Inv, Minus;
    var y1 := KillBegins(y, pid + 1);
    z := KillEnds(y1, pid + 1, pid);
    assert z.killing == map[pid := [pid + 1]];
    MinusFirst(pid + 1, pid + 2);
  }

  /**
    P has a child C and is killed before its task has begun. While the kill waits for C, the
    task of P begins and starts another child D. The kill then ends, and strands D.
  */
  lemma LateChildIsStranded(y: Sys, script: string, policy: RestartPolicy, a: Profile, b: Profile, c: Profile) returns (z: Sys, pid: Pid, late: Pid)
    requires Initial(y) && Sane(y, a) && Sane(y, b) && Sane(y, c) && a.name != b.name && a.name != c.name && b.name != c.name
    ensures Reachable(z) && pid in z.reg.records && KillMayEnd(z, pid) && late in z.reg.records && LateChild(z, pid, late)
    ensures Stranded(FinishKill(z.reg, pid, false), late)
  {
    hide Reachable, Inv, Placeholder, AgentName, Initial;
    pid, late := y.reg.nextPid, y.reg.nextPid + 2;
    var y1 := KilledBeforeItRan(y, script, policy, a, b);
    z := ChildJoinsLate(y1, pid, script, policy, c);
  }

  // ----- A process that ends while it is being killed -----

  /**
    P raises while it is being killed. It is cleaned up, its name is taken again, and the last
    step of the kill then drops the name of the new process, which stays registered.
  */
  lemma EndDuringKillLosesAName(y: Sys, script: string, policy: RestartPolicy, a: Profile) returns (z: Sys, pid: Pid)
    requires Initial(y) && Sane(y, a)
    ensures Reachable(z) && pid in z.killing && IsActive(z.reg, pid)
    ensures var ended := Cleanup(Put(z.reg, pid, z.reg.records[pid].(state := Crashed)), pid);
            var (again, result) := Start(ended, script, None, policy, a);
            result.Ok? && pid in again.records &&
            var u := FinishKill(again, pid, false);
            IsLive(u, result.value) && u.records[result.value].registered && u.records[result.value].name == a.name && a.name !in u.byName
  {
    hide Reachable, Inv, Placeholder, AgentName, Initial, Start;
    pid := y.reg.nextPid;
    InitialReachable(y);
    InitialFacts(y);
    Begin(y, script, None, policy, a);
    z := KillBegins(Apply(y, StartStep(script, None, policy, a)), pid);
    KnownNames(z, a.name);
    NameTakenAgain(z.reg, pid, script, policy, a);
  }

  /** The end of a kill of a process that was cleaned up before drops the name that is taken again. */
  lemma NameTakenAgain(s: Reg, pid: Pid, script: string, policy: RestartPolicy, a: Profile)
    requires pid in s.records && s.records[pid].name == a.name && s.records[pid].registered && s.records[pid].parent == None
    requires s.records.Keys == {pid} && s.nextPid == pid + 1 && a.fault == NoFault
    ensures var ended := Cleanup(Put(s, pid, s.records[pid].(state := Crashed)), pid);
            var (again, result) := Start(ended, script, None, policy, a);
            result.Ok? && pid in again.records &&
            var u := FinishKill(again, pid, false);
            IsLive(u, result.value) && u.records[result.value].registered && u.records[result.value].name == a.name && a.name !in u.byName
  {
  }

  lemma KnownNames(z: Sys, name: string)
    requires Inv(z) && z.failing == map[] && AgentName(z.control, name)
    ensures name in z.reg.mailboxes ==> name in z.reg.byName
  {
    hide Placeholder;
    if name !in z.reg.byName {
      NotLeftBehind(z, name);
    }
  }
}

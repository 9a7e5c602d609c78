/**
  The registry invariant holds in every reachable state.
*/
module RegistryInvariant {
  import opened Common
  import opened Registry
  import opened RegistryKill
  import opened RegistryRestart
  import opened RestartBudget
  import opened RegistrySystem

  // ----- What the startup steps do -----

  /** A new record, listed by its parent if it has one. */
  function WithRecord(s: Reg, pid: Pid, r: Record): map<Pid, Record> {
    if r.parent.Some? && r.parent.value in s.records
    then var p := s.records[r.parent.value];
         s.records[pid := r][r.parent.value := p.(children := p.children + [pid])]
    else s.records[pid := r]
  }

  predicate Unknown(s: Reg, pid: Pid) {
    pid !in s.records && forall q | q in s.records :: pid !in s.records[q].children
  }

  lemma RollbackUndoes(s: Reg, pid: Pid, name: string, parent: Option<Pid>)
    requires Unknown(s, pid) && name !in s.byName
    ensures Rollback(s, pid, name, parent) == s.(mailboxes := s.mailboxes - {name}, tables := s.tables - {name})
  {
    assert s.records - {pid} == s.records;
    assert s.byName - {name} == s.byName;
    if parent.Some? && parent.value in s.records {
      MinusNothing(s.records[parent.value].children, {pid});
      assert s.records[parent.value := s.records[parent.value]] == s.records;
    }
  }

  /**
    A failed registration is undone exactly when the name was new to the bus and to the
    memory manager; otherwise the rollback also removes the other owner's mailbox or table.
  */
  lemma FailedCommit(s: Reg, pid: Pid, script: string, parent: Option<Pid>, policy: RestartPolicy, profile: Profile, state: ProcessState)
    requires Unknown(s, pid) && profile.name !in s.byName
    requires Commit(s, pid, script, parent, policy, profile, state).1.Err?
    ensures Commit(s, pid, script, parent, policy, profile, state).0 == s <==> profile.name !in s.mailboxes && profile.name !in s.tables
  {
    var n := profile.name;
    var (s1, ok) := RegisterResources(s, n, profile.fault);
    RollbackUndoes(s1, pid, n, parent);
    var t := Commit(s, pid, script, parent, policy, profile, state).0;
    assert t == s.(mailboxes := s1.mailboxes - {n}, tables := s1.tables - {n});
    assert n !in t.mailboxes && n !in t.tables;
    assert s1.mailboxes - {n} == s.mailboxes - {n} && s1.tables - {n} == s.tables - {n};
    if n !in s.mailboxes && n !in s.tables {
      assert s.mailboxes - {n} == s.mailboxes && s.tables - {n} == s.tables;
    }
  }

  /** An agent that takes a control-plane name fails to start, and takes the control plane's mailbox down with it. */
  lemma ReservedNameBreaksControlPlane(s: Reg, script: string, policy: RestartPolicy, profile: Profile)
    requires Unknown(s, s.nextPid) && profile.name !in s.byName && profile.name in s.mailboxes && profile.fault != SettingsFault
    ensures Start(s, script, None, policy, profile).1 == Err(RegistrationFailed)
    ensures profile.name !in Start(s, script, None, policy, profile).0.mailboxes
  {
    RollbackUndoes(s.(nextPid := s.nextPid + 1), s.nextPid, profile.name, None);
  }

  lemma SuccessfulCommit(s: Reg, pid: Pid, script: string, parent: Option<Pid>, policy: RestartPolicy, profile: Profile, state: ProcessState)
    requires Unknown(s, pid) && ParentRunning(s, parent)
    requires Enroll(s, pid, script, parent, policy, profile, state).1
    ensures Enroll(s, pid, script, parent, policy, profile, state).0
         == Reg(WithRecord(s, pid, NewRecord(script, parent, policy, profile, state)),
                s.byName[profile.name := pid], s.nextPid, s.mailboxes + {profile.name}, s.tables + {profile.name})
  {
    var r := NewRecord(script, parent, policy, profile, state);
    var records := s.records[pid := r];
    assert records[pid := r] == records;
  }

  lemma CrashedCommit(s: Reg, pid: Pid, script: string, parent: Pid, policy: RestartPolicy)
    requires Unknown(s, pid)
    ensures IsolatedCrashed(s, pid, script, Some(parent), policy)
         == s.(records := WithRecord(s, pid, CrashRecord(s, pid, script, parent, policy)))
  {
    hide Decimal;
    var r := CrashRecord(s, pid, script, parent, policy);
    var records := s.records[pid := r];
    assert records[pid := r] == records;
  }

  // ----- Links -----

  lemma UnknownFresh(y: Sys, pid: Pid)
    requires Linked(y) && pid !in y.reg.records
    ensures Unknown(y.reg, pid)
  {
  }

  lemma FrameListed(s: Reg, t: Reg)
    requires WeaklyListed(s) && Ordered(s) && SameLinks(s, t) && s.nextPid <= t.nextPid
    ensures WeaklyListed(t) && Ordered(t)
  {
    forall q, c | q in t.records && c in t.records[q].children
      ensures c in t.records && (t.records[c].parent == Some(q) || t.records[c].parent == None) && q < c
    {
      assert c in s.records[q].children;
    }
  }

  /** Steps that leave every link alone. */
  lemma LinkedFrame(y: Sys, z: Sys)
    requires Linked(y) && SameLinks(y.reg, z.reg) && y.reg.nextPid <= z.reg.nextPid
    requires forall p | p in y.reg.records :: IsActive(z.reg, p) ==> IsActive(y.reg, p)
    requires forall p | p in y.reg.records :: IsActive(y.reg, p) ==> IsActive(z.reg, p) || p in z.unorphaned
    requires y.unorphaned <= z.unorphaned
    ensures Linked(z)
  {
    hide Ordered, WeaklyListed, OlderParents, DistinctLists;
    SameOlder(y.reg, z.reg);
    SameDistinct(y.reg, z.reg);
    FrameListed(y.reg, z.reg);
    forall c | c in z.reg.records
      ensures Attached(z, c)
    {
      assert Attached(y, c);
    }
  }

  /** A new record at the end of its parent's list. */
  lemma AdmitOlder(s: Reg, t: Reg, pid: Pid, r: Record)
    requires OlderParents(s) && pid !in s.records && t.records == WithRecord(s, pid, r)
    requires r.parent.Some? ==> r.parent.value in s.records && r.parent.value < pid
    ensures OlderParents(t)
  {
    forall p {:trigger t.records[p].parent} | p in t.records && t.records[p].parent.Some?
      ensures t.records[p].parent.value in t.records && t.records[p].parent.value < p
    {
      assert p != pid ==> s.records[p].parent == t.records[p].parent;
    }
  }

  lemma AdmitListed(s: Reg, t: Reg, pid: Pid, r: Record)
    requires Ordered(s) && WeaklyListed(s) && DistinctLists(s) && Unknown(s, pid) && t.records == WithRecord(s, pid, r) && r.children == []
    requires pid < t.nextPid && s.nextPid <= t.nextPid && (r.parent.Some? ==> r.parent.value in s.records && r.parent.value < pid)
    ensures Ordered(t) && WeaklyListed(t) && DistinctLists(t)
  {
    forall q, c | q in t.records && c in t.records[q].children
      ensures c in t.records && (t.records[c].parent == Some(q) || t.records[c].parent == None) && q < c
    {
      assert c != pid ==> c in s.records[q].children;
    }
  }

  /** A new process under a live parent, or under none. */
  lemma LinkedAdmit(y: Sys, z: Sys, pid: Pid, r: Record)
    requires Linked(y) && pid !in y.reg.records && pid < z.reg.nextPid && y.reg.nextPid <= z.reg.nextPid
    requires z.reg.records == WithRecord(y.reg, pid, r) && r.children == []
    requires r.parent.Some? ==> IsLive(y.reg, r.parent.value) && r.parent.value < pid
    requires z.unorphaned == y.unorphaned
    ensures Linked(z)
  {
    hide Ordered, WeaklyListed, OlderParents, DistinctLists, Unknown;
    UnknownFresh(y, pid);
    AdmitOlder(y.reg, z.reg, pid, r);
    AdmitListed(y.reg, z.reg, pid, r);
    forall c | c in z.reg.records
      ensures Attached(z, c)
    {
      assert c != pid ==> Attached(y, c);
    }
  }

  lemma UnlinkEffect(s: Reg, pid: Pid, p: Pid)
    requires OlderParents(s) && pid in s.records && p in s.records
    ensures Unlink(s, pid).records.Keys == s.records.Keys
    ensures Unlink(s, pid).records[p]
         == if p == pid then s.records[p].(parent := None)
            else if s.records[pid].parent == Some(p) then s.records[p].(children := Minus(s.records[p].children, {pid}))
            else s.records[p]
  {
  }

  /** How a step may change the links of process `p`: forget its parent, shorten its list, or list a younger orphan or child. */
  predicate LinkStep(s: Reg, t: Reg, p: Pid)
    requires p in s.records
  {
    && p in t.records
    && (t.records[p].parent == s.records[p].parent || t.records[p].parent == None)
    && Distinct(t.records[p].children)
    && forall c | c in t.records[p].children ::
         c in s.records[p].children ||
         (p < c && c in t.records && (t.records[c].parent == Some(p) || t.records[c].parent == None))
  }

  lemma LinksStayOlder(s: Reg, t: Reg)
    requires OlderParents(s) && t.records.Keys == s.records.Keys && forall p | p in s.records :: LinkStep(s, t, p)
    ensures OlderParents(t)
  {
    forall p {:trigger t.records[p].parent} | p in t.records && t.records[p].parent.Some?
      ensures t.records[p].parent.value in t.records && t.records[p].parent.value < p
    {
      assert LinkStep(s, t, p) && s.records[p].parent == t.records[p].parent;
    }
  }

  lemma LinksStayListed(s: Reg, t: Reg)
    requires Ordered(s) && WeaklyListed(s)
    requires t.records.Keys == s.records.Keys && t.nextPid == s.nextPid && forall p | p in s.records :: LinkStep(s, t, p)
    ensures Ordered(t) && WeaklyListed(t)
  {
    forall q, c | q in t.records && c in t.records[q].children
      ensures c in t.records && (t.records[c].parent == Some(q) || t.records[c].parent == None) && q < c
    {
      assert LinkStep(s, t, q);
      if c in s.records[q].children {
        assert LinkStep(s, t, c);
      }
    }
  }

  lemma LinksStay(s: Reg, t: Reg)
    requires Ordered(s) && OlderParents(s) && WeaklyListed(s)
    requires t.records.Keys == s.records.Keys && t.nextPid == s.nextPid && forall p | p in s.records :: LinkStep(s, t, p)
    ensures Ordered(t) && OlderParents(t) && WeaklyListed(t) && DistinctLists(t)
  {
    hide Ordered, WeaklyListed, OlderParents;
    LinksStayOlder(s, t);
    LinksStayListed(s, t);
    assert forall q | q in t.records :: LinkStep(s, t, q);
  }

  /** Removing a finished process from its parent's list. */
  lemma LinkedUnlink(y: Sys, z: Sys, pid: Pid)
    requires Linked(y) && IsDone(y.reg, pid) && z == y.(reg := Unlink(y.reg, pid))
    ensures Linked(z)
  {
    var s, t := y.reg, z.reg;
    forall p | p in s.records
      ensures LinkStep(s, t, p)
    {
      UnlinkEffect(s, pid, p);
      MinusDistinct(s.records[p].children, {pid});
      forall c { MinusMember(s.records[p].children, {pid}, c); }
    }
    UnlinkEffect(s, pid, pid);
    LinksStay(s, t);
    forall c | c in t.records
      ensures Attached(z, c)
    {
      assert Attached(y, c);
      UnlinkEffect(s, pid, c);
      if s.records[c].parent.Some? && IsActive(t, c) {
        UnlinkEffect(s, pid, s.records[c].parent.value);
        MinusMember(s.records[s.records[c].parent.value].children, {pid}, c);
      }
    }
  }

  /** The last step of a kill, before the process is removed from its parent's list. */
  lemma LinkedKillEnd(y: Sys, z: Sys, pid: Pid)
    requires Linked(y) && pid in y.reg.records && KillMayEnd(y, pid) && forall c | c in y.reg.records :: !LateChild(y, pid, c)
    requires z == y.(reg := KillEnd(y.reg, pid), killing := y.killing - {pid})
    ensures Linked(z)
  {
    hide KillEnd, Ordered, WeaklyListed, OlderParents;
    var s, t := y.reg, z.reg;
    KillEndRecords(s, pid);
    forall p | p in s.records
      ensures LinkStep(s, t, p)
    {
      assert Distinct(s.records[p].children);
    }
    LinksStay(s, t);
    hide LinkStep;
    forall c | c in t.records
      ensures Attached(z, c)
    {
      assert Attached(y, c) && !LateChild(y, pid, c);
    }
  }

  /** Detaching the children of a terminal process; none of them is active. */
  lemma LinkedOrphan(y: Sys, z: Sys, pid: Pid)
    requires Linked(y) && IsDone(y.reg, pid) && forall c | c in y.reg.records[pid].children :: !IsActive(y.reg, c)
    requires z == y.(reg := Orphan(y.reg, pid), unorphaned := y.unorphaned - {pid})
    ensures Linked(z)
  {
    var s, t := y.reg, z.reg;
    forall p | p in s.records
      ensures LinkStep(s, t, p)
    {
      OrphanEffect(s, pid, p);
    }
    LinksStay(s, t);
    forall c | c in t.records
      ensures Attached(z, c)
    {
      assert Attached(y, c);
      OrphanEffect(s, pid, c);
      if s.records[c].parent.Some? && IsActive(t, c) {
        OrphanEffect(s, pid, s.records[c].parent.value);
      }
    }
  }

  lemma OrphanEffect(s: Reg, pid: Pid, p: Pid)
    requires Ordered(s) && pid in s.records && p in s.records
    ensures Orphan(s, pid).records.Keys == s.records.Keys
    ensures var r := if p in s.records[pid].children then s.records[p].(parent := None) else s.records[p];
            Orphan(s, pid).records[p] == if p == pid then r.(children := []) else r
  {
  }

  /** Replacing keeps every other entry, and adds at most the new PID. */
  lemma ReplaceKeeps(xs: seq<Pid>, stale: Pid, renewed: Pid, x: Pid)
    ensures Distinct(Replace(xs, stale, renewed))
    ensures x in Replace(xs, stale, renewed) ==> x in xs || x == renewed
    ensures Distinct(xs) && x in xs && x != stale ==> x in Replace(xs, stale, renewed)
  {
    var ys := if stale in xs then xs[IndexOf(xs, stale) := renewed] else if renewed in xs then xs else xs + [renewed];
    DedupDistinct(ys);
    if x in xs && x != stale {
      var i :| 0 <= i < |xs| && xs[i] == x;
      assert ys[i] == x;
    }
  }

  lemma RelinkSteps(s: Reg, parent: Pid, stale: Pid, renewed: Pid, p: Pid)
    requires parent in s.records && renewed in s.records && parent < renewed && p in s.records && Distinct(s.records[p].children)
    requires s.records[renewed].parent == Some(parent) || s.records[renewed].parent == None
    ensures LinkStep(s, Relink(s, parent, stale, renewed), p)
  {
    hide Replace;
    var xs := s.records[parent].children;
    if p == parent {
      ReplaceKeeps(xs, stale, renewed, stale);
      forall x { ReplaceKeeps(xs, stale, renewed, x); }
    }
  }

  lemma RelinkAttached(y: Sys, z: Sys, parent: Pid, stale: Pid, renewed: Pid, c: Pid)
    requires parent in y.reg.records && IsDone(y.reg, stale) && Distinct(y.reg.records[parent].children)
    requires z == y.(reg := Relink(y.reg, parent, stale, renewed)) && c in y.reg.records && Attached(y, c)
    ensures Attached(z, c)
  {
    hide Replace;
    ReplaceKeeps(y.reg.records[parent].children, stale, renewed, c);
  }

  /** Putting a restarted process into its supervisor's list in place of the finished one. */
  lemma LinkedRelink(y: Sys, z: Sys, parent: Pid, stale: Pid, renewed: Pid)
    requires Linked(y) && Enabled(y, RelinkStep(parent, stale, renewed))
    requires z == y.(reg := Relink(y.reg, parent, stale, renewed))
    ensures Linked(z)
  {
    hide Ordered, WeaklyListed, OlderParents, LinkStep, Attached, Distinct, Replace;
    var s, t := y.reg, z.reg;
    forall p | p in s.records
      ensures LinkStep(s, t, p)
    {
      assert Distinct(s.records[p].children);
      RelinkSteps(s, parent, stale, renewed, p);
    }
    LinksStay(s, t);
    forall c | c in t.records
      ensures Attached(z, c)
    {
      assert Attached(y, c);
      RelinkAttached(y, z, parent, stale, renewed, c);
    }
  }

  // ----- Names -----

  /** Steps that neither take nor release a name. */
  lemma NamedFrame(y: Sys, z: Sys)
    requires Named(y) && z.control == y.control && z.failing == y.failing && z.reg.records.Keys == y.reg.records.Keys
    requires z.reg.byName == y.reg.byName && z.reg.mailboxes == y.reg.mailboxes && z.reg.tables == y.reg.tables
    requires forall p | p in y.reg.records ::
               z.reg.records[p].name == y.reg.records[p].name && z.reg.records[p].registered == y.reg.records[p].registered &&
               Holds(z, p) == Holds(y, p)
    ensures Named(z)
  {
    assert forall p | p in z.reg.records :: Holds(z, p) == Holds(y, p);
  }

  /** `t` has one more record, and the names and registrations of the others are unchanged. */
  predicate OneMore(y: Sys, z: Sys, pid: Pid, r: Record) {
    && z.reg.records.Keys == y.reg.records.Keys + {pid} && z.reg.records[pid].name == r.name
    && z.reg.records[pid].registered == r.registered && Holds(z, pid) == r.registered
    && forall p | p in y.reg.records ::
         z.reg.records[p].name == y.reg.records[p].name && z.reg.records[p].registered == y.reg.records[p].registered && Holds(z, p) == Holds(y, p)
  }

  lemma AdmitOneMore(y: Sys, z: Sys, pid: Pid, r: Record)
    requires pid !in y.reg.records && z.dying == y.dying && pid !in y.dying
    requires z.reg.records == WithRecord(y.reg, pid, r) && (r.registered <==> r.state.Active())
    ensures OneMore(y, z, pid, r)
  {
  }

  lemma TableAdmit(y: Sys, z: Sys, pid: Pid, r: Record)
    requires EntriesRight(y.reg) && TableComplete(y.reg) && pid !in y.reg.records && OneMore(y, z, pid, r) && r.registered
    requires r.name !in y.reg.byName && z.reg.byName == y.reg.byName[r.name := pid]
    ensures EntriesRight(z.reg) && TableComplete(z.reg)
  {
    forall p | p in z.reg.records && z.reg.records[p].registered
      ensures z.reg.records[p].name in z.reg.byName && z.reg.byName[z.reg.records[p].name] == p
    {
      assert p != pid ==> y.reg.records[p].registered && y.reg.records[p].name in y.reg.byName;
    }
  }

  /** A startup that took a new agent name. */
  lemma NamedAdmit(y: Sys, z: Sys, pid: Pid, r: Record)
    requires Named(y) && pid !in y.reg.records && z.control == y.control && z.failing == y.failing && z.dying == y.dying && pid !in y.dying
    requires z.reg.records == WithRecord(y.reg, pid, r) && r.registered && r.state.Active()
    requires r.name !in y.reg.byName && AgentName(y.control, r.name)
    requires z.reg.byName == y.reg.byName[r.name := pid]
    requires z.reg.mailboxes == y.reg.mailboxes + {r.name} && z.reg.tables == y.reg.tables + {r.name}
    ensures Named(z)
  {
    AdmitOneMore(y, z, pid, r);
    TableAdmit(y, z, pid, r);
    hide WithRecord, AgentName;
    assert z.reg.byName.Keys == y.reg.byName.Keys + {r.name};
  }

  /** A crashed isolated startup takes no name. */
  lemma NamedCrash(y: Sys, z: Sys, pid: Pid, r: Record)
    requires Named(y) && pid !in y.reg.records && z.control == y.control && z.failing == y.failing && z.dying == y.dying && pid !in y.dying
    requires z.reg == y.reg.(records := WithRecord(y.reg, pid, r)) && !r.registered && !r.state.Active()
    ensures Named(z)
  {
    AdmitOneMore(y, z, pid, r);
    hide WithRecord, AgentName;
    assert TableComplete(z.reg) && EntriesRight(z.reg);
  }

  /** Cleaning up a process that holds its name releases exactly that name. */
  lemma NamedCleanup(y: Sys, z: Sys, pid: Pid)
    requires Named(y) && IsDone(y.reg, pid) && pid in y.dying
    requires z == y.(reg := Cleanup(y.reg, pid), dying := y.dying - {pid})
    ensures Named(z)
  {
    var s, t := y.reg, z.reg;
    var n := s.records[pid].name;
    assert s.records[pid].registered && s.byName[n] == pid;
    assert forall p | p in s.records && p != pid :: t.records[p] == s.records[p] && Holds(z, p) == Holds(y, p);
    forall p | p in s.records && s.records[p].registered && p != pid
      ensures s.records[p].name != n
    {
      assert s.byName[s.records[p].name] == p;
    }
    assert t.byName.Keys == s.byName.Keys - {n};
    assert n !in y.control;
  }

  lemma NamedKillEnd(y: Sys, z: Sys, pid: Pid)
    requires Consistent(y) && Named(y) && pid in y.reg.records && pid in y.killing
    requires z == y.(reg := KillEnd(y.reg, pid), killing := y.killing - {pid})
    ensures Named(z)
  {
    hide Named, Consistent, Cleanup;
    KilledIsActive(y, pid);
    var dead := y.(reg := Put(y.reg, pid, y.reg.records[pid].(state := Killed)), dying := y.dying + {pid});
    DeadNamed(y, dead, pid);
    var clean := dead.(reg := Cleanup(dead.reg, pid), dying := dead.dying - {pid});
    NamedCleanup(dead, clean, pid);
    assert clean.dying == y.dying;
    CleanupKeys(dead.reg, pid);
    ChildlessNamed(clean, z, pid);
  }

  lemma CleanupKeys(s: Reg, pid: Pid)
    requires pid in s.records
    ensures Cleanup(s, pid).records.Keys == s.records.Keys
  {
  }

  lemma DeadNamed(y: Sys, z: Sys, pid: Pid)
    requires Named(y) && pid in y.reg.records && IsActive(y.reg, pid)
    requires z == y.(reg := Put(y.reg, pid, y.reg.records[pid].(state := Killed)), dying := y.dying + {pid})
    ensures Named(z)
  {
    hide Named;
    assert forall p | p in y.reg.records && p != pid :: z.reg.records[p] == y.reg.records[p];
    NamedFrame(y, z);
  }

  lemma ChildlessNamed(y: Sys, z: Sys, pid: Pid)
    requires Named(y) && pid in y.reg.records && z.control == y.control && z.failing == y.failing && z.dying == y.dying
    requires z.reg == Put(y.reg, pid, y.reg.records[pid].(children := []))
    ensures Named(z)
  {
    hide Named;
    assert forall p | p in y.reg.records && p != pid :: z.reg.records[p] == y.reg.records[p];
    NamedFrame(y, z);
  }

  lemma KilledIsActive(y: Sys, pid: Pid)
    requires Consistent(y) && pid in y.killing
    ensures IsActive(y.reg, pid) && pid !in y.dying
  {
  }

  /**
    Cleanup keeps every registered process in the name table exactly when the entry it pops
    is the process's own, or there is none.
  */
  lemma CleanupKeepsTable(s: Reg, pid: Pid)
    requires pid in s.records && TableComplete(s)
    requires forall n | n in s.byName :: s.byName[n] in s.records && s.records[s.byName[n]].registered && s.records[s.byName[n]].name == n
    ensures TableComplete(Cleanup(s, pid)) <==>
              s.records[pid].name !in s.byName || s.byName[s.records[pid].name] == pid
  {
    var n, t := s.records[pid].name, Cleanup(s, pid);
    if n in s.byName && s.byName[n] != pid {
      var other := s.byName[n];
      assert t.records[other].registered && t.records[other].name == n && n !in t.byName;
    } else {
      forall p | p in t.records && t.records[p].registered
        ensures t.records[p].name in t.byName && t.byName[t.records[p].name] == p
      {
        assert s.records[p].registered && s.byName[s.records[p].name] == p;
      }
    }
  }

  // ----- Numbers -----

  lemma NumberedFrame(y: Sys, z: Sys)
    requires Numbered(y) && z.used == y.used && z.reg.records.Keys == y.reg.records.Keys && y.reg.nextPid == z.reg.nextPid
    requires z.pending == y.pending && z.failing == y.failing
    ensures Numbered(z)
  {
  }

  // ----- Budgets -----

  /** The parts of a record that the budget depends on. */
  predicate SameBudget(r: Record, t: Record) {
    t.history == r.history && t.window == r.window && t.maxRestarts == r.maxRestarts
  }

  lemma LimitedFrame(y: Sys, z: Sys)
    requires Limited(y) && y.now <= z.now
    requires forall p | p in y.reg.records :: p in z.reg.records && p in z.log && z.log[p] == y.log[p] && SameBudget(y.reg.records[p], z.reg.records[p])
    requires forall p | p in z.reg.records && p !in y.reg.records :: p in z.log && z.log[p] == [] && z.reg.records[p].history == []
    ensures Limited(z)
  {
    forall p | p in z.reg.records
      ensures p in z.log && Budgeted(z.reg.records[p], z.log[p], z.now)
    {
      if p in y.reg.records {
        LaterBudgeted(y.reg.records[p], y.log[p], y.now, z.now);
      }
    }
  }

  lemma LimitedCharge(y: Sys, z: Sys, parent: Pid, attempts: nat, checkedAt: real)
    requires Limited(y) && parent in y.reg.records && y.now <= checkedAt <= z.now
    requires WithinBudget(Prune(y.reg.records[parent], checkedAt), attempts)
    requires z.reg.records == y.reg.records[parent := Charge(Prune(y.reg.records[parent], checkedAt), attempts, z.now)]
    requires parent in y.log && z.log == y.log[parent := y.log[parent] + Repeat(z.now, attempts)]
    ensures Limited(z)
  {
    forall p | p in z.reg.records
      ensures p in z.log && Budgeted(z.reg.records[p], z.log[p], z.now)
    {
      if p == parent {
        PruneKeeps(y.reg.records[p], y.log[p], y.now, checkedAt);
        ChargeKeeps(Prune(y.reg.records[p], checkedAt), y.log[p], checkedAt, attempts, z.now);
      } else {
        LaterBudgeted(y.reg.records[p], y.log[p], y.now, z.now);
      }
    }
  }

  /** Pruning without charging, on the way to an escalation. */
  lemma LimitedPrune(y: Sys, z: Sys, parent: Pid, checkedAt: real)
    requires Limited(y) && parent in y.reg.records && y.now <= checkedAt <= z.now && z.log == y.log
    requires z.reg.records == y.reg.records[parent := Prune(y.reg.records[parent], checkedAt).(escalated := true)]
    ensures Limited(z)
  {
    forall p | p in z.reg.records
      ensures p in z.log && Budgeted(z.reg.records[p], z.log[p], z.now)
    {
      if p == parent {
        PruneKeeps(y.reg.records[p], y.log[p], y.now, checkedAt);
        LaterBudgeted(Prune(y.reg.records[p], checkedAt), y.log[p], checkedAt, z.now);
      } else {
        LaterBudgeted(y.reg.records[p], y.log[p], y.now, z.now);
      }
    }
  }

  // ----- Every step keeps the invariant -----

  /** A registry that differs only in the next PID, in leftovers and in finished startups. */
  lemma StartupsKeep(y: Sys, z: Sys)
    requires Inv(y)
    requires z == y.(reg := y.reg.(nextPid := z.reg.nextPid, mailboxes := z.reg.mailboxes, tables := z.reg.tables),
                     pending := z.pending, failing := z.failing)
    requires y.reg.nextPid <= z.reg.nextPid && Named(z) && Numbered(z)
    ensures Inv(z)
  {
    hide Linked, Named, Numbered, Limited, AgentName, Consistent;
    assert SameLinks(y.reg, z.reg);
    LinkedFrame(y, z);
    LogMatches(y);
    LimitedFrame(y, z);
    ConsistentFrame(y, z);
  }

  lemma RenumberKeeps(y: Sys, z: Sys)
    requires Inv(y) && z == y.(reg := y.reg.(nextPid := z.reg.nextPid), pending := z.pending)
    requires y.reg.nextPid <= z.reg.nextPid && Numbered(z)
    ensures Inv(z)
  {
    hide Linked, Named, Numbered, Limited, AgentName, Consistent;
    NamedFrame(y, z);
    StartupsKeep(y, z);
  }

  lemma LogMatches(y: Sys)
    requires Consistent(y)
    ensures y.log.Keys == y.reg.records.Keys && y.dying <= y.unorphaned
  {
  }

  lemma ConsistentFrame(y: Sys, z: Sys)
    requires Consistent(y) && z.killing == y.killing && z.dying == y.dying && z.unorphaned == y.unorphaned && z.log.Keys == y.log.Keys
    requires z.reg.records.Keys == y.reg.records.Keys
    requires forall p | p in y.reg.records :: z.reg.records[p].state == y.reg.records[p].state
    ensures Consistent(z)
  {
  }

  predicate MayJoin(y: Sys, pid: Pid, parent: Option<Pid>) {
    && pid !in y.used && pid < y.reg.nextPid && pid !in y.pending && pid !in y.failing
    && (parent.Some? ==> IsLive(y.reg, parent.value) && parent.value < pid)
  }

  lemma JoinNumbered(y: Sys, z: Sys, pid: Pid, r: Record)
    requires Numbered(y) && pid !in y.used && pid < y.reg.nextPid && pid !in y.pending
    requires z.reg.records == WithRecord(y.reg, pid, r) && z.reg.nextPid == y.reg.nextPid
    requires z.used == y.used + {pid} && z.pending == y.pending && z.failing == y.failing && pid !in y.failing
    ensures Numbered(z)
  {
  }

  lemma JoinLimited(y: Sys, z: Sys, pid: Pid, r: Record)
    requires Limited(y) && pid !in y.reg.records && z.now == y.now && z.log == y.log[pid := []] && r.history == []
    requires z.reg.records == WithRecord(y.reg, pid, r)
    ensures Limited(z)
  {
    LimitedFrame(y, z);
  }

  lemma JoinConsistent(y: Sys, z: Sys, pid: Pid, r: Record)
    requires Consistent(y) && pid !in y.reg.records && z.log == y.log[pid := []] && r.state != Stopping
    requires z.reg.records == WithRecord(y.reg, pid, r)
    requires z.killing == y.killing && z.dying == y.dying && z.unorphaned == y.unorphaned
    ensures Consistent(z)
  {
    assert forall p | p in y.reg.records :: z.reg.records[p].state == y.reg.records[p].state;
  }

  /** A successful startup. */
  lemma EnrollKeeps(y: Sys, pid: Pid, script: string, parent: Option<Pid>, policy: RestartPolicy, profile: Profile, state: ProcessState)
    requires Inv(y) && MayJoin(y, pid, parent) && state.Live()
    requires profile.name !in y.reg.byName && AgentName(y.control, profile.name)
    requires Enroll(y.reg, pid, script, parent, policy, profile, state).1
    ensures Inv(Admit(y, Enroll(y.reg, pid, script, parent, policy, profile, state).0, pid))
  {
    var t := Enroll(y.reg, pid, script, parent, policy, profile, state).0;
    UnknownFresh(y, pid);
    SuccessfulCommit(y.reg, pid, script, parent, policy, profile, state);
    hide Enroll, AgentName;
    var r := NewRecord(script, parent, policy, profile, state);
    var z := Admit(y, t, pid);
    assert pid in t.records;
    JoinConsistent(y, z, pid, r);
    LinkedAdmit(y, z, pid, r);
    NamedAdmit(y, z, pid, r);
    JoinNumbered(y, z, pid, r);
    JoinLimited(y, z, pid, r);
  }

  /** Forgetting a name that is neither an agent's nor the control plane's. */
  lemma NamedForget(y: Sys, z: Sys, n: string)
    requires Named(y) && n !in y.reg.byName && n !in y.control
    requires z == y.(reg := y.reg.(mailboxes := y.reg.mailboxes - {n}, tables := y.reg.tables - {n}))
    ensures Named(z)
  {
    hide AgentName, Placeholder;
    assert forall p | p in y.reg.records :: Holds(z, p) == Holds(y, p);
    assert forall m :: LeftBehind(y, m) <==> LeftBehind(z, m);
  }

  /** What a failed registration leaves on the bus and in the memory manager. */
  lemma FailedEnroll(s: Reg, pid: Pid, script: string, parent: Option<Pid>, policy: RestartPolicy, profile: Profile, state: ProcessState)
    requires !Enroll(s, pid, script, parent, policy, profile, state).1
    ensures var t := Enroll(s, pid, script, parent, policy, profile, state).0;
            && t == s.(mailboxes := t.mailboxes, tables := t.tables)
            && s.mailboxes <= t.mailboxes <= s.mailboxes + {profile.name} && s.tables <= t.tables <= s.tables + {profile.name}
  {
  }

  lemma CommitKeeps(y: Sys, pid: Pid, script: string, parent: Option<Pid>, policy: RestartPolicy, profile: Profile, state: ProcessState)
    requires Inv(y) && MayJoin(y, pid, parent) && state.Live()
    requires profile.name !in y.reg.byName && AgentName(y.control, profile.name)
    ensures Inv(Admit(y, Commit(y.reg, pid, script, parent, policy, profile, state).0, pid))
  {
    if Enroll(y.reg, pid, script, parent, policy, profile, state).1 {
      EnrollKeeps(y, pid, script, parent, policy, profile, state);
    } else {
      FailedCommitKeeps(y, pid, script, parent, policy, profile, state);
    }
  }

  lemma FailedCommitKeeps(y: Sys, pid: Pid, script: string, parent: Option<Pid>, policy: RestartPolicy, profile: Profile, state: ProcessState)
    requires Inv(y) && MayJoin(y, pid, parent) && state.Live() && !Enroll(y.reg, pid, script, parent, policy, profile, state).1
    requires profile.name !in y.reg.byName && AgentName(y.control, profile.name)
    ensures Inv(Admit(y, Commit(y.reg, pid, script, parent, policy, profile, state).0, pid))
  {
    hide Linked, Named, Numbered, Limited, Consistent, Enroll, Rollback, Placeholder;
    var n, s1 := profile.name, Enroll(y.reg, pid, script, parent, policy, profile, state).0;
    UnusedUnknown(y, pid);
    UnknownFresh(y, pid);
    FailedEnroll(y.reg, pid, script, parent, policy, profile, state);
    RollbackUndoes(s1, pid, n, parent);
    var z := Admit(y, Commit(y.reg, pid, script, parent, policy, profile, state).0, pid);
    assert s1.mailboxes - {n} == y.reg.mailboxes - {n} && s1.tables - {n} == y.reg.tables - {n};
    NamedForget(y, z, n);
    NumberedFrame(y, z);
    StartupsKeep(y, z);
  }

  /** The PID that a startup takes. */
  lemma NextMayJoin(y: Sys, parent: Option<Pid>)
    requires Numbered(y) && ParentRunning(y.reg, parent)
    ensures var z := y.(reg := y.reg.(nextPid := y.reg.nextPid + 1));
            Numbered(z) && MayJoin(z, y.reg.nextPid, parent)
    ensures y.reg.nextPid !in y.reg.records
  {
  }

  lemma NextIsFree(y: Sys)
    requires Numbered(y)
    ensures y.reg.nextPid !in y.reg.records
  {
  }

  lemma StartKeeps(y: Sys, script: string, parent: Option<Pid>, policy: RestartPolicy, profile: Profile)
    requires Inv(y) && AgentName(y.control, profile.name)
    ensures Inv(Admit(y, Start(y.reg, script, parent, policy, profile).0, y.reg.nextPid))
  {
    hide Linked, Named, Numbered, Limited, AgentName, Consistent, Commit, MayJoin;
    var s := y.reg;
    NextIsFree(y);
    if profile.fault != SettingsFault && ParentRunning(s, parent) && profile.name !in s.byName {
      var y0 := y.(reg := s.(nextPid := s.nextPid + 1));
      NextMayJoin(y, parent);
      RenumberKeeps(y, y0);
      CommitKeeps(y0, s.nextPid, script, parent, policy, profile, Starting);
    }
  }

  lemma DropPending(y: Sys, pid: Pid)
    requires Inv(y) && pid in y.pending
    ensures Inv(y.(pending := y.pending - {pid}))
    ensures var parent := y.pending[pid];
            pid !in y.used && pid < y.reg.nextPid && pid !in y.failing && (parent.Some? ==> parent.value < pid)
  {
    hide AgentName;
    RenumberKeeps(y, y.(pending := y.pending - {pid}));
  }

  lemma PlaceholderRollback(y: Sys, pid: Pid, parent: Option<Pid>)
    requires Inv(y) && pid !in y.used
    ensures Rollback(y.reg, pid, Placeholder(pid), parent) == y.reg
  {
    UnknownFresh(y, pid);
    var n := Placeholder(pid);
    assert n !in y.reg.byName;
    RollbackUndoes(y.reg, pid, n, parent);
    assert n !in y.reg.mailboxes && n !in y.reg.tables;
  }

  /** A failed section leaves at most its own name behind. */
  lemma NamedFailing(y: Sys, z: Sys, pid: Pid, name: string)
    requires Named(y) && pid !in y.failing && z.control == y.control && z.dying == y.dying
    requires z.reg == y.reg.(mailboxes := z.reg.mailboxes, tables := z.reg.tables)
    requires pid in z.failing && z.failing[pid].name == name && z.failing - {pid} == y.failing
    requires y.reg.mailboxes <= z.reg.mailboxes <= y.reg.mailboxes + {name} && y.reg.tables <= z.reg.tables <= y.reg.tables + {name}
    requires AgentName(y.control, name) ||
             (name == Placeholder(pid) && z.reg.mailboxes == y.reg.mailboxes && z.reg.tables == y.reg.tables)
    ensures Named(z)
  {
    hide AgentName, Placeholder;
    assert forall p | p in y.reg.records :: Holds(z, p) == Holds(y, p);
    assert forall p | p in y.failing :: p in z.failing && z.failing[p] == y.failing[p];
    assert forall p | p in z.failing :: p == pid || (p in y.failing && z.failing[p] == y.failing[p]);
    assert AgentName(y.control, name) ==> LeftBehind(z, name);
    assert forall m | LeftBehind(y, m) :: LeftBehind(z, m);
  }

  lemma FailingNumbered(y: Sys, z: Sys, pid: Pid)
    requires Numbered(y) && pid in y.pending && z.used == y.used && z.reg.records == y.reg.records && z.reg.nextPid == y.reg.nextPid
    requires z.pending == y.pending - {pid} && z.failing.Keys == y.failing.Keys + {pid}
    ensures Numbered(z)
  {
  }

  lemma FailingKeeps(y: Sys, z: Sys, pid: Pid, name: string)
    requires Inv(y) && pid in y.pending && pid in z.failing && z.failing[pid].name == name
    requires z == y.(reg := y.reg.(mailboxes := z.reg.mailboxes, tables := z.reg.tables),
                     pending := y.pending - {pid}, failing := y.failing[pid := z.failing[pid]])
    requires y.reg.mailboxes <= z.reg.mailboxes <= y.reg.mailboxes + {name} && y.reg.tables <= z.reg.tables <= y.reg.tables + {name}
    requires AgentName(y.control, name) ||
             (name == Placeholder(pid) && z.reg.mailboxes == y.reg.mailboxes && z.reg.tables == y.reg.tables)
    ensures Inv(z)
  {
    hide Linked, Named, Numbered, Limited, Consistent, AgentName, Placeholder;
    DropPending(y, pid);
    FailingNumbered(y, z, pid);
    assert z.failing - {pid} == y.failing;
    NamedFailing(y, z, pid, name);
    StartupsKeep(y, z);
  }

  lemma ReadyKeeps(y: Sys, step: Step)
    requires Inv(y) && step.ReadyStep? && Enabled(y, step)
    ensures Inv(Apply(y, step))
  {
    hide Linked, Named, Numbered, Limited, Consistent, AgentName, Placeholder, Enroll, MayJoin;
    var pid, profile, parent := step.pid, step.profile, y.pending[step.pid];
    var y0 := y.(pending := y.pending - {pid});
    DropPending(y, pid);
    var (t, outcome) := ReadySection(y.reg, pid, step.script, parent, step.policy, profile);
    if outcome.Joined? {
      ReadyMayJoin(y, pid);
      EnrollKeeps(y0, pid, step.script, parent, step.policy, profile, Running);
    } else {
      if ParentRunning(y.reg, parent) && profile.name !in y.reg.byName && profile.fault != SettingsFault {
        FailedEnroll(y.reg, pid, step.script, parent, step.policy, profile, Running);
      }
      FailingKeeps(y, Apply(y, step), pid, outcome.name);
    }
  }

  lemma ReadyMayJoin(y: Sys, pid: Pid)
    requires Inv(y) && pid in y.pending && ParentRunning(y.reg, y.pending[pid])
    ensures MayJoin(y.(pending := y.pending - {pid}), pid, y.pending[pid])
  {
  }

  // ----- Late rollbacks -----

  /** A rollback of a name that nobody holds releases at most what the failed section left behind. */
  lemma NamedRollback(y: Sys, pid: Pid)
    requires Named(y) && pid in y.failing && y.failing[pid].name !in y.reg.byName && Unknown(y.reg, pid)
    ensures Named(RolledBack(y, pid))
  {
    hide Rollback, Placeholder, Unknown;
    var n, z := y.failing[pid].name, RolledBack(y, pid);
    RollbackUndoes(y.reg, pid, n, y.failing[pid].parent);
    assert n !in y.control;
    assert forall p | p in y.reg.records :: Holds(z, p) == Holds(y, p);
    assert forall p | p in z.failing :: p in y.failing && z.failing[p] == y.failing[p];
    forall m | m != n && LeftBehind(y, m)
      ensures LeftBehind(z, m)
    {
      var p :| p in y.failing && y.failing[p].name == m;
      assert p in z.failing && z.failing[p].name == m;
    }
  }

  lemma RollbackKeeps(y: Sys, pid: Pid)
    requires Inv(y) && pid in y.failing && y.failing[pid].name !in y.reg.byName
    ensures Inv(RolledBack(y, pid))
  {
    FailingIsUnknown(y, pid);
    NamedRollback(y, pid);
    RollbackUndoes(y.reg, pid, y.failing[pid].name, y.failing[pid].parent);
    hide Rollback;
    assert Numbered(RolledBack(y, pid));
    hide Linked, Named, Numbered, Limited, Consistent;
    StartupsKeep(y, RolledBack(y, pid));
  }

  lemma FailingIsUnknown(y: Sys, pid: Pid)
    requires Inv(y) && pid in y.failing
    ensures Unknown(y.reg, pid) && pid !in y.used
  {
    UnknownFresh(y, pid);
  }

  /**
    The late rollback of a failed isolated startup keeps the invariant exactly when nobody
    holds its name by then: it removes the name's entry without looking whose it is.
  */
  lemma LateRollbackExactly(y: Sys, pid: Pid)
    requires Inv(y) && pid in y.failing
    ensures Inv(RolledBack(y, pid)) <==> y.failing[pid].name !in y.reg.byName
  {
    var n := y.failing[pid].name;
    if n !in y.reg.byName {
      RollbackKeeps(y, pid);
    } else {
      FailingIsUnknown(y, pid);
      RollbackPops(y, pid);
    }
  }

  /** The process that holds the name stays registered, without its entry, its mailbox and its table. */
  lemma RollbackPops(y: Sys, pid: Pid)
    requires Named(y) && pid in y.failing && Unknown(y.reg, pid) && y.failing[pid].name in y.reg.byName
    ensures var n, s := y.failing[pid].name, RolledBack(y, pid).reg;
            var owner := y.reg.byName[n];
            && owner in s.records && s.records[owner].registered && s.records[owner].name == n && s.records[owner].state == y.reg.records[owner].state
            && n !in s.byName && n !in s.mailboxes && n !in s.tables
    ensures !Named(RolledBack(y, pid))
  {
    hide Placeholder, AgentName;
  }

  /** The record of an isolated process that crashed during startup. */
  function CrashRecord(s: Reg, pid: Pid, script: string, parent: Pid, policy: RestartPolicy): Record {
    Record("<crashed:" + Decimal(pid) + ">", script, Crashed, if IsLive(s, parent) then Some(parent) else None,
           [], false, policy, OneForOne, 3, 60.0, 0, [], false)
  }

  lemma CrashKeeps(y: Sys, pid: Pid, script: string, policy: RestartPolicy)
    requires Inv(y) && pid in y.pending
    ensures Inv(Admit(y.(pending := y.pending - {pid}), IsolatedCrashed(y.reg, pid, script, y.pending[pid], policy), pid))
  {
    hide Linked, Named, Numbered, Limited, AgentName, Consistent, Decimal, Rollback, CrashRecord;
    var y0, parent := y.(pending := y.pending - {pid}), y.pending[pid];
    DropPending(y, pid);
    if parent.None? {
      PlaceholderRollback(y0, pid, parent);
    } else {
      CrashJoins(y0, pid, script, parent.value, policy);
    }
  }

  lemma CrashJoins(y: Sys, pid: Pid, script: string, parent: Pid, policy: RestartPolicy)
    requires Inv(y) && pid !in y.used && pid < y.reg.nextPid && pid !in y.pending && pid !in y.failing && parent < pid
    ensures Inv(Admit(y, IsolatedCrashed(y.reg, pid, script, Some(parent), policy), pid))
  {
    hide Linked, Named, Numbered, Limited, AgentName, Decimal, Rollback, CrashRecord, IsolatedCrashed, Consistent;
    UnusedUnknown(y, pid);
    UnknownFresh(y, pid);
    CrashedCommit(y.reg, pid, script, parent, policy);
    var r := CrashRecord(y.reg, pid, script, parent, policy);
    CrashRecordIs(y.reg, pid, script, parent, policy);
    var z := Admit(y, IsolatedCrashed(y.reg, pid, script, Some(parent), policy), pid);
    WithRecordHas(y.reg, pid, r);
    JoinConsistent(y, z, pid, r);
    LinkedAdmit(y, z, pid, r);
    NamedCrash(y, z, pid, r);
    JoinNumbered(y, z, pid, r);
    JoinLimited(y, z, pid, r);
  }

  lemma CrashRecordIs(s: Reg, pid: Pid, script: string, parent: Pid, policy: RestartPolicy)
    ensures var r := CrashRecord(s, pid, script, parent, policy);
            && r.state == Crashed && r.children == [] && r.history == [] && !r.registered
            && (r.parent.Some? ==> r.parent.value == parent && IsLive(s, parent))
  {
  }

  lemma WithRecordHas(s: Reg, pid: Pid, r: Record)
    ensures pid in WithRecord(s, pid, r)
  {
  }

  lemma UnusedUnknown(y: Sys, pid: Pid)
    requires Numbered(y) && Consistent(y) && pid !in y.used
    ensures pid !in y.reg.records && pid !in y.dying
  {
  }

  lemma FailKeeps(y: Sys, pid: Pid)
    requires Inv(y) && pid in y.pending
    ensures Inv(y.(pending := y.pending - {pid}, reg := Rollback(y.reg, pid, Placeholder(pid), y.pending[pid])))
  {
    DropPending(y, pid);
    PlaceholderRollback(y.(pending := y.pending - {pid}), pid, y.pending[pid]);
  }

  /** How a step that moves process `pid` through its states may change its record. */
  predicate StateStep(y: Sys, z: Sys, pid: Pid) {
    && pid in y.reg.records && z.reg.records.Keys == y.reg.records.Keys
    && (forall p | p in y.reg.records && p != pid :: z.reg.records[p] == y.reg.records[p])
    && z.reg.records[pid] == y.reg.records[pid].(state := z.reg.records[pid].state)
    && z.reg.nextPid == y.reg.nextPid && z.reg.byName == y.reg.byName
    && z.reg.mailboxes == y.reg.mailboxes && z.reg.tables == y.reg.tables
    && z.control == y.control && z.used == y.used && z.pending == y.pending && z.failing == y.failing && z.now == y.now && z.log == y.log
  }

  lemma StateStepKeeps(y: Sys, z: Sys, pid: Pid)
    requires Linked(y) && Named(y) && Numbered(y) && Limited(y) && y.log.Keys == y.reg.records.Keys && StateStep(y, z, pid)
    requires Holds(z, pid) == Holds(y, pid) && forall p | p != pid :: p in z.dying <==> p in y.dying
    requires IsActive(z.reg, pid) ==> IsActive(y.reg, pid)
    requires IsActive(y.reg, pid) ==> IsActive(z.reg, pid) || pid in z.unorphaned
    requires y.unorphaned <= z.unorphaned
    ensures Linked(z) && Named(z) && Numbered(z) && Limited(z)
  {
    hide Linked, Named, Numbered, Limited, AgentName;
    assert SameLinks(y.reg, z.reg);
    LinkedFrame(y, z);
    NamedFrame(y, z);
    NumberedFrame(y, z);
    LimitedFrame(y, z);
  }

  lemma TaskStartsKeeps(y: Sys, pid: Pid)
    requires Inv(y) && IsActive(y.reg, pid)
    ensures Inv(y.(reg := Put(y.reg, pid, y.reg.records[pid].(state := Running))))
  {
    hide Linked, Named, Numbered, Limited, AgentName, Consistent;
    var z := y.(reg := Put(y.reg, pid, y.reg.records[pid].(state := Running)));
    LogMatches(y);
    StateStepKeeps(y, z, pid);
    StartedConsistent(y, z, pid);
  }

  lemma StartedConsistent(y: Sys, z: Sys, pid: Pid)
    requires Consistent(y) && IsActive(y.reg, pid)
    requires z == y.(reg := Put(y.reg, pid, y.reg.records[pid].(state := Running)))
    ensures Consistent(z)
  {
  }

  function Ended(y: Sys, pid: Pid, abnormal: bool): Sys
    requires pid in y.reg.records
  {
    y.(reg := Put(y.reg, pid, y.reg.records[pid].(state := if abnormal then Crashed else Exited)),
       dying := y.dying + {pid}, unorphaned := y.unorphaned + {pid})
  }

  lemma EndedConsistent(y: Sys, pid: Pid, abnormal: bool)
    requires Consistent(y) && pid in y.reg.records && y.reg.records[pid].state == Running && pid !in y.killing
    ensures Consistent(Ended(y, pid, abnormal)) && pid !in y.dying
  {
  }

  lemma TaskEndsKeeps(y: Sys, pid: Pid, abnormal: bool)
    requires Inv(y) && pid in y.reg.records && y.reg.records[pid].state == Running && pid !in y.killing
    ensures Inv(Ended(y, pid, abnormal))
  {
    hide Linked, Named, Numbered, Limited, AgentName, Consistent;
    LogMatches(y);
    EndedConsistent(y, pid, abnormal);
    StateStepKeeps(y, Ended(y, pid, abnormal), pid);
  }

  lemma KillBeginKeeps(y: Sys, pid: Pid)
    requires Inv(y) && IsActive(y.reg, pid) && pid !in y.killing
    ensures Inv(y.(reg := KillBegin(y.reg, pid), killing := y.killing[pid := y.reg.records[pid].children]))
  {
    hide Linked, Named, Numbered, Limited, AgentName, Consistent;
    var z := y.(reg := KillBegin(y.reg, pid), killing := y.killing[pid := y.reg.records[pid].children]);
    LogMatches(y);
    StateStepKeeps(y, z, pid);
    KillingConsistent(y, z, pid);
  }

  lemma KillingConsistent(y: Sys, z: Sys, pid: Pid)
    requires Consistent(y) && IsActive(y.reg, pid)
    requires z == y.(reg := KillBegin(y.reg, pid), killing := y.killing[pid := y.reg.records[pid].children])
    ensures Consistent(z)
  {
  }

  /** A step that releases what process `pid` holds. */
  predicate ReleaseStep(y: Sys, z: Sys, pid: Pid) {
    && pid in y.reg.records && z.reg.records.Keys == y.reg.records.Keys
    && (forall p | p in y.reg.records && p != pid :: z.reg.records[p] == y.reg.records[p])
    && z.reg.records[pid] == y.reg.records[pid].(state := z.reg.records[pid].state, registered := false,
                                                 children := z.reg.records[pid].children)
    && z.reg.nextPid == y.reg.nextPid && z.control == y.control && z.used == y.used && z.pending == y.pending && z.failing == y.failing
    && z.now == y.now && z.log == y.log
  }

  lemma ReleaseKeeps(y: Sys, z: Sys, pid: Pid)
    requires Numbered(y) && Limited(y) && y.log.Keys == y.reg.records.Keys && ReleaseStep(y, z, pid)
    ensures Numbered(z) && Limited(z)
  {
    hide Numbered, Limited;
    NumberedFrame(y, z);
    LimitedFrame(y, z);
  }

  lemma CleanupReleases(y: Sys, z: Sys, pid: Pid)
    requires Linked(y) && pid in y.reg.records && z == y.(reg := Cleanup(y.reg, pid), dying := y.dying - {pid})
    ensures ReleaseStep(y, z, pid) && Linked(z)
    ensures z.reg.records[pid].state == y.reg.records[pid].state
  {
    hide Linked;
    assert forall p | p in y.reg.records && p != pid :: z.reg.records[p] == y.reg.records[p];
    assert SameLinks(y.reg, z.reg);
    LinkedFrame(y, z);
  }

  lemma CleanupConsistent(y: Sys, z: Sys, pid: Pid)
    requires Consistent(y) && ReleaseStep(y, z, pid) && z.reg.records[pid].state == y.reg.records[pid].state
    requires z.killing == y.killing && z.unorphaned == y.unorphaned && z.dying <= y.dying
    ensures Consistent(z)
  {
    assert forall p | p in y.reg.records :: z.reg.records[p].state == y.reg.records[p].state;
  }

  lemma CleanupKeeps(y: Sys, pid: Pid)
    requires Inv(y) && IsDone(y.reg, pid) && pid in y.dying
    ensures Inv(y.(reg := Cleanup(y.reg, pid), dying := y.dying - {pid}))
  {
    var z := y.(reg := Cleanup(y.reg, pid), dying := y.dying - {pid});
    hide Linked, Named, Numbered, Limited, Cleanup;
    CleanupReleases(y, z, pid);
    NamedCleanup(y, z, pid);
    ReleaseKeeps(y, z, pid);
    CleanupConsistent(y, z, pid);
  }

  /** Only the links of `z` differ from those of `y`. */
  predicate RelinkedOnly(y: Sys, z: Sys) {
    && z.reg.records.Keys == y.reg.records.Keys
    && (forall p | p in y.reg.records ::
          z.reg.records[p] == y.reg.records[p].(parent := z.reg.records[p].parent, children := z.reg.records[p].children))
    && z.reg == y.reg.(records := z.reg.records)
    && z == y.(reg := z.reg, unorphaned := z.unorphaned)
    && y.dying <= z.unorphaned <= y.unorphaned
  }

  lemma RelinkedKeeps(y: Sys, z: Sys)
    requires Consistent(y) && Named(y) && Numbered(y) && Limited(y) && RelinkedOnly(y, z)
    ensures Consistent(z) && Named(z) && Numbered(z) && Limited(z)
  {
    hide Named, Numbered, Limited, AgentName;
    NamedFrame(y, z);
    NumberedFrame(y, z);
    LimitedFrame(y, z);
  }

  lemma OrphanRelinks(y: Sys, z: Sys, pid: Pid)
    requires Linked(y) && IsDone(y.reg, pid) && y.dying <= y.unorphaned && pid !in y.dying
    requires z == y.(reg := Orphan(y.reg, pid), unorphaned := y.unorphaned - {pid})
    ensures RelinkedOnly(y, z)
  {
    assert Ordered(y.reg);
    hide Linked;
    forall p | p in y.reg.records
      ensures z.reg.records.Keys == y.reg.records.Keys
      ensures z.reg.records[p] == y.reg.records[p].(parent := z.reg.records[p].parent, children := z.reg.records[p].children)
    {
      OrphanEffect(y.reg, pid, p);
    }
  }

  lemma OrphanKeeps(y: Sys, pid: Pid)
    requires Inv(y) && IsDone(y.reg, pid) && pid !in y.dying && forall c | c in y.reg.records[pid].children :: !IsActive(y.reg, c)
    ensures Inv(y.(reg := Orphan(y.reg, pid), unorphaned := y.unorphaned - {pid}))
  {
    var z := y.(reg := Orphan(y.reg, pid), unorphaned := y.unorphaned - {pid});
    hide Linked, Named, Numbered, Limited, Orphan, RelinkedOnly;
    LinkedOrphan(y, z, pid);
    OrphanRelinks(y, z, pid);
    RelinkedKeeps(y, z);
  }

  lemma UnlinkRelinks(y: Sys, z: Sys, pid: Pid)
    requires Linked(y) && IsDone(y.reg, pid) && y.dying <= y.unorphaned && z == y.(reg := Unlink(y.reg, pid))
    ensures RelinkedOnly(y, z)
  {
    assert OlderParents(y.reg);
    hide Linked;
    forall p | p in y.reg.records
      ensures z.reg.records.Keys == y.reg.records.Keys
      ensures z.reg.records[p] == y.reg.records[p].(parent := z.reg.records[p].parent, children := z.reg.records[p].children)
    {
      UnlinkEffect(y.reg, pid, p);
    }
  }

  lemma UnlinkKeeps(y: Sys, pid: Pid)
    requires Inv(y) && IsDone(y.reg, pid)
    ensures Inv(y.(reg := Unlink(y.reg, pid)))
  {
    var z := y.(reg := Unlink(y.reg, pid));
    hide Linked, Named, Numbered, Limited, Unlink, RelinkedOnly;
    LinkedUnlink(y, z, pid);
    UnlinkRelinks(y, z, pid);
    RelinkedKeeps(y, z);
  }

  lemma RelinkKeeps(y: Sys, parent: Pid, stale: Pid, renewed: Pid)
    requires Inv(y) && Enabled(y, RelinkStep(parent, stale, renewed))
    ensures Inv(Apply(y, RelinkStep(parent, stale, renewed)))
  {
    hide Linked, Named, Numbered, Limited, AgentName;
    var z := Apply(y, RelinkStep(parent, stale, renewed));
    LinkedRelink(y, z, parent, stale, renewed);
    RelinkedKeeps(y, z);
  }

  lemma KillEndReleases(y: Sys, z: Sys, pid: Pid)
    requires pid in y.reg.records && z == y.(reg := KillEnd(y.reg, pid), killing := y.killing - {pid})
    ensures ReleaseStep(y, z, pid) && pid in z.reg.records && z.reg.records[pid].state == Killed
  {
    assert forall p | p in y.reg.records && p != pid :: z.reg.records[p] == y.reg.records[p];
  }

  lemma KilledConsistent(y: Sys, z: Sys, pid: Pid)
    requires Consistent(y) && ReleaseStep(y, z, pid) && z.reg.records[pid].state == Killed
    requires z.killing == y.killing - {pid} && z.unorphaned == y.unorphaned && z.dying == y.dying
    ensures Consistent(z)
  {
    assert forall p | p in y.reg.records && p != pid :: z.reg.records[p].state == y.reg.records[p].state;
    assert forall p | p in z.killing :: p in y.killing && p != pid;
    assert forall p | p in y.unorphaned && p != pid :: IsDone(z.reg, p);
    assert IsDone(z.reg, pid);
  }

  lemma KillEndKeeps(y: Sys, pid: Pid, auto: bool)
    requires Inv(y) && KillMayEnd(y, pid) && forall c | c in y.reg.records :: !LateChild(y, pid, c)
    ensures Inv(y.(reg := FinishKill(y.reg, pid, auto), killing := y.killing - {pid}))
  {
    hide Linked, Named, Numbered, Limited, Consistent, KillEnd, Unlink, ReleaseStep;
    KilledIsActive(y, pid);
    var z := y.(reg := KillEnd(y.reg, pid), killing := y.killing - {pid});
    LogMatches(y);
    LinkedKillEnd(y, z, pid);
    NamedKillEnd(y, z, pid);
    KillEndReleases(y, z, pid);
    ReleaseKeeps(y, z, pid);
    KilledConsistent(y, z, pid);
    if !KillRestarts(z.reg, pid, auto) {
      UnlinkKeeps(z, pid);
    }
  }

  /** The last step of a kill leaves a late child with a dead parent that does not list it. */
  lemma LateChildDetached(y: Sys, pid: Pid, auto: bool, c: Pid)
    requires Linked(y) && IsActive(y.reg, pid) && pid !in y.unorphaned && c in y.reg.records && LateChild(y, pid, c) && c != pid
    ensures var z := y.(reg := FinishKill(y.reg, pid, auto), killing := y.killing - {pid});
            && IsActive(z.reg, c) && z.reg.records[c].parent == Some(pid) && !IsActive(z.reg, pid) && !Attached(z, c)
  {
    var s := KillEnd(y.reg, pid);
    KillEndRecords(y.reg, pid);
    hide KillEnd, Ordered, WeaklyListed, DistinctLists;
    assert OlderParents(s) by {
      forall p {:trigger s.records[p].parent} | p in s.records && s.records[p].parent.Some?
        ensures s.records[p].parent.value in s.records && s.records[p].parent.value < p
      {
        assert y.reg.records[p].parent == s.records[p].parent;
      }
    }
    UnlinkEffect(s, pid, pid);
    UnlinkEffect(s, pid, c);
  }

  /**
    The last step of a kill keeps the invariant exactly when no child that was started under
    the process since the kill began still runs.
  */
  lemma KillEndExactly(y: Sys, pid: Pid, auto: bool)
    requires Inv(y) && KillMayEnd(y, pid)
    ensures Inv(y.(reg := FinishKill(y.reg, pid, auto), killing := y.killing - {pid})) <==> forall c | c in y.reg.records :: !LateChild(y, pid, c)
  {
    if forall c | c in y.reg.records :: !LateChild(y, pid, c) {
      KillEndKeeps(y, pid, auto);
    } else {
      var c :| c in y.reg.records && LateChild(y, pid, c);
      KilledIsActive(y, pid);
      assert c != pid;
      LateChildDetached(y, pid, auto, c);
    }
  }

  /** A supervisor whose budget-related fields change, at a later time. */
  lemma BudgetStep(y: Sys, z: Sys, parent: Pid, p: Record)
    requires Inv(y) && parent in y.reg.records && p == y.reg.records[parent].(history := p.history, restartCount := p.restartCount, escalated := p.escalated)
    requires z == y.(reg := Put(y.reg, parent, p), now := z.now, log := z.log) && z.log.Keys == y.log.Keys && Limited(z)
    ensures Inv(z)
  {
    hide Linked, Named, Numbered, Limited, AgentName, Consistent;
    assert forall q | q in y.reg.records && q != parent :: z.reg.records[q] == y.reg.records[q];
    assert SameLinks(y.reg, z.reg);
    LinkedFrame(y, z);
    NamedFrame(y, z);
    NumberedFrame(y, z);
    ConsistentFrame(y, z);
  }

  lemma ClockKeeps(y: Sys, now: real)
    requires Inv(y) && y.now <= now
    ensures Inv(y.(now := now))
  {
    hide Linked, Named, Numbered, Limited, AgentName, Consistent;
    var z := y.(now := now);
    assert SameLinks(y.reg, z.reg);
    LinkedFrame(y, z);
    NamedFrame(y, z);
    NumberedFrame(y, z);
    LogMatches(y);
    LimitedFrame(y, z);
    ConsistentFrame(y, z);
  }

  lemma SuperviseKeeps(y: Sys, pid: Pid, checkedAt: real, recordedAt: real)
    requires Inv(y) && IsDone(y.reg, pid) && y.now <= checkedAt <= recordedAt
    ensures Inv(Supervised(y, pid, checkedAt, recordedAt))
  {
    hide Linked, Named, Numbered, Limited, Consistent, Unlink, Prune, Charge, Candidates, Affected;
    var s, r := y.reg, y.reg.records[pid];
    var y1 := y.(now := recordedAt);
    ClockKeeps(y, recordedAt);
    if r.parent.Some? && IsLive(s, r.parent.value) {
      var parent := r.parent.value;
      var p := s.records[parent];
      var candidates := Candidates(s, Affected(p, pid), r.state.Crashed?);
      if candidates == [] {
        UnlinkKeeps(y1, pid);
      } else if WithinBudget(Prune(p, checkedAt), |candidates|) {
        ChargeKeepsAll(y, Supervised(y, pid, checkedAt, recordedAt), parent, |candidates|, checkedAt);
      } else {
        var y2 := y1.(reg := Put(s, parent, Prune(p, checkedAt).(escalated := true)));
        EscalateKeeps(y, y2, parent, checkedAt);
        if pid in Affected(p, pid) {
          assert parent != pid;
          UnlinkKeeps(y2, pid);
        }
      }
    }
  }

  lemma EscalateKeeps(y: Sys, z: Sys, parent: Pid, checkedAt: real)
    requires Inv(y) && parent in y.reg.records && y.now <= checkedAt <= z.now
    requires z == y.(now := z.now, reg := Put(y.reg, parent, Prune(y.reg.records[parent], checkedAt).(escalated := true)))
    ensures Inv(z)
  {
    LimitedPrune(y, z, parent, checkedAt);
    BudgetStep(y, z, parent, Prune(y.reg.records[parent], checkedAt).(escalated := true));
  }

  lemma ChargeKeepsAll(y: Sys, z: Sys, parent: Pid, attempts: nat, checkedAt: real)
    requires Inv(y) && parent in y.reg.records && y.now <= checkedAt <= z.now
    requires WithinBudget(Prune(y.reg.records[parent], checkedAt), attempts)
    requires z == y.(now := z.now, reg := Put(y.reg, parent, Charge(Prune(y.reg.records[parent], checkedAt), attempts, z.now)),
                     log := y.log[parent := y.log[parent] + Repeat(z.now, attempts)])
    ensures Inv(z)
  {
    LimitedCharge(y, z, parent, attempts, checkedAt);
    BudgetStep(y, z, parent, Charge(Prune(y.reg.records[parent], checkedAt), attempts, z.now));
  }

  /** One step. */
  lemma StepKeeps(y: Sys, step: Step)
    requires Inv(y) && Enabled(y, step)
    ensures Inv(Apply(y, step))
  {
    match step
    case StartStep(script, parent, policy, profile) => StartKeeps(y, script, parent, policy, profile);
    case AllocateStep(_) => AllocateKeeps(y, step);
    case ReadyStep(_, _, _, _) => ReadyKeeps(y, step);
    case RollbackStep(pid) => RollbackKeeps(y, pid);
    case CrashStep(pid, script, policy) => CrashKeeps(y, pid, script, policy);
    case FailStep(pid) => FailKeeps(y, pid);
    case TaskStartsStep(pid) => TaskStartsKeeps(y, pid);
    case TaskEndsStep(pid, abnormal) => TaskEndsKeeps(y, pid, abnormal);
    case CleanupStep(pid) => CleanupKeeps(y, pid);
    case OrphanStep(pid) => OrphanKeeps(y, pid);
    case SuperviseStep(pid, checkedAt, recordedAt) => SuperviseKeeps(y, pid, checkedAt, recordedAt);
    case KillBeginStep(pid) => KillBeginKeeps(y, pid);
    case KillEndStep(pid, auto) => KillEndKeeps(y, pid, auto);
    case RelinkStep(parent, stale, renewed) => RelinkKeeps(y, parent, stale, renewed);
    case UnlinkStep(pid) => UnlinkKeeps(y, pid);
  }

  lemma AllocateKeeps(y: Sys, step: Step)
    requires Inv(y) && step.AllocateStep? && Enabled(y, step)
    ensures Inv(Apply(y, step))
  {
    hide AgentName;
    RenumberKeeps(y, Apply(y, step));
  }
}

/**
  The crash of a supervised process, from the moment it ends: its resources are released, its
  children are terminated and detached, and only then does its supervisor act.
*/
module RegistryCrash {
  import opened Common
  import opened Registry
  import opened RegistryKill
  import opened RegistryRestart

  /** Process `f` has ended in `state`, and has been cleaned up. */
  function Fallen(s: Reg, f: Pid, state: ProcessState): Reg
    requires f in s.records
  {
    Cleanup(Put(s, f, s.records[f].(state := state)), f)
  }

  /** Kills the children of a terminal process and detaches whatever is left of its list. */
  function TerminateChildren(s: Reg, f: Pid): Reg
    requires Ordered(s) && f in s.records
  {
    var cs := s.records[f].children;
    if cs == [] then s else Orphan(KillChildren(s, cs, f), f)
  }

  lemma OrphanOrdered(s: Reg, f: Pid)
    requires Ordered(s) && f in s.records
    ensures Ordered(Orphan(s, f)) && SameShape(s, Orphan(s, f))
  {
  }

  lemma TerminateOrdered(s: Reg, f: Pid)
    requires Ordered(s) && f in s.records
    ensures Ordered(TerminateChildren(s, f)) && SameShape(s, TerminateChildren(s, f))
  {
    hide Ordered, Orphan, KillChildren;
    if s.records[f].children != [] {
      OrderedChildren(s, f);
      OrphanOrdered(KillChildren(s, s.records[f].children, f), f);
    }
  }

  lemma OrderedChildren(s: Reg, f: Pid)
    requires Ordered(s) && f in s.records
    ensures f < s.nextPid && forall c | c in s.records[f].children :: f < c
  {
  }

  /** Everything that happens when the process `f` has ended: its children, then its supervisor. */
  function HandleTerminal(s: Reg, f: Pid, checkedAt: real, recordedAt: real, load: Pid -> Option<Profile>): Round
    requires Ordered(s) && f in s.records
  {
    TerminateOrdered(s, f);
    Recover(TerminateChildren(s, f), f, checkedAt, recordedAt, load)
  }

  // ----- Killing below a fallen process -----

  lemma FallenOrdered(s: Reg, f: Pid, state: ProcessState)
    requires Ordered(s) && f in s.records
    ensures Ordered(Fallen(s, f, state)) && SameShape(s, Fallen(s, f, state))
  {
    assert forall p | p in s.records :: Fallen(s, f, state).records[p].children == s.records[p].children;
  }

  lemma FallenBegin(s: Reg, f: Pid, state: ProcessState, c: Pid)
    requires f in s.records && c in s.records && c != f
    ensures KillBegin(Fallen(s, f, state), c) == Fallen(KillBegin(s, c), f, state)
  {
  }

  /** Process `p` now has the record `r`, and what it held is released. */
  function Released(s: Reg, p: Pid, r: Record): Reg
    requires p in s.records
  {
    var held := if s.records[p].registered then {s.records[p].name} else {};
    Reg(s.records[p := r], s.byName - {s.records[p].name}, s.nextPid, s.mailboxes - held, s.tables - held)
  }

  lemma FallenForm(s: Reg, f: Pid, state: ProcessState)
    requires f in s.records
    ensures Fallen(s, f, state) == Released(s, f, s.records[f].(state := state, registered := false))
  {
  }

  lemma EndForm(s: Reg, c: Pid)
    requires c in s.records
    ensures KillEnd(s, c) == Released(s, c, s.records[c].(state := Killed, registered := false, children := []))
  {
  }

  lemma ReleasedCommute(s: Reg, a: Pid, x: Record, b: Pid, y: Record)
    requires a in s.records && b in s.records && a != b
    ensures Released(Released(s, a, x), b, y) == Released(Released(s, b, y), a, x)
  {
    assert s.records[a := x][b := y] == s.records[b := y][a := x];
    assert s.byName - {s.records[a].name} - {s.records[b].name} == s.byName - {s.records[b].name} - {s.records[a].name};
  }

  lemma FallenEnd(s: Reg, f: Pid, state: ProcessState, c: Pid)
    requires f in s.records && c in s.records && c != f
    ensures KillEnd(Fallen(s, f, state), c) == Fallen(KillEnd(s, c), f, state)
  {
    hide KillEnd, Fallen;
    FallenForm(s, f, state);
    EndForm(Fallen(s, f, state), c);
    EndForm(s, c);
    FallenForm(KillEnd(s, c), f, state);
    ReleasedCommute(s, f, s.records[f].(state := state, registered := false),
                    c, s.records[c].(state := Killed, registered := false, children := []));
  }

  /** The two updates of an unlink. */
  lemma UnlinkForm(s: Reg, c: Pid)
    requires c in s.records && s.records[c].parent != Some(c)
    ensures Unlink(s, c) == s.(records := Unlinked(s.records, c))
  {
  }

  function Unlinked(records: map<Pid, Record>, c: Pid): map<Pid, Record>
    requires c in records
  {
    var parent := records[c].parent;
    if parent.None? || parent.value !in records then records[c := records[c].(parent := None)]
    else
      var p := records[parent.value];
      records[parent.value := p.(children := Minus(p.children, {c}))][c := records[c].(parent := None)]
  }

  lemma FallenUnlink(s: Reg, f: Pid, state: ProcessState, c: Pid)
    requires f in s.records && c in s.records && c != f && s.records[c].parent != Some(c)
    ensures Unlink(Fallen(s, f, state), c) == Fallen(Unlink(s, c), f, state)
  {
    hide Unlink, Fallen, Minus;
    FallenForm(s, f, state);
    UnlinkForm(s, c);
    UnlinkForm(Fallen(s, f, state), c);
    FallenForm(Unlink(s, c), f, state);
    var a, b := Unlink(Fallen(s, f, state), c), Fallen(Unlink(s, c), f, state);
    assert a.records == b.records;
  }

  /** Killing other processes commutes with the fall of `f`. */
  lemma {:induction false} FallenKill(s: Reg, f: Pid, state: ProcessState, c: Pid)
    requires Ordered(s) && OlderParents(s) && f in s.records && !state.Active() && f < c
    ensures f in Kill(s, c).records && OlderParents(Kill(s, c))
    ensures Ordered(Fallen(s, f, state)) && Kill(Fallen(s, f, state), c) == Fallen(Kill(s, c), f, state)
    decreases Left(s, c), 1, 0
  {
    hide Cleanup, Unlink, KillEnd, Ordered, Fallen, OlderParents;
    FallenOrdered(s, f, state);
    FallenActive(s, f, state, c);
    if IsActive(s, c) {
      var s1 := KillBegin(s, c);
      var cs := s.records[c].children;
      OrderedChildren(s, c);
      FallenBegin(s, f, state, c);
      BeginOlder(s, c);
      FallenKillChildren(s1, f, state, cs, c);
      var s2 := KillChildren(s1, cs, c);
      EndKeepsOlder(s2, c);
      FallenEnd(s2, f, state, c);
      FallenUnlink(KillEnd(s2, c), f, state, c);
    }
  }

  lemma FallenActive(s: Reg, f: Pid, state: ProcessState, c: Pid)
    requires f in s.records && c != f
    ensures Fallen(s, f, state).records.Keys == s.records.Keys
    ensures c in s.records ==> Fallen(s, f, state).records[c] == s.records[c]
  {
  }

  lemma BeginOlder(s: Reg, c: Pid)
    requires Ordered(s) && OlderParents(s) && c in s.records
    ensures Ordered(KillBegin(s, c)) && OlderParents(KillBegin(s, c)) && SameShape(s, KillBegin(s, c))
  {
    var t := KillBegin(s, c);
    assert SameLinks(s, t);
    SameOlder(s, t);
    assert forall p | p in s.records :: t.records[p].children == s.records[p].children;
  }

  lemma EndKeepsOlder(s: Reg, c: Pid)
    requires OlderParents(s) && c in s.records
    ensures KillEnd(s, c).records.Keys == s.records.Keys && KillEnd(s, c).records[c].parent != Some(c)
    ensures OlderParents(Unlink(KillEnd(s, c), c))
  {
    var t := Unlink(KillEnd(s, c), c);
    EndKeys(s, c);
    hide Unlink;
    forall p {:trigger t.records[p].parent} | p in t.records && t.records[p].parent.Some?
      ensures t.records[p].parent.value in t.records && t.records[p].parent.value < p
    {
      EndRecords(s, c, p);
      assert s.records[p].parent == t.records[p].parent;
    }
    assert s.records[c].parent != Some(c);
  }

  lemma {:induction false} FallenKillChildren(s: Reg, f: Pid, state: ProcessState, cs: seq<Pid>, above: Pid)
    requires Ordered(s) && OlderParents(s) && f in s.records && !state.Active() && f <= above < s.nextPid
    requires forall c | c in cs :: above < c
    ensures f in KillChildren(s, cs, above).records && OlderParents(KillChildren(s, cs, above))
    ensures Ordered(Fallen(s, f, state)) && SameShape(s, Fallen(s, f, state))
    ensures KillChildren(Fallen(s, f, state), cs, above) == Fallen(KillChildren(s, cs, above), f, state)
    decreases s.nextPid - above, 0, |cs|
  {
    hide Cleanup, Unlink, KillEnd, Ordered, Fallen, OlderParents, Kill;
    FallenOrdered(s, f, state);
    if cs != [] {
      assert cs[0] in cs && forall c | c in cs[1..] :: c in cs;
      FallenKill(s, f, state, cs[0]);
      FallenKillChildren(Kill(s, cs[0]), f, state, cs[1..], above);
    }
  }

  // ----- A crash in a tidy tree -----

  /** The process `f` runs under a live supervisor. */
  predicate Supervised(s: Reg, parent: Pid, f: Pid) {
    Tidy(s) && IsLive(s, parent) && IsActive(s, f) && f in s.records[parent].children
  }

  lemma NoActiveChildren(s: Reg, f: Pid)
    requires Tidy(s) && IsActive(s, f)
    ensures var t := Reap(s, DoomedAll(s, s.records[f].children));
            Tidy(t) && IsActive(t, f) && t.records[f].state == s.records[f].state
            && forall c | c in t.records[f].children :: c in t.records && !IsActive(t, c)
  {
    var d := DoomedAll(s, s.records[f].children);
    OnlyBelow(s, f);
    ReapTidy(s, d);
    forall c | c in Reap(s, d).records[f].children
      ensures c in s.records && !IsActive(Reap(s, d), c)
    {
      MinusMember(s.records[f].children, d, c);
      assert s.records[c].parent == Some(f) && Under(s, c, c);
    }
  }

  /** The fall of a process without active children leaves the registry tidy. */
  lemma FallenLinks(s: Reg, f: Pid, state: ProcessState)
    requires LinksTidy(s) && IsActive(s, f) && !state.Active() && forall c | c in s.records[f].children :: !IsActive(s, c)
    ensures LinksTidy(Fallen(s, f, state))
  {
    hide Fallen;
    FallenForm(s, f, state);
    var t := Fallen(s, f, state);
    assert SameLinks(s, t);
    SameOlder(s, t);
    SameListed(s, t);
    SameDistinct(s, t);
    forall c {:trigger t.records[c].parent} | c in t.records && IsActive(t, c) && t.records[c].parent.Some?
      ensures IsActive(t, t.records[c].parent.value) && c in t.records[t.records[c].parent.value].children
    {
      assert s.records[c].parent == t.records[c].parent;
    }
  }

  lemma FallenNames(s: Reg, f: Pid, state: ProcessState)
    requires NamesTidy(s) && IsActive(s, f) && !state.Active()
    ensures NamesTidy(Fallen(s, f, state))
  {
    hide Fallen;
    FallenForm(s, f, state);
    var t := Fallen(s, f, state);
    assert forall p | p in s.records && p != f && s.records[p].registered :: s.records[p].name != s.records[f].name;
  }

  /** Detaching the children of a terminal process. */
  lemma OrphanRecord(s: Reg, f: Pid, p: Pid)
    requires LinksTidy(s) && f in s.records && p in s.records && f !in s.records[f].children
    ensures Orphan(s, f).records.Keys == s.records.Keys
    ensures Orphan(s, f).records[p]
         == if p == f then s.records[f].(children := [])
            else if s.records[p].parent == Some(f) && p in s.records[f].children then s.records[p].(parent := None)
            else s.records[p]
  {
  }

  /** `t` is `s` with the children of the terminal process `f` detached. */
  predicate Detached(s: Reg, t: Reg, f: Pid)
    requires f in s.records
  {
    t.records.Keys == s.records.Keys && forall p | p in s.records ::
      t.records[p] == if p == f then s.records[f].(children := [])
                      else if s.records[p].parent == Some(f) && p in s.records[f].children then s.records[p].(parent := None)
                      else s.records[p]
  }

  lemma OrphanDetaches(s: Reg, f: Pid)
    requires LinksTidy(s) && f in s.records && f !in s.records[f].children
    ensures Detached(s, Orphan(s, f), f)
  {
    hide Orphan, LinksTidy;
    OrphanRecord(s, f, f);
    forall p | p in s.records { OrphanRecord(s, f, p); }
  }

  lemma DetachedOlder(s: Reg, t: Reg, f: Pid)
    requires OlderParents(s) && f in s.records && Detached(s, t, f)
    ensures OlderParents(t)
  {
    forall p {:trigger t.records[p].parent} | p in t.records && t.records[p].parent.Some?
      ensures t.records[p].parent.value in t.records && t.records[p].parent.value < p
    {
      assert s.records[p].parent == t.records[p].parent;
    }
  }

  lemma DetachedListed(s: Reg, t: Reg, f: Pid)
    requires ListedByParent(s) && DistinctLists(s) && f in s.records && Detached(s, t, f)
    ensures ListedByParent(t) && DistinctLists(t)
  {
    forall q, c | q in t.records && c in t.records[q].children
      ensures c in t.records && t.records[c].parent == Some(q)
    {
      assert c in s.records[q].children;
    }
  }

  lemma DetachedActive(s: Reg, t: Reg, f: Pid)
    requires ActiveListed(s) && f in s.records && !IsActive(s, f) && Detached(s, t, f)
    ensures ActiveListed(t)
  {
    forall c {:trigger t.records[c].parent} | c in t.records && IsActive(t, c) && t.records[c].parent.Some?
      ensures IsActive(t, t.records[c].parent.value) && c in t.records[t.records[c].parent.value].children
    {
      assert s.records[c].parent == t.records[c].parent;
    }
  }

  lemma OrphanLinks(s: Reg, f: Pid)
    requires LinksTidy(s) && f in s.records && !IsActive(s, f) && f !in s.records[f].children
    ensures LinksTidy(Orphan(s, f))
  {
    hide Orphan, Detached, OlderParents, ListedByParent, DistinctLists, ActiveListed;
    OrphanDetaches(s, f);
    DetachedOlder(s, Orphan(s, f), f);
    DetachedListed(s, Orphan(s, f), f);
    DetachedActive(s, Orphan(s, f), f);
  }

  lemma OrphanNames(s: Reg, f: Pid)
    requires NamesTidy(s) && f in s.records
    ensures NamesTidy(Orphan(s, f))
  {
  }

  lemma OrphanTidy(s: Reg, f: Pid)
    requires Tidy(s) && f in s.records && !IsActive(s, f)
    ensures Tidy(Orphan(s, f))
  {
    hide Orphan, LinksTidy, NamesTidy;
    OrderedChildren(s, f);
    OrphanLinks(s, f);
    OrphanNames(s, f);
    OrphanOrdered(s, f);
  }

  /** Terminating the children of a process that has just ended leaves a tidy registry without its subtree. */
  lemma TerminateEffect(s: Reg, f: Pid, state: ProcessState)
    requires Tidy(s) && IsActive(s, f) && !state.Active() && Ordered(Fallen(s, f, state))
    ensures var d := DoomedAll(s, s.records[f].children);
            var t := Fallen(Reap(s, d), f, state);
            Tidy(t) && !IsActive(t, f) && f in t.records &&
            (TerminateChildren(Fallen(s, f, state), f) == t || TerminateChildren(Fallen(s, f, state), f) == Orphan(t, f))
  {
    hide LinksTidy, NamesTidy, Fallen, DoomedAll, Reap, Orphan, KillChildren;
    var cs := s.records[f].children;
    var d := DoomedAll(s, cs);
    FallenKeepsList(s, f, state);
    OrderedChildren(s, f);
    KillChildrenIsReap(s, cs, f);
    NoActiveChildren(s, f);
    var r := Reap(s, d);
    FallenLinks(r, f, state);
    FallenNames(r, f, state);
    FallenOrdered(r, f, state);
    FallenKeepsList(r, f, state);
    if cs != [] {
      TidyOlder(s);
      FallenKillChildren(s, f, state, cs, f);
    } else {
      NoChildrenNothing(s);
    }
  }

  lemma NoChildrenNothing(s: Reg)
    ensures Reap(s, DoomedAll(s, [])) == s
  {
    assert DoomedAll(s, []) == {};
    ReapNothing(s);
  }

  lemma TidyOlder(s: Reg)
    requires Tidy(s)
    ensures OlderParents(s)
  {
  }

  lemma FallenKeepsList(s: Reg, f: Pid, state: ProcessState)
    requires f in s.records
    ensures f in Fallen(s, f, state).records
    ensures Fallen(s, f, state).records[f] == s.records[f].(state := state, registered := false)
  {
  }

  /** The process `p`, neither `f` nor below it, is untouched by the fall of `f` and by the termination of its children. */
  lemma TerminateSpares(s: Reg, f: Pid, state: ProcessState, p: Pid)
    requires Tidy(s) && IsActive(s, f) && !state.Active() && Ordered(Fallen(s, f, state))
    requires p in s.records && p != f && p !in Doomed(s, f) && (IsActive(s, p) || s.records[p].parent != Some(f))
    ensures p in TerminateChildren(Fallen(s, f, state), f).records
    ensures TerminateChildren(Fallen(s, f, state), f).records[p] == s.records[p]
  {
    hide Fallen, Orphan, LinksTidy, NamesTidy, Under;
    var d := DoomedAll(s, s.records[f].children);
    var r := Reap(s, d);
    TerminateEffect(s, f, state);
    FallenForm(r, f, state);
    UntouchedBelow(s, f, p);
    var t := Fallen(r, f, state);
    OrderedChildren(t, f);
    TidyLinksOf(t);
    OrphanRecord(t, f, p);
  }

  /** A process that survives the kill of the children of `f` keeps its record. */
  lemma UntouchedBelow(s: Reg, f: Pid, p: Pid)
    requires Tidy(s) && IsActive(s, f) && p in s.records && p != f && p !in Doomed(s, f)
    requires IsActive(s, p) || s.records[p].parent != Some(f)
    ensures Reap(s, DoomedAll(s, s.records[f].children)).records[p] == s.records[p]
    ensures IsActive(s, p) ==> s.records[p].parent != Some(f)
  {
    DoomedByChildren(s, f);
    OthersKeepLists(s, f, p);
  }

  /** The state in which the supervisor acts on the end of `f`. */
  function AfterFall(s: Reg, f: Pid, state: ProcessState): Reg
    requires Ordered(s) && f in s.records
  {
    FallenOrdered(s, f, state);
    TerminateChildren(Fallen(s, f, state), f)
  }

  lemma ParentNotBelow(s: Reg, parent: Pid, f: Pid)
    requires Tidy(s) && parent in s.records && f in s.records && f in s.records[parent].children
    ensures parent < f && parent !in Doomed(s, f) && s.records[f].parent == Some(parent)
    ensures s.records[parent].parent != Some(f)
  {
    if Under(s, parent, f) {
      UnderIsAbove(s, parent, f);
    }
  }

  lemma SiblingNotBelow(s: Reg, parent: Pid, f: Pid, c: Pid)
    requires Tidy(s) && parent in s.records && f in s.records[parent].children && c in s.records[parent].children && c != f
    ensures c in s.records && f in s.records && c !in Doomed(s, f) && s.records[c].parent != Some(f)
  {
    assert s.records[c].parent == Some(parent) && s.records[f].parent == Some(parent);
    if Under(s, parent, f) {
      UnderIsAbove(s, parent, f);
    }
  }

  /**
    When a process ends in a tidy tree, its supervisor finds it down, its whole subtree dead,
    and its siblings and the supervisor untouched.
  */
  lemma FallLeavesChildDown(s: Reg, parent: Pid, f: Pid, state: ProcessState)
    requires Supervised(s, parent, f) && !state.Active()
    ensures ChildDown(AfterFall(s, f, state), parent, f)
    ensures SameShape(s, AfterFall(s, f, state))
    ensures AfterFall(s, f, state).records[f].state == state && SameTask(s.records[f], AfterFall(s, f, state).records[f])
    ensures AfterFall(s, f, state).records[parent] == s.records[parent]
    ensures Down(AfterFall(s, f, state), parent) == Down(s, parent) + {f}
    ensures forall c | c in s.records[parent].children && c != f ::
              c in s.records && AfterFall(s, f, state).records[c] == s.records[c]
  {
    hide Fallen, Orphan, LinksTidy, NamesTidy, Doomed, Reap, DoomedAll, TerminateChildren, Ordered;
    var t := AfterFall(s, f, state);
    FallenOrdered(s, f, state);
    TerminateOrdered(Fallen(s, f, state), f);
    FallenIsTidy(s, f, state);
    ParentNotBelow(s, parent, f);
    TerminateSpares(s, f, state, parent);
    forall c | c in s.records[parent].children && c != f
      ensures c in s.records && t.records[c] == s.records[c]
    {
      SiblingNotBelow(s, parent, f, c);
      TerminateSpares(s, f, state, c);
    }
  }

  /** The same script under the same policy. */
  predicate SameTask(r: Record, t: Record) {
    t.script == r.script && t.policy == r.policy && t.parent == r.parent
  }

  lemma FallenIsTidy(s: Reg, f: Pid, state: ProcessState)
    requires Tidy(s) && IsActive(s, f) && !state.Active()
    ensures var t := AfterFall(s, f, state);
            Tidy(t) && f in t.records && t.records[f].state == state && SameTask(s.records[f], t.records[f])
  {
    hide Fallen, LinksTidy, NamesTidy, Doomed, Ordered, Orphan, TerminateChildren;
    var d := DoomedAll(s, s.records[f].children);
    FallenOrdered(s, f, state);
    TerminateEffect(s, f, state);
    var t := Fallen(Reap(s, d), f, state);
    FallenForm(Reap(s, d), f, state);
    OnlyBelow(s, f);
    OrphanTidy(t, f);
    TidyLinksOf(t);
    NotOwnChild(t, f);
    OrphanRecord(t, f, f);
  }

  lemma NotOwnChild(s: Reg, f: Pid)
    requires Tidy(s) && f in s.records
    ensures f !in s.records[f].children
  {
  }

  // ----- What the supervisor then does -----

  /** The candidates depend only on the policies of the processes named. */
  lemma {:induction false} SameCandidates(s: Reg, t: Reg, pids: seq<Pid>, abnormal: bool)
    requires forall p | p in pids :: p in s.records && p in t.records && s.records[p].policy == t.records[p].policy
    ensures Candidates(t, pids, abnormal) == Candidates(s, pids, abnormal)
    decreases |pids|
  {
    if pids != [] {
      assert pids[0] in pids && forall p | p in pids[1..] :: p in pids;
      SameCandidates(s, t, pids[1..], abnormal);
    }
  }

  /** The affected children that the crash of `f` lets restart. */
  function ToRestart(s: Reg, parent: Pid, f: Pid): seq<Pid>
    requires parent in s.records
  {
    Candidates(s, Affected(s.records[parent], f), true)
  }

  lemma ListedParent(s: Reg, parent: Pid, f: Pid)
    requires Tidy(s) && parent in s.records && f in s.records && f in s.records[parent].children
    ensures s.records[f].parent == Some(parent) && Distinct(s.records[parent].children)
  {
  }

  /** The supervisor decides as if the crash had left the registry alone. */
  lemma SuperviseRestarts(s: Reg, t: Reg, parent: Pid, f: Pid, checkedAt: real, recordedAt: real)
    requires ChildDown(t, parent, f) && t.records[f].state == Crashed && parent in s.records && f in s.records
    requires t.records[parent] == s.records[parent] && SameTask(s.records[f], t.records[f])
    requires forall c | c in s.records[parent].children && c != f :: c in s.records && c in t.records && t.records[c] == s.records[c]
    requires ToRestart(s, parent, f) != [] && WithinBudget(Prune(s.records[parent], checkedAt), |ToRestart(s, parent, f)|)
    ensures Supervise(t, f, checkedAt, recordedAt).1 == Restart(ToRestart(s, parent, f))
    ensures Distinct(ToRestart(s, parent, f)) && forall c | c in ToRestart(s, parent, f) :: c in s.records[parent].children
  {
    var p := s.records[parent];
    ListedParent(t, parent, f);
    AffectedAreChildren(p, f);
    CandidatesAmong(s, Affected(p, f), true);
    SameCandidates(s, t, Affected(p, f), true);
    hide Tidy, Affected, Candidates, Prune;
  }

  /**
    A crash, from the moment the process ends until its supervisor is done: the children of the
    crashed process are terminated first; then, if the budget allows it and every restart
    succeeds, the affected children whose policy allows it run again under fresh PIDs. The
    crashed child and others that were down come back in place, those that ran at the end, and
    the other children keep their places and their records.
  */
  lemma CrashRebuilds(s: Reg, parent: Pid, f: Pid, checkedAt: real, recordedAt: real, load: Pid -> Option<Profile>)
    requires Supervised(s, parent, f) && ToRestart(s, parent, f) != []
    requires WithinBudget(Prune(s.records[parent], checkedAt), |ToRestart(s, parent, f)|)
    requires Ordered(Fallen(s, f, Crashed)) && HandleTerminal(Fallen(s, f, Crashed), f, checkedAt, recordedAt, load).complete
    ensures var p, cs, u := s.records[parent], ToRestart(s, parent, f), HandleTerminal(Fallen(s, f, Crashed), f, checkedAt, recordedAt, load).reg;
            && Tidy(u) && parent in u.records
            && u.records[parent].children == RebuiltList(p.children, cs, s.nextPid, Down(s, parent) + {f})
            && SameScripts(s, cs, u)
            && forall d | d in p.children && d !in cs && d != f :: d in s.records && d in u.records && u.records[d] == s.records[d]
  {
    hide Fallen, TerminateChildren, LinksTidy, NamesTidy, Ordered, Supervise, Recover, RebuiltList, ToRestart, Down, SameScripts;
    var t, cs := AfterFall(s, f, Crashed), ToRestart(s, parent, f);
    FallLeavesChildDown(s, parent, f, Crashed);
    SuperviseRestarts(s, t, parent, f, checkedAt, recordedAt);
    RecoveryRebuilds(t, parent, f, checkedAt, recordedAt, cs, load);
    SameTasks(s, t, parent, f, cs, Recover(t, f, checkedAt, recordedAt, load).reg);
  }

  lemma SameTasks(s: Reg, t: Reg, parent: Pid, f: Pid, cs: seq<Pid>, u: Reg)
    requires parent in s.records && parent in t.records && t.records[parent] == s.records[parent] && SameShape(s, t)
    requires f in s.records && f in t.records && f in s.records[parent].children && SameTask(s.records[f], t.records[f])
    requires forall c | c in s.records[parent].children && c != f :: c in s.records && c in t.records && t.records[c] == s.records[c]
    requires forall c | c in cs :: c in s.records[parent].children
    requires SameScripts(t, cs, u)
    ensures SameScripts(s, cs, u)
  {
    forall i | 0 <= i < |cs|
      ensures RunsAgain(s, cs[i], u, s.nextPid + i)
    {
      assert cs[i] in cs && RunsAgain(t, cs[i], u, t.nextPid + i);
    }
  }
}

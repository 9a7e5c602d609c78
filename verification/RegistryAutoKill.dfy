/**
  kill(pid, auto_restart=True): a supervised process that is killed by request comes back,
  outside the restart budget.
*/
module RegistryAutoKill {
  import opened Common
  import opened Registry
  import opened RegistryKill
  import opened RegistryRestart

  /** Up to the decision whether to restart. */
  function Killed0(s: Reg, pid: Pid): Reg
    requires Ordered(s) && IsActive(s, pid)
  {
    KillEnd(KillChildren(KillBegin(s, pid), s.records[pid].children, pid), pid)
  }

  lemma Killed0Ordered(s: Reg, pid: Pid)
    requires Ordered(s) && IsActive(s, pid)
    ensures Ordered(Killed0(s, pid)) && SameShape(s, Killed0(s, pid))
  {
    hide KillChildren, KillEnd;
    BeginOrdered(s, pid);
    var t := KillChildren(KillBegin(s, pid), s.records[pid].children, pid);
    KillEndRecords(t, pid);
    assert forall p | p in t.records && p != pid :: KillEnd(t, pid).records[p] == t.records[p];
  }

  lemma BeginOrdered(s: Reg, pid: Pid)
    requires Ordered(s) && IsActive(s, pid)
    ensures Ordered(KillBegin(s, pid)) && SameShape(s, KillBegin(s, pid)) && pid < s.nextPid
    ensures forall c | c in s.records[pid].children :: pid < c
  {
    assert forall p | p in s.records :: KillBegin(s, pid).records[p].children == s.records[p].children;
  }

  /** The whole operation; the second result is what the restart yields, if there is one. */
  function KillAuto(s: Reg, pid: Pid, profile: Option<Profile>): (Reg, Option<Result<Pid, StartError>>)
    requires Ordered(s) && IsActive(s, pid)
  {
    Killed0Ordered(s, pid);
    var t := Killed0(s, pid);
    if !KillRestarts(t, pid, true) then (Unlink(t, pid), None)
    else
      var (u, r) := RestartChild(t, t.records[pid].parent.value, pid, profile);
      (if r.Ok? && pid in u.records then Unlink(u, pid) else u, Some(r))
  }

  /** What the first part does to each record. */
  lemma Killed0Record(s: Reg, pid: Pid, p: Pid)
    requires Tidy(s) && IsActive(s, pid) && p in s.records
    ensures SameShape(s, Killed0(s, pid))
    ensures Killed0(s, pid).records[p]
         == if p == pid then s.records[pid].(state := Killed, registered := false, children := [])
            else if p in Doomed(s, pid) then Dead(s.records[p])
            else s.records[p]
  {
    hide KillEnd, KillChildren, Doomed, DoomedAll, LinksTidy, NamesTidy, Ordered, Minus;
    var s1, cs := KillBegin(s, pid), s.records[pid].children;
    var d := DoomedAll(s, cs);
    BeginOrdered(s, pid);
    BeginTidy(s, pid);
    KillChildrenIsReap(s1, cs, pid);
    BeginDoomed(s, pid, cs);
    KillEndRecords(Reap(s1, d), pid);
    TidyLinksOf(s);
    DoomedByChildren(s, pid);
    OnlyBelow(s, pid);
    if p != pid && p !in d {
      OthersKeepLists(s, pid, p);
    }
  }

  lemma Killed0Names(s: Reg, pid: Pid)
    requires Tidy(s) && IsActive(s, pid)
    ensures NamesTidy(Killed0(s, pid))
    ensures Killed0(s, pid).byName == (map n | n in s.byName && s.byName[n] !in Doomed(s, pid) :: s.byName[n])
  {
    var s1, cs := KillBegin(s, pid), s.records[pid].children;
    var d := DoomedAll(s, cs);
    BeginTidy(s, pid);
    KillChildrenIsReap(s1, cs, pid);
    BeginDoomed(s, pid, cs);
    DoomedByChildren(s, pid);
    OnlyBelow(s, pid);
    DoomedAllClosed(s1, cs);
    ReapNames(s1, d);
    CleanupNames(Reap(s1, d), pid);
    EndNames(s, s1, pid, d);
    assert d + {pid} == Doomed(s, pid);
  }

  lemma DoomedAllClosed(s: Reg, cs: seq<Pid>)
    requires LinksTidy(s)
    ensures Closed(s, DoomedAll(s, cs))
  {
  }

  lemma CleanupNames(s: Reg, pid: Pid)
    requires NamesTidy(s) && IsActive(s, pid)
    ensures NamesTidy(KillEnd(s, pid))
    ensures KillEnd(s, pid).byName == s.byName - {s.records[pid].name}
  {
    var t := KillEnd(s, pid);
    assert forall p | p in s.records && p != pid :: t.records[p] == s.records[p];
    assert forall p | p in s.records && p != pid && s.records[p].registered :: s.records[p].name != s.records[pid].name;
  }

  /** What the first part does to every record. */
  predicate KilledBelow(s: Reg, t: Reg, pid: Pid)
    requires pid in s.records
  {
    SameShape(s, t) && forall p | p in s.records ::
      t.records[p] == if p == pid then s.records[pid].(state := Killed, registered := false, children := [])
                      else if p in Doomed(s, pid) then Dead(s.records[p])
                      else s.records[p]
  }

  lemma BelowOlder(s: Reg, t: Reg, pid: Pid)
    requires OlderParents(s) && pid in s.records && KilledBelow(s, t, pid)
    ensures OlderParents(t)
  {
    hide Doomed;
    forall p {:trigger t.records[p].parent} | p in t.records && t.records[p].parent.Some?
      ensures t.records[p].parent.value in t.records && t.records[p].parent.value < p
    {
      assert s.records[p].parent == t.records[p].parent;
    }
  }

  lemma BelowListed(s: Reg, t: Reg, pid: Pid)
    requires Tidy(s) && IsActive(s, pid) && KilledBelow(s, t, pid)
    ensures ListedByParent(t) && DistinctLists(t)
  {
    hide Doomed, Tidy;
    TidyLists(s);
    forall q, c | q in t.records && c in t.records[q].children
      ensures c in t.records && t.records[c].parent == Some(q)
    {
      assert c in s.records[q].children && q !in Doomed(s, pid);
      SurvivorsListSurvivors(s, pid, q, c);
    }
  }

  lemma TidyLists(s: Reg)
    requires Tidy(s)
    ensures ListedByParent(s) && DistinctLists(s)
  {
  }

  lemma BelowActive(s: Reg, t: Reg, pid: Pid)
    requires LinksTidy(s) && IsActive(s, pid) && Closed(s, Doomed(s, pid)) && KilledBelow(s, t, pid) && pid in Doomed(s, pid)
    ensures ActiveListed(t)
  {
    hide Doomed;
    forall c {:trigger t.records[c].parent} | c in t.records && IsActive(t, c) && t.records[c].parent.Some?
      ensures IsActive(t, t.records[c].parent.value) && c in t.records[t.records[c].parent.value].children
    {
      assert t.records[c] == s.records[c];
    }
  }

  /** Below `pid`, only `pid` itself is listed by a survivor. */
  lemma SurvivorsListSurvivors(s: Reg, pid: Pid, q: Pid, c: Pid)
    requires Tidy(s) && IsActive(s, pid) && q in s.records && c in s.records[q].children && q !in Doomed(s, pid)
    ensures c == pid || c !in Doomed(s, pid)
  {
    assert s.records[c].parent == Some(q);
  }

  lemma Killed0Below(s: Reg, pid: Pid)
    requires Tidy(s) && IsActive(s, pid)
    ensures KilledBelow(s, Killed0(s, pid), pid) && Ordered(Killed0(s, pid))
  {
    hide Killed0, Doomed, Tidy;
    Killed0Record(s, pid, pid);
    forall p | p in s.records { Killed0Record(s, pid, p); }
    Killed0Keeps(s, pid);
  }

  lemma Killed0Keeps(s: Reg, pid: Pid)
    requires Tidy(s) && IsActive(s, pid)
    ensures Ordered(Killed0(s, pid))
  {
    Killed0Ordered(s, pid);
  }

  lemma Killed0Tidy(s: Reg, pid: Pid)
    requires Tidy(s) && IsActive(s, pid)
    ensures Tidy(Killed0(s, pid))
  {
    hide Killed0, KilledBelow, NamesTidy, ListedByParent, DistinctLists, ActiveListed, OlderParents, Ordered, Closed;
    var t := Killed0(s, pid);
    Killed0Below(s, pid);
    Killed0Names(s, pid);
    DoomedClosed(s, pid);
    BelowOlder(s, t, pid);
    BelowListed(s, t, pid);
    BelowActive(s, t, pid);
  }

  /** The name of a restart is free once the subtree is dead: no other process and no other mailbox holds it. */
  predicate NameFreed(s: Reg, pid: Pid, name: string) {
    && (name in s.byName ==> s.byName[name] in Doomed(s, pid))
    && (name in s.mailboxes ==> name in s.byName)
  }

  /** What a caller can check before the kill: the script loads, its name will be free, and nothing else fails. */
  predicate Restartable(s: Reg, pid: Pid, profile: Option<Profile>) {
    profile.Some? && NameFreed(s, pid, profile.value.name) && profile.value.fault == NoFault
  }

  /** The first part releases the names of the subtree, like a kill without a restart. */
  lemma Killed0Frees(s: Reg, pid: Pid, name: string)
    requires Tidy(s) && IsActive(s, pid)
    ensures name !in Killed0(s, pid).byName && name !in Killed0(s, pid).mailboxes <==> NameFreed(s, pid, name)
  {
    var d, t := Doomed(s, pid), Killed0(s, pid);
    KillIsReap(s, pid);
    assert Kill(s, pid) == Unlink(t, pid);
    assert t.byName == Reap(s, d).byName && t.mailboxes == Reap(s, d).mailboxes;
    DoomedNames(s, d, name);
  }

  lemma DoomedNames(s: Reg, d: set<Pid>, name: string)
    requires NamesTidy(s) && forall p | p in d :: IsActive(s, p)
    ensures name in NamesOf(s, d) <==> name in s.byName && s.byName[name] in d
  {
    assert forall p | p in d :: p in s.records && s.byName[s.records[p].name] == p;
  }

  /** A restart after a kill succeeds exactly when the script loads, its name is free and no registration fails. */
  lemma RestartSucceeds(t: Reg, parent: Pid, pid: Pid, profile: Option<Profile>)
    requires Tidy(t) && IsLive(t, parent) && pid in t.records
    ensures RestartChild(t, parent, pid, profile).1.Ok?
       <==> profile.Some? && profile.value.name !in t.byName && profile.value.name !in t.mailboxes && profile.value.fault == NoFault
  {
    if profile.Some? {
      var s1 := Start(t, t.records[pid].script, Some(parent), t.records[pid].policy, profile.value).0;
      assert t.nextPid in s1.records || Start(t, t.records[pid].script, Some(parent), t.records[pid].policy, profile.value).1.Err?;
    }
  }

  /** A failed restart leaves every record as it was. */
  lemma FailedRestart(t: Reg, parent: Pid, pid: Pid, profile: Option<Profile>)
    requires Tidy(t) && parent in t.records && pid in t.records && RestartChild(t, parent, pid, profile).1.Err?
    ensures RestartChild(t, parent, pid, profile).0.records == t.records
  {
    FreshUnlisted(t, parent);
    MinusNothing(t.records[parent].children, {t.nextPid});
    assert t.records - {t.nextPid} == t.records;
    assert t.records[parent := t.records[parent]] == t.records;
  }

  /** The restart that an automatic kill under a live supervisor attempts. */
  lemma AutoKillRestarts(s: Reg, pid: Pid, profile: Option<Profile>)
    requires Tidy(s) && IsActive(s, pid) && s.records[pid].parent.Some?
    ensures var parent, t := s.records[pid].parent.value, Killed0(s, pid);
            && Tidy(t) && parent in s.records && parent in t.records && pid in t.records
            && t.records[parent] == s.records[parent] && pid in s.records[parent].children
            && t.records[pid] == s.records[pid].(state := Killed, registered := false, children := [])
            && (KillRestarts(t, pid, true) <==> IsLive(s, parent))
            && (IsLive(s, parent) ==> (RestartChild(t, parent, pid, profile).1.Ok? <==> Restartable(s, pid, profile)))
  {
    hide Doomed, LinksTidy, NamesTidy, Ordered, Killed0, RestartChild, NameFreed;
    var parent, t := s.records[pid].parent.value, Killed0(s, pid);
    Killed0Tidy(s, pid);
    Killed0Record(s, pid, pid);
    ParentSurvives(s, pid);
    Killed0Record(s, pid, parent);
    if profile.Some? {
      Killed0Frees(s, pid, profile.value.name);
    }
    if IsLive(s, parent) {
      RestartSucceeds(t, parent, pid, profile);
    }
  }

  /**
    An automatic kill under a live supervisor, of a process that can restart: the new process
    has the next PID, takes the killed one's place in the supervisor's list and runs the same
    script under the same policy; the killed subtree is dead; and the supervisor's restart
    history and count are unchanged, so the budget is not consulted.
  */
  lemma AutoKillReplaces(s: Reg, pid: Pid, profile: Option<Profile>)
    requires Tidy(s) && IsActive(s, pid) && s.records[pid].parent.Some? && IsLive(s, s.records[pid].parent.value)
    requires Restartable(s, pid, profile)
    ensures KillAuto(s, pid, profile).1 == Some(Ok(s.nextPid))
    ensures Replaced(s, pid, KillAuto(s, pid, profile).0)
  {
    hide Doomed, LinksTidy, NamesTidy, Ordered, Killed0, RestartChild, Unlink, Replaced, NameFreed;
    var parent, t := s.records[pid].parent.value, Killed0(s, pid);
    AutoKillRestarts(s, pid, profile);
    Killed0Tidy(s, pid);
    Killed0Below(s, pid);
    ParentSurvives(s, pid);
    SelfDoomed(s, pid);
    RestartRenews(t, parent, pid, profile);
    RenewalReplaces(s, t, pid, profile.value);
  }

  /** The outcome of an automatic kill whose restart succeeds. */
  predicate Replaced(s: Reg, pid: Pid, u: Reg)
    requires pid in s.records && s.records[pid].parent.Some? && s.records[pid].parent.value in s.records
  {
    var parent := s.records[pid].parent.value;
    && s.nextPid in u.records && RunsAgain(s, pid, u, s.nextPid)
    && u.records[s.nextPid].parent == Some(parent) && u.records[s.nextPid].restartCount == s.records[pid].restartCount + 1
    && pid in s.records[parent].children && parent in u.records
    && u.records[parent] == s.records[parent].(children := s.records[parent].children[IndexOf(s.records[parent].children, pid) := s.nextPid])
    && forall p | p in Doomed(s, pid) :: p in u.records && u.records[p] == Dead(s.records[p])
  }

  /** Unlinking a process that its parent no longer lists only clears its parent. */
  lemma UnlinkUnlisted(s: Reg, pid: Pid, parent: Pid)
    requires pid in s.records && parent in s.records && parent != pid
    requires s.records[pid].parent == Some(parent) && pid !in s.records[parent].children
    ensures Unlink(s, pid) == Put(s, pid, s.records[pid].(parent := None))
  {
    MinusNothing(s.records[parent].children, {pid});
    assert s.records[parent := s.records[parent]] == s.records;
  }

  lemma RenewalReplaces(s: Reg, t: Reg, pid: Pid, profile: Profile)
    requires IsActive(s, pid) && s.records[pid].parent.Some? && KilledBelow(s, t, pid) && Tidy(t)
    requires s.records[pid].parent.value in s.records && s.records[pid].parent.value !in Doomed(s, pid)
    requires s.records[pid].parent.value != pid && pid in s.records[s.records[pid].parent.value].children && pid in Doomed(s, pid)
    ensures var u := Renewed(t, s.records[pid].parent.value, pid, Reborn(t.records[pid], s.records[pid].parent.value, profile));
            Replaced(s, pid, Unlink(u, pid))
  {
    hide Doomed, Tidy, Unlink, Minus, DistinctLists;
    var parent, n := s.records[pid].parent.value, s.nextPid;
    var u := Renewed(t, parent, pid, Reborn(t.records[pid], parent, profile));
    FreshUnlisted(t, parent);
    TidyDistinct(t, parent);
    RenewedMember(t.records[parent].children, pid, n, pid);
    UnlinkUnlisted(u, pid, parent);
    DoomedKnown(s, pid);
  }

  lemma SelfDoomed(s: Reg, pid: Pid)
    requires IsActive(s, pid)
    ensures pid in Doomed(s, pid)
  {
  }

  lemma DoomedKnown(s: Reg, pid: Pid)
    ensures Doomed(s, pid) <= s.records.Keys
  {
  }

  lemma ParentSurvives(s: Reg, pid: Pid)
    requires Tidy(s) && IsActive(s, pid) && s.records[pid].parent.Some?
    ensures s.records[pid].parent.value in s.records && s.records[pid].parent.value !in Doomed(s, pid)
    ensures s.records[pid].parent.value != pid
    ensures pid in s.records[s.records[pid].parent.value].children
  {
    var parent := s.records[pid].parent.value;
    if Under(s, parent, pid) {
      UnderIsAbove(s, parent, pid);
    }
  }

  /** The dead process is still in its supervisor's list. */
  predicate StaysListed(s: Reg, parent: Pid, pid: Pid) {
    parent in s.records && pid in s.records[parent].children
  }

  /**
    An automatic kill leaves the killed process in its supervisor's list exactly when the
    supervisor is live and the process cannot restart: its script no longer loads, its name or
    mailbox is held outside the killed subtree, or a registration fails. The supervisor's record
    is then untouched, and the process is dead but still has its parent.
  */
  lemma FailedAutoKillStaysListed(s: Reg, pid: Pid, profile: Option<Profile>)
    requires Tidy(s) && IsActive(s, pid) && s.records[pid].parent.Some?
    ensures var parent, u := s.records[pid].parent.value, KillAuto(s, pid, profile).0;
            && (StaysListed(u, parent, pid) <==> IsLive(s, parent) && !Restartable(s, pid, profile))
            && (StaysListed(u, parent, pid) ==>
                  && KillAuto(s, pid, profile).1.Some? && KillAuto(s, pid, profile).1.value.Err?
                  && parent in s.records && u.records[parent] == s.records[parent]
                  && pid in u.records && u.records[pid].state == Killed && u.records[pid].parent == Some(parent))
  {
    hide Doomed, LinksTidy, NamesTidy, Ordered, Killed0, RestartChild, Unlink, Replaced, Restartable;
    var parent, t := s.records[pid].parent.value, Killed0(s, pid);
    AutoKillRestarts(s, pid, profile);
    Killed0Tidy(s, pid);
    if !IsLive(s, parent) {
      UnlinkedFrom(t, pid, parent);
    } else if Restartable(s, pid, profile) {
      AutoKillReplaces(s, pid, profile);
      ReplacedUnlists(s, pid, KillAuto(s, pid, profile).0);
    } else {
      FailedRestart(t, parent, pid, profile);
    }
  }

  lemma UnlinkedFrom(t: Reg, pid: Pid, parent: Pid)
    requires pid in t.records && parent in t.records && parent != pid && t.records[pid].parent == Some(parent)
    ensures !StaysListed(Unlink(t, pid), parent, pid)
  {
    MinusMember(t.records[parent].children, {pid}, pid);
  }

  lemma ReplacedUnlists(s: Reg, pid: Pid, u: Reg)
    requires Tidy(s) && IsActive(s, pid) && s.records[pid].parent.Some? && s.records[pid].parent.value in s.records
    requires Replaced(s, pid, u)
    ensures !StaysListed(u, s.records[pid].parent.value, pid)
  {
    var parent := s.records[pid].parent.value;
    FreshUnlisted(s, parent);
    TidyDistinct(s, parent);
    RenewedMember(s.records[parent].children, pid, s.nextPid, pid);
  }
}

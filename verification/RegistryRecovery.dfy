/**
  When a recovery succeeds: the exact condition, on the state before it, under which every
  candidate is restarted.
*/
module RegistryRecovery {
  import opened Common
  import opened Registry
  import opened RegistryKill
  import opened RegistryRestart
  import opened RegistryAutoKill

  // ----- The condition -----

  /** `name` is free once the processes in `gone` are dead, if the names in `taken` have been given out again. */
  predicate FreeAfter(s: Reg, gone: set<Pid>, taken: set<string>, name: string) {
    && (name in s.byName ==> s.byName[name] in gone)
    && (name in s.mailboxes ==> name in s.byName)
    && name !in taken
  }

  /**
    Each candidate in turn can be restarted: its script loads, no registration fails, and its
    name is held neither by a process outside the subtrees killed so far, nor by another
    mailbox, nor by a candidate restarted before.
  */
  predicate AllRestartable(s: Reg, cs: seq<Pid>, load: Pid -> Option<Profile>, gone: set<Pid>, taken: set<string>)
    decreases |cs|
  {
    cs == [] ||
    var profile, dead := load(cs[0]), gone + Doomed(s, cs[0]);
    && profile.Some? && profile.value.fault == NoFault && FreeAfter(s, dead, taken, profile.value.name)
    && AllRestartable(s, cs[1..], load, dead, taken + {profile.value.name})
  }

  // ----- Subtrees of siblings -----

  /** No process is below two children of one supervisor. */
  lemma {:induction false} SiblingsAreDisjoint(s: Reg, parent: Pid, c: Pid, d: Pid, p: Pid)
    requires LinksTidy(s) && parent in s.records && c in s.records[parent].children && d in s.records[parent].children && c != d
    ensures !(Under(s, p, c) && Under(s, p, d))
    decreases p
  {
    if Under(s, p, c) && Under(s, p, d) {
      if p == c {
        SiblingsAreNotBelow(s, parent, d, c);
        NotUnderSibling(s, parent, d, c);
      } else if p == d {
        NotUnderSibling(s, parent, c, d);
      } else {
        SiblingsAreDisjoint(s, parent, c, d, s.records[p].parent.value);
      }
    }
  }

  lemma NotUnderSibling(s: Reg, parent: Pid, c: Pid, d: Pid)
    requires LinksTidy(s) && parent in s.records && c in s.records[parent].children && d in s.records[parent].children && c != d
    ensures !Under(s, d, c) && !Under(s, parent, c) && c > parent
  {
    assert s.records[c].parent == Some(parent) && s.records[d].parent == Some(parent);
    if Under(s, parent, c) {
      UnderIsAbove(s, parent, c);
    }
  }

  /** Parent links in `t` are those of `s`, or cut for the dead processes in `dead`. */
  predicate CutLinks(s: Reg, t: Reg, dead: set<Pid>) {
    t.records.Keys == s.records.Keys &&
    forall p | p in s.records :: t.records[p].parent == if p in dead then None else s.records[p].parent
  }

  /** Only a cut below `root` changes what is below it. */
  lemma {:induction false} UnderAfterCut(s: Reg, t: Reg, dead: set<Pid>, p: Pid, root: Pid)
    requires LinksTidy(s) && CutLinks(s, t, dead) && IsActive(s, p)
    requires forall q | q in dead :: !Under(s, q, root)
    ensures Under(t, p, root) <==> Under(s, p, root)
    decreases p
  {
    if p != root && s.records[p].parent.Some? {
      UnderAfterCut(s, t, dead, s.records[p].parent.value, root);
    }
  }

  /** Killing one child leaves the subtrees of its siblings as they are. */
  lemma KillSparesSubtrees(s: Reg, parent: Pid, c: Pid, d: Pid)
    requires Tidy(s) && parent in s.records && c in s.records[parent].children && d in s.records[parent].children && c != d
    ensures Doomed(Kill(s, c), d) == Doomed(s, d)
  {
    hide Under, Ordered, NamesTidy;
    var dead, t := Doomed(s, c), Kill(s, c);
    KillIsReap(s, c);
    forall q | q in dead
      ensures !Under(s, q, d)
    {
      SiblingsAreDisjoint(s, parent, c, d, q);
    }
    forall p | p in s.records
      ensures p in Doomed(t, d) <==> p in Doomed(s, d)
    {
      if IsActive(s, p) {
        UnderAfterCut(s, t, dead, p, d);
      }
    }
  }

  /** A new process under the supervisor is below none of its other children. */
  lemma {:induction false} UnderAfterRenewal(s: Reg, parent: Pid, child: Pid, r: Record, p: Pid, root: Pid)
    requires Tidy(s) && parent in s.records && p in s.records
    ensures Under(Renewed(s, parent, child, r), p, root) <==> Under(s, p, root)
    decreases p
  {
    var t := Renewed(s, parent, child, r);
    FreshUnlisted(s, parent);
    assert p in t.records && t.records[p].parent == s.records[p].parent;
    if p != root && s.records[p].parent.Some? {
      UnderAfterRenewal(s, parent, child, r, s.records[p].parent.value, root);
    }
  }

  lemma RenewalSparesSubtrees(s: Reg, parent: Pid, child: Pid, r: Record, d: Pid)
    requires Tidy(s) && parent in s.records && d in s.records[parent].children && r.parent == Some(parent)
    ensures Doomed(Renewed(s, parent, child, r), d) == Doomed(s, d)
  {
    hide Under;
    var t, n := Renewed(s, parent, child, r), s.nextPid;
    FreshUnlisted(s, parent);
    NewcomerIsElsewhere(s, t, parent, d);
    forall p | p in t.records
      ensures p in Doomed(t, d) <==> p in Doomed(s, d)
    {
      if p in s.records {
        UnderAfterRenewal(s, parent, child, r, p, d);
        assert t.records[p].state == s.records[p].state;
      } else {
        assert p == n;
        UnderAfterRenewal(s, parent, child, r, parent, d);
      }
    }
  }

  lemma NewcomerIsElsewhere(s: Reg, t: Reg, parent: Pid, d: Pid)
    requires Tidy(s) && parent in s.records && d in s.records[parent].children
    requires s.nextPid in t.records && t.records[s.nextPid].parent == Some(parent)
    ensures Under(t, s.nextPid, d) <==> Under(t, parent, d)
    ensures !Under(s, parent, d)
  {
    assert s.records[d].parent == Some(parent) && d in s.records;
    if Under(s, parent, d) {
      UnderIsAbove(s, parent, d);
    }
  }

  // ----- During a round -----

  /**
    State `t` of a round that began in `s`: the processes in `gone` are dead, `reused` holds the
    names given out again, and the candidates `cs` still wait.
  */
  predicate During(s: Reg, t: Reg, parent: Pid, cs: seq<Pid>, gone: set<Pid>, reused: map<string, Pid>) {
    && Tidy(t) && IsLive(t, parent) && Distinct(cs) && s.nextPid <= t.nextPid
    && (forall c | c in cs :: c in t.records && c in t.records[parent].children && Doomed(t, c) == Doomed(s, c))
    && NamesDuring(s, t, gone, reused)
  }

  predicate NamesDuring(s: Reg, t: Reg, gone: set<Pid>, reused: map<string, Pid>) {
    && t.byName == (map n | n in s.byName && s.byName[n] !in gone :: s.byName[n]) + reused
    && (forall n | n in reused :: s.nextPid <= reused[n])
    && t.mailboxes == t.byName.Keys + (s.mailboxes - s.byName.Keys)
  }

  lemma DoomedAreOld(s: Reg, c: Pid)
    requires Ordered(s)
    ensures forall p | p in Doomed(s, c) :: p < s.nextPid
  {
  }

  /** The names after the processes in `d` have been killed, which held theirs since the beginning. */
  lemma TableAfterKill(s: Reg, t: Reg, d: set<Pid>, gone: set<Pid>, reused: map<string, Pid>)
    requires NamesDuring(s, t, gone, reused) && forall p | p in d :: p < s.nextPid
    ensures Reap(t, d).byName == (map n | n in s.byName && s.byName[n] !in gone + d :: s.byName[n]) + reused
  {
    var k, m := Reap(t, d).byName, (map n | n in s.byName && s.byName[n] !in gone + d :: s.byName[n]) + reused;
    forall n
      ensures n in k <==> n in m
      ensures n in k ==> k[n] == m[n]
    {
    }
  }

  lemma MailboxesAfterKill(s: Reg, t: Reg, d: set<Pid>, gone: set<Pid>, reused: map<string, Pid>)
    requires NamesTidy(t) && NamesDuring(s, t, gone, reused) && forall p | p in d :: p < s.nextPid && IsActive(t, p)
    ensures Reap(t, d).mailboxes == Reap(t, d).byName.Keys + (s.mailboxes - s.byName.Keys)
  {
    forall n
      ensures n in NamesOf(t, d) <==> n in t.byName && t.byName[n] in d
    {
      DoomedNames(t, d, n);
    }
    hide NamesOf;
    var k := Reap(t, d);
    forall n
      ensures n in k.mailboxes <==> n in k.byName.Keys + (s.mailboxes - s.byName.Keys)
    {
    }
  }

  /** The names after the kill of a candidate. */
  lemma NamesAfterKill(s: Reg, t: Reg, c: Pid, gone: set<Pid>, reused: map<string, Pid>)
    requires Tidy(s) && Tidy(t) && NamesDuring(s, t, gone, reused) && Doomed(t, c) == Doomed(s, c)
    ensures NamesDuring(s, Kill(t, c), gone + Doomed(s, c), reused)
  {
    hide Doomed, Kill, LinksTidy, NamesTidy, Ordered, Reap;
    var d := Doomed(t, c);
    KillIsReap(t, c);
    TidyOrdered(s);
    DoomedAreOld(s, c);
    DoomedActive(t, c);
    TableAfterKill(s, t, d, gone, reused);
    MailboxesAfterKill(s, t, d, gone, reused);
  }

  lemma TidyOrdered(s: Reg)
    requires Tidy(s)
    ensures Ordered(s)
  {
  }

  lemma DoomedActive(t: Reg, c: Pid)
    ensures forall p | p in Doomed(t, c) :: IsActive(t, p)
  {
  }

  /** A name is free in the middle of a round exactly when the condition on its first state says so. */
  lemma FreeDuring(s: Reg, t: Reg, gone: set<Pid>, reused: map<string, Pid>, name: string)
    requires NamesDuring(s, t, gone, reused)
    ensures name !in t.byName && name !in t.mailboxes <==> FreeAfter(s, gone, reused.Keys, name)
  {
  }

  lemma NamesAfterRenewal(s: Reg, t: Reg, parent: Pid, child: Pid, r: Record, gone: set<Pid>, reused: map<string, Pid>)
    requires NamesDuring(s, t, gone, reused) && parent in t.records && s.nextPid <= t.nextPid
    ensures NamesDuring(s, Renewed(t, parent, child, r), gone, reused[r.name := t.nextPid])
  {
    var u := Renewed(t, parent, child, r);
    assert u.byName == (map n | n in s.byName && s.byName[n] !in gone :: s.byName[n]) + reused[r.name := t.nextPid];
  }

  /** One candidate: whether it restarts, and the round that remains. */
  lemma NextDuring(s: Reg, t: Reg, parent: Pid, cs: seq<Pid>, gone: set<Pid>, reused: map<string, Pid>, profile: Option<Profile>)
    requires Tidy(s) && During(s, t, parent, cs, gone, reused) && cs != []
    ensures cs[0] in t.records && IsLive(Kill(t, cs[0]), parent) && t.records[cs[0]].parent == Some(parent)
    ensures var (u, r) := RestartChild(Kill(t, cs[0]), parent, cs[0], profile);
            var dead := gone + Doomed(s, cs[0]);
            && (r.Ok? <==> profile.Some? && profile.value.fault == NoFault && FreeAfter(s, dead, reused.Keys, profile.value.name))
            && (r.Ok? ==> During(s, u, parent, cs[1..], dead, reused[profile.value.name := t.nextPid]))
  {
    hide Kill, RestartChild, Doomed, NamesDuring, FreeAfter, Renewed, LinksTidy, NamesTidy, Ordered;
    var c := cs[0];
    assert c in cs && forall d | d in cs[1..] :: d in cs && d != c;
    var k := Kill(t, c);
    var dead := gone + Doomed(s, c);
    ListedParentOf(t, parent, c);
    KillOneChild(t, parent, c);
    NamesAfterKill(s, t, c, gone, reused);
    RestartSucceeds(k, parent, c, profile);
    if profile.Some? {
      FreeDuring(s, k, dead, reused, profile.value.name);
    }
    if RestartChild(k, parent, c, profile).1.Ok? {
      OneRestart(t, parent, c, profile);
      RestartRenews(k, parent, c, profile);
      var r := Reborn(k.records[c], parent, profile.value);
      NamesAfterRenewal(s, k, parent, c, r, dead, reused);
      RemainingCandidates(s, t, parent, cs, k, r);
    }
  }

  lemma ListedParentOf(t: Reg, parent: Pid, c: Pid)
    requires Tidy(t) && parent in t.records && c in t.records[parent].children
    ensures c in t.records && t.records[c].parent == Some(parent)
  {
  }

  /** The other candidates keep waiting, with their subtrees. */
  lemma RemainingCandidates(s: Reg, t: Reg, parent: Pid, cs: seq<Pid>, k: Reg, r: Record)
    requires Tidy(t) && IsLive(t, parent) && Distinct(cs) && cs != [] && cs[0] in t.records
    requires forall c | c in cs :: c in t.records && c in t.records[parent].children && Doomed(t, c) == Doomed(s, c)
    requires k == Kill(t, cs[0]) && KilledChild(t, k, parent, cs[0]) && r.parent == Some(parent)
    ensures var u := Renewed(k, parent, cs[0], r);
            forall d | d in cs[1..] :: d in u.records && parent in u.records && d in u.records[parent].children && Doomed(u, d) == Doomed(s, d)
  {
    hide Kill, Doomed, LinksTidy, NamesTidy, Ordered;
    var c := cs[0];
    var u := Renewed(k, parent, c, r);
    FreshUnlisted(k, parent);
    TidyDistinct(k, parent);
    forall d | d in cs[1..]
      ensures d in u.records && d in u.records[parent].children && Doomed(u, d) == Doomed(s, d)
    {
      assert d in cs && d != c && c in cs;
      MinusMember(t.records[parent].children, {c}, d);
      RenewedMember(k.records[parent].children, c, k.nextPid, d);
      KillSparesSubtrees(t, parent, c, d);
      RenewalSparesSubtrees(k, parent, c, r, d);
    }
  }

  /** A round restarts every candidate exactly when the condition on its first state holds. */
  lemma {:induction false} RoundCompletesExactly(s: Reg, t: Reg, parent: Pid, cs: seq<Pid>, load: Pid -> Option<Profile>,
                                                 gone: set<Pid>, reused: map<string, Pid>)
    requires Tidy(s) && During(s, t, parent, cs, gone, reused)
    ensures RestartAll(t, parent, cs, load).complete <==> AllRestartable(s, cs, load, gone, reused.Keys)
    decreases |cs|
  {
    hide Kill, RestartChild, Doomed, During, FreeAfter, LinksTidy, NamesTidy;
    if cs != [] {
      DuringTidy(s, t, parent, cs, gone, reused);
      var profile := load(cs[0]);
      NextDuring(s, t, parent, cs, gone, reused, profile);
      var (u, r) := RestartChild(Kill(t, cs[0]), parent, cs[0], profile);
      if r.Ok? {
        NextOrdered(t, parent, cs[0], profile);
        var more := reused[profile.value.name := t.nextPid];
        RoundCompletesExactly(s, u, parent, cs[1..], load, gone + Doomed(s, cs[0]), more);
        assert more.Keys == reused.Keys + {profile.value.name};
      }
    }
  }

  lemma DuringTidy(s: Reg, t: Reg, parent: Pid, cs: seq<Pid>, gone: set<Pid>, reused: map<string, Pid>)
    requires During(s, t, parent, cs, gone, reused)
    ensures Tidy(t) && IsLive(t, parent)
  {
  }

  // ----- A recovery -----

  lemma {:induction false} SameUnder(s: Reg, t: Reg, p: Pid, root: Pid)
    requires s.records.Keys == t.records.Keys && forall q | q in s.records :: t.records[q].parent == s.records[q].parent
    ensures Under(t, p, root) <==> Under(s, p, root)
    decreases p
  {
    if p != root && p in s.records && s.records[p].parent.Some? && s.records[p].parent.value < p {
      SameUnder(s, t, s.records[p].parent.value, root);
    }
  }

  /** The supervisor's bookkeeping changes no subtree and no name. */
  lemma DecisionSpares(s: Reg, parent: Pid, f: Pid, checkedAt: real, recordedAt: real, c: Pid)
    requires ChildDown(s, parent, f) && Supervise(s, f, checkedAt, recordedAt).1.Restart?
    ensures Doomed(Supervise(s, f, checkedAt, recordedAt).0, c) == Doomed(s, c)
    ensures var t := Supervise(s, f, checkedAt, recordedAt).0; t.byName == s.byName && t.mailboxes == s.mailboxes
  {
    hide Under;
    assert s.records[f].parent == Some(parent);
    var t := Supervise(s, f, checkedAt, recordedAt).0;
    forall p {
      SameUnder(s, t, p, c);
    }
  }

  /**
    A recovery restarts every candidate exactly when, in the state in which the supervisor
    acts, each candidate in turn can be restarted.
  */
  lemma RecoveryCompletesExactly(s: Reg, parent: Pid, f: Pid, checkedAt: real, recordedAt: real, cs: seq<Pid>, load: Pid -> Option<Profile>)
    requires ChildDown(s, parent, f) && Supervise(s, f, checkedAt, recordedAt).1 == Restart(cs)
    ensures Recover(s, f, checkedAt, recordedAt, load).complete <==> AllRestartable(s, cs, load, {}, {})
  {
    hide Doomed, RestartAll, AllRestartable, Tidy, Supervise, During;
    var t := Supervise(s, f, checkedAt, recordedAt).0;
    SupervisedBy(s, parent, f);
    SuperviseOrdered(s, f, checkedAt, recordedAt);
    RoundBegins(s, parent, f, checkedAt, recordedAt, cs);
    var reused: map<string, Pid> := map[];
    RoundCompletesExactly(s, t, parent, cs, load, {}, reused);
    assert reused.Keys == {};
  }

  lemma SupervisedBy(s: Reg, parent: Pid, f: Pid)
    requires ChildDown(s, parent, f)
    ensures Ordered(s) && s.records[f].parent == Some(parent)
  {
  }

  /** The first state of a round. */
  lemma RoundBegins(s: Reg, parent: Pid, f: Pid, checkedAt: real, recordedAt: real, cs: seq<Pid>)
    requires ChildDown(s, parent, f) && Supervise(s, f, checkedAt, recordedAt).1 == Restart(cs)
    ensures During(s, Supervise(s, f, checkedAt, recordedAt).0, parent, cs, {}, map[])
  {
    var t := Supervise(s, f, checkedAt, recordedAt).0;
    CandidatesAreChildren(s, parent, f, checkedAt, recordedAt, cs);
    SuperviseTidy(s, parent, f, checkedAt, recordedAt);
    DecisionSpares(s, parent, f, checkedAt, recordedAt, f);
    hide Doomed, Supervise, LinksTidy, NamesTidy, Ordered, NamesDuring;
    forall c | c in cs
      ensures c in t.records && c in t.records[parent].children && Doomed(t, c) == Doomed(s, c)
    {
      DecisionSpares(s, parent, f, checkedAt, recordedAt, c);
    }
    BeforeRound(s, t);
  }

  lemma CandidatesAreChildren(s: Reg, parent: Pid, f: Pid, checkedAt: real, recordedAt: real, cs: seq<Pid>)
    requires ChildDown(s, parent, f) && Supervise(s, f, checkedAt, recordedAt).1 == Restart(cs)
    ensures Distinct(cs) && forall c | c in cs :: c in s.records && c in s.records[parent].children
  {
    var p := s.records[parent];
    ChildrenBelow(s, parent);
    AffectedAreChildren(p, f);
    CandidatesAmong(s, Affected(p, f), s.records[f].state.Crashed?);
    assert s.records[f].parent == Some(parent);
  }

  lemma BeforeRound(s: Reg, t: Reg)
    requires NamesTidy(s) && t.byName == s.byName && t.mailboxes == s.mailboxes
    ensures NamesDuring(s, t, {}, map[])
  {
  }

  // ----- A recovery that changes the order -----

  function Member(name: string, state: ProcessState, children: seq<Pid>): Record {
    Record(name, name + ".py", state, if children == [] then Some(100) else None, children, state.Active(), Permanent, OneForAll,
           3, 60.0, 0, [], false)
  }

  /** A supervisor of three: the first has crashed, the second runs, the last was killed and could not be restarted. */
  function Family(): Reg {
    Reg(map[100 := Member("top", Running, [101, 102, 103]), 101 := Member("a", Crashed, []),
            102 := Member("b", Running, []), 103 := Member("c", Killed, [])],
        map["top" := 100, "b" := 102], 104, {"top", "b"}, {"top", "b"})
  }

  /** Every script loads again under its name. */
  function Reload(pid: Pid): Option<Profile> {
    Some(Profile(if pid == 101 then "a" else if pid == 102 then "b" else "c", OneForOne, 3, 60.0, NoFault))
  }

  lemma FamilyLinks()
    ensures Ordered(Family()) && OlderParents(Family()) && ListedByParent(Family())
  {
    FamilyRecords();
    hide Family, Member;
  }

  lemma FamilyRecords()
    ensures Family().records.Keys == {100, 101, 102, 103} && Family().nextPid == 104
    ensures Family().records[100].children == [101, 102, 103] && Family().records[100].parent == None
    ensures forall p | 101 <= p <= 103 :: Family().records[p].children == [] && Family().records[p].parent == Some(100)
  {
  }

  lemma FamilyLists()
    ensures DistinctLists(Family()) && ActiveListed(Family())
  {
    FamilyRecords();
    assert Family().records[100].children[0] == 101 && Family().records[100].children[1] == 102;
    assert IsActive(Family(), 100);
    hide Family, Member;
  }

  lemma FamilyNames()
    ensures NamesTidy(Family())
  {
  }

  lemma FamilyIsTidy()
    ensures ChildDown(Family(), 100, 101) && Down(Family(), 100) == {101, 103}
  {
    hide Tidy;
    FamilyTidied();
    assert IsLive(Family(), 100) && Family().records[100].children == [101, 102, 103];
    assert IsActive(Family(), 102) && !IsActive(Family(), 101) && !IsActive(Family(), 103);
  }

  lemma FamilyTidied()
    ensures Tidy(Family())
  {
    FamilyLinks();
    FamilyLists();
    FamilyNames();
    hide Ordered, OlderParents, ListedByParent, DistinctLists, ActiveListed, NamesTidy, Family;
  }

  lemma FamilyDecision()
    ensures Supervise(Family(), 101, 0.0, 0.0).1 == Restart([101, 102, 103])
  {
    var s := Family();
    assert [101, 102, 103][1..] == [102, 103] && [102, 103][1..] == [103] && [103][1..] == [];
    assert Candidates(s, [103], true) == [103];
    assert Candidates(s, [102, 103], true) == [102, 103];
    assert Candidates(s, [101, 102, 103], true) == [101, 102, 103];
  }

  lemma FamilyRestarts()
    ensures AllRestartable(Family(), [101, 102, 103], Reload, {}, {})
  {
    var s := Family();
    assert [101, 102, 103][1..] == [102, 103] && [102, 103][1..] == [103] && [103][1..] == [];
    assert 102 in Doomed(s, 102);
    hide Doomed;
  }

  lemma FamilyOrder()
    ensures DownFirst([101, 102, 103], 104, {101, 103}) == [104, 106, 105]
  {
    assert [101, 102, 103][1..] == [102, 103] && [102, 103][1..] == [103] && [103][1..] == [];
    var down, running := {101, 103}, RegistryRestart.Running([101, 102, 103], {101, 103});
    assert Renumbered([103], 106, down) == [106] && Renumbered([102, 103], 105, down) == [106];
    assert Renumbered([103], 106, running) == [] && Renumbered([102, 103], 105, running) == [105];
  }

  /** A child that was down behind a running one overtakes it. */
  lemma LateDownOvertakes()
    ensures Ordered(Family()) && Recover(Family(), 101, 0.0, 0.0, Reload).complete
    ensures var u := Recover(Family(), 101, 0.0, 0.0, Reload).reg;
            && 100 in u.records && u.records[100].children == [104, 106, 105]
            && SameScripts(Family(), [101, 102, 103], u)
  {
    hide Recover, Supervise, Tidy, Down, AllRestartable, DownFirst, SameScripts;
    FamilyIsTidy();
    FamilyDecision();
    FamilyRestarts();
    FamilyOrder();
    RecoveryCompletesExactly(Family(), 100, 101, 0.0, 0.0, [101, 102, 103], Reload);
    OneForAllRebuilds(Family(), 100, 101, 0.0, 0.0, Reload);
  }
}

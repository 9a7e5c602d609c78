/**
  Recursive kill: `Kill` follows the code's recursion through child lists; `Reap` says in
  one step what it does to the whole registry.
*/
module RegistryKill {
  import opened Common
  import opened Registry

  // ----- The operation -----

  /** Children are numbered above their parents, and no PID was handed out past `nextPid`. */
  predicate Ordered(s: Reg) {
    forall p | p in s.records :: p < s.nextPid && forall c | c in s.records[p].children :: p < c
  }

  function Left(s: Reg, pid: Pid): nat {
    if pid < s.nextPid then s.nextPid - pid else 0
  }

  predicate SameShape(s: Reg, t: Reg) {
    t.nextPid == s.nextPid && t.records.Keys == s.records.Keys
  }

  /** kill(pid, auto_restart=False); an unknown or terminal PID is refused and changes nothing. */
  function Kill(s: Reg, pid: Pid): (t: Reg)
    requires Ordered(s)
    ensures Ordered(t) && SameShape(s, t)
    decreases Left(s, pid), 1, 0
  {
    if !IsActive(s, pid) then s
    else
      var s1 := KillBegin(s, pid);
      var s2 := KillChildren(s1, s.records[pid].children, pid);
      EndOrdered(s2, pid);
      Unlink(KillEnd(s2, pid), pid)
  }

  function KillChildren(s: Reg, cs: seq<Pid>, above: Pid): (t: Reg)
    requires Ordered(s) && above < s.nextPid && forall c | c in cs :: above < c
    ensures Ordered(t) && SameShape(s, t)
    decreases s.nextPid - above, 0, |cs|
  {
    if cs == [] then s
    else
      assert cs[0] in cs && forall c | c in cs[1..] :: c in cs;
      KillChildren(Kill(s, cs[0]), cs[1..], above)
  }

  lemma EndOrdered(s: Reg, pid: Pid)
    requires Ordered(s) && pid in s.records
    ensures Ordered(Unlink(KillEnd(s, pid), pid)) && SameShape(s, Unlink(KillEnd(s, pid), pid))
  {
    var t := KillEnd(s, pid);
    assert forall p | p in t.records :: p == pid || t.records[p] == s.records[p];
    MinusSubset(t);
  }

  // ----- Lists -----

  lemma {:induction false} MinusMember(xs: seq<Pid>, gone: set<Pid>, x: Pid)
    ensures x in Minus(xs, gone) <==> x in xs && x !in gone
    decreases |xs|
  {
    if xs != [] {
      assert xs == [xs[0]] + xs[1..];
      MinusMember(xs[1..], gone, x);
    }
  }

  lemma MinusSubset(s: Reg)
    ensures forall p, gone, x | p in s.records && x in Minus(s.records[p].children, gone) :: x in s.records[p].children
  {
    forall p, gone, x | p in s.records && x in Minus(s.records[p].children, gone)
      ensures x in s.records[p].children
    {
      MinusMember(s.records[p].children, gone, x);
    }
  }

  lemma {:induction false} MinusMinus(xs: seq<Pid>, a: set<Pid>, b: set<Pid>)
    ensures Minus(Minus(xs, a), b) == Minus(xs, a + b)
    decreases |xs|
  {
    if xs != [] {
      MinusMinus(xs[1..], a, b);
      var m := Minus(xs[1..], a);
      if xs[0] !in a {
        assert Minus(xs, a) == [xs[0]] + m;
        assert ([xs[0]] + m)[0] == xs[0] && ([xs[0]] + m)[1..] == m;
      } else {
        assert Minus(xs, a) == m;
      }
    }
  }

  /** Removing what is not there changes nothing. */
  lemma {:induction false} MinusSame(xs: seq<Pid>, a: set<Pid>, b: set<Pid>)
    requires forall x | x in xs :: x in a <==> x in b
    ensures Minus(xs, a) == Minus(xs, b)
    decreases |xs|
  {
    if xs != [] {
      MinusSame(xs[1..], a, b);
    }
  }

  lemma {:induction false} MinusNothing(xs: seq<Pid>, a: set<Pid>)
    requires forall x | x in xs :: x !in a
    ensures Minus(xs, a) == xs
    decreases |xs|
  {
    if xs != [] {
      MinusNothing(xs[1..], a);
    }
  }

  predicate Distinct(xs: seq<Pid>) {
    forall i, j | 0 <= i < j < |xs| :: xs[i] != xs[j]
  }

  lemma {:induction false} MinusDistinct(xs: seq<Pid>, a: set<Pid>)
    requires Distinct(xs)
    ensures Distinct(Minus(xs, a))
    decreases |xs|
  {
    if xs != [] {
      MinusDistinct(xs[1..], a);
      MinusMember(xs[1..], a, xs[0]);
      assert xs[0] !in xs[1..];
    }
  }

  // ----- The registry between operations -----

  /** Parent links point to older, known processes. */
  predicate OlderParents(s: Reg) {
    forall p {:trigger s.records[p].parent} | p in s.records && s.records[p].parent.Some? ::
      s.records[p].parent.value in s.records && s.records[p].parent.value < p
  }

  /** A listed child has the lister as its parent. */
  predicate ListedByParent(s: Reg) {
    forall q, c | q in s.records && c in s.records[q].children :: c in s.records && s.records[c].parent == Some(q)
  }

  predicate DistinctLists(s: Reg) {
    forall q | q in s.records :: Distinct(s.records[q].children)
  }

  /** An active process with a parent is listed by it, and that parent is active. */
  predicate ActiveListed(s: Reg) {
    forall c {:trigger s.records[c].parent} | c in s.records && IsActive(s, c) && s.records[c].parent.Some? ::
      IsActive(s, s.records[c].parent.value) && c in s.records[s.records[c].parent.value].children
  }

  predicate LinksTidy(s: Reg) {
    OlderParents(s) && ListedByParent(s) && DistinctLists(s) && ActiveListed(s)
  }

  predicate RegisteredWhileActive(s: Reg) {
    forall p | p in s.records :: s.records[p].registered <==> s.records[p].state.Active()
  }

  /** Every table entry is a registered process of that name, and its name is known to bus and memory. */
  predicate TableSound(s: Reg) {
    forall n | n in s.byName ::
      s.byName[n] in s.records && s.records[s.byName[n]].registered && s.records[s.byName[n]].name == n &&
      n in s.mailboxes && n in s.tables
  }

  predicate TableComplete(s: Reg) {
    forall p | p in s.records && s.records[p].registered :: s.records[p].name in s.byName && s.byName[s.records[p].name] == p
  }

  /** The name table is a bijection onto the active processes, which hold the resources. */
  predicate NamesTidy(s: Reg) {
    RegisteredWhileActive(s) && TableSound(s) && TableComplete(s)
  }

  predicate Tidy(s: Reg) {
    Ordered(s) && LinksTidy(s) && NamesTidy(s)
  }

  // ----- The subtree of a process -----

  /** `root` is `p` or an ancestor of `p`. */
  predicate Under(s: Reg, p: Pid, root: Pid)
    decreases p
  {
    p == root ||
    (p in s.records && s.records[p].parent.Some? && s.records[p].parent.value < p && Under(s, s.records[p].parent.value, root))
  }

  /** The active processes of the subtree. */
  function Doomed(s: Reg, root: Pid): set<Pid> {
    set p | p in s.records && IsActive(s, p) && Under(s, p, root)
  }

  function DoomedAll(s: Reg, roots: seq<Pid>): set<Pid> {
    set p | p in s.records && IsActive(s, p) && exists c | c in roots :: Under(s, p, c)
  }

  // ----- Its effect, all at once -----

  function Dead(r: Record): Record {
    r.(state := Killed, registered := false, children := [], parent := None)
  }

  function NamesOf(s: Reg, d: set<Pid>): set<string> {
    set p | p in s.records && p in d :: s.records[p].name
  }

  /** Kills exactly the processes in `d`, releases their resources, and removes them from every list. */
  function Reap(s: Reg, d: set<Pid>): Reg {
    Reg(map p | p in s.records :: if p in d then Dead(s.records[p]) else s.records[p].(children := Minus(s.records[p].children, d)),
        map n | n in s.byName && s.byName[n] !in d :: s.byName[n],
        s.nextPid,
        s.mailboxes - NamesOf(s, d),
        s.tables - NamesOf(s, d))
  }

  /** `d` holds active processes, and with a process all its active children. */
  predicate Closed(s: Reg, d: set<Pid>) {
    && (forall p | p in d :: IsActive(s, p))
    && (forall c {:trigger s.records[c].parent} | c in s.records && IsActive(s, c) && s.records[c].parent.Some? && s.records[c].parent.value in d :: c in d)
  }

  lemma {:induction false} UnderTrans(s: Reg, c: Pid, q: Pid, root: Pid)
    requires Under(s, c, q) && Under(s, q, root)
    ensures Under(s, c, root)
    decreases c
  {
    if c != q {
      UnderTrans(s, s.records[c].parent.value, q, root);
    }
  }

  lemma {:induction false} UnderIsAbove(s: Reg, p: Pid, root: Pid)
    requires Under(s, p, root)
    ensures root <= p
    decreases p
  {
    if p != root {
      UnderIsAbove(s, s.records[p].parent.value, root);
    }
  }

  lemma DoomedClosed(s: Reg, root: Pid)
    requires LinksTidy(s)
    ensures Closed(s, Doomed(s, root))
  {
  }

  /** An active process under `root`, other than `root`, is under one of its listed children. */
  lemma {:induction false} UnderChild(s: Reg, p: Pid, root: Pid) returns (c: Pid)
    requires LinksTidy(s) && IsActive(s, p) && Under(s, p, root) && p != root
    ensures IsActive(s, root) && c in s.records[root].children && Under(s, p, c)
    decreases p
  {
    var q := s.records[p].parent.value;
    if q == root {
      c := p;
    } else {
      c := UnderChild(s, q, root);
    }
  }

  lemma DoomedByChildren(s: Reg, root: Pid)
    requires LinksTidy(s) && IsActive(s, root)
    ensures Doomed(s, root) == {root} + DoomedAll(s, s.records[root].children)
  {
    var cs := s.records[root].children;
    forall p | p in Doomed(s, root) && p != root
      ensures p in DoomedAll(s, cs)
    {
      var c := UnderChild(s, p, root);
    }
    forall p | p in DoomedAll(s, cs)
      ensures p in Doomed(s, root)
    {
      var c :| c in cs && Under(s, p, c);
      assert Under(s, c, root);
      UnderTrans(s, p, c, root);
    }
  }

  /** Reaping a closed set leaves the ancestry of every other active process alone. */
  lemma {:induction false} UnderAfterReap(s: Reg, d: set<Pid>, p: Pid, root: Pid)
    requires LinksTidy(s) && Closed(s, d) && IsActive(s, p) && p !in d
    ensures Under(Reap(s, d), p, root) <==> Under(s, p, root)
    decreases p
  {
    if p != root && s.records[p].parent.Some? {
      UnderAfterReap(s, d, s.records[p].parent.value, root);
    }
  }

  lemma DoomedAfterReap(s: Reg, d: set<Pid>, roots: seq<Pid>)
    requires LinksTidy(s) && Closed(s, d)
    ensures DoomedAll(Reap(s, d), roots) == DoomedAll(s, roots) - d
  {
    var t := Reap(s, d);
    forall p
      ensures p in DoomedAll(t, roots) <==> p in DoomedAll(s, roots) && p !in d
    {
      if p in s.records {
        if IsActive(s, p) && p !in d {
          forall c {
            UnderAfterReap(s, d, p, c);
          }
        }
      }
    }
  }

  lemma ReapTwiceRecord(s: Reg, a: set<Pid>, b: set<Pid>, p: Pid)
    requires p in s.records
    ensures Reap(Reap(s, a), b).records[p] == Reap(s, a + b).records[p]
  {
    if p !in a && p !in b {
      MinusMinus(s.records[p].children, a, b);
    }
  }

  lemma ReapTwiceNames(s: Reg, a: set<Pid>, b: set<Pid>)
    ensures NamesOf(s, a) + NamesOf(Reap(s, a), b) == NamesOf(s, a + b)
  {
    var t := Reap(s, a);
    assert forall p | p in s.records :: t.records[p].name == s.records[p].name;
  }

  /** Killing in two rounds is killing at once. */
  lemma ReapReap(s: Reg, a: set<Pid>, b: set<Pid>)
    ensures Reap(Reap(s, a), b) == Reap(s, a + b)
  {
    hide Minus, Dead, NamesOf;
    var t, u := Reap(Reap(s, a), b), Reap(s, a + b);
    forall p | p in s.records
      ensures t.records[p] == u.records[p]
    {
      ReapTwiceRecord(s, a, b, p);
    }
    assert t.records == u.records;
    ReapTwiceNames(s, a, b);
  }

  lemma ReapNothing(s: Reg)
    ensures Reap(s, {}) == s
  {
    forall p | p in s.records
      ensures Minus(s.records[p].children, {}) == s.records[p].children
    {
      MinusNothing(s.records[p].children, {});
    }
  }

  lemma ReapLinks(s: Reg, d: set<Pid>)
    requires LinksTidy(s) && Closed(s, d)
    ensures OlderParents(Reap(s, d)) && ListedByParent(Reap(s, d)) && DistinctLists(Reap(s, d))
  {
    var t := Reap(s, d);
    forall q | q in t.records
      ensures Distinct(t.records[q].children)
    {
      MinusDistinct(s.records[q].children, d);
    }
    forall q, c | q in t.records && c in t.records[q].children
      ensures c in t.records && t.records[c].parent == Some(q)
    {
      MinusMember(s.records[q].children, d, c);
    }
  }

  lemma ReapActiveListed(s: Reg, d: set<Pid>)
    requires LinksTidy(s) && Closed(s, d)
    ensures ActiveListed(Reap(s, d))
  {
    var t := Reap(s, d);
    forall c | IsActive(t, c) && t.records[c].parent.Some?
      ensures IsActive(t, t.records[c].parent.value) && c in t.records[t.records[c].parent.value].children
    {
      assert s.records[c].parent == t.records[c].parent;
      MinusMember(s.records[s.records[c].parent.value].children, d, c);
    }
  }

  lemma ReapNames(s: Reg, d: set<Pid>)
    requires NamesTidy(s) && Closed(s, d)
    ensures NamesTidy(Reap(s, d))
  {
    var t := Reap(s, d);
    assert forall p | p in d :: p in s.records && s.byName[s.records[p].name] == p;
    assert forall n | n in t.byName :: n !in NamesOf(s, d);
  }

  lemma ReapTidy(s: Reg, d: set<Pid>)
    requires Tidy(s) && Closed(s, d)
    ensures Tidy(Reap(s, d))
  {
    ReapLinks(s, d);
    ReapActiveListed(s, d);
    ReapNames(s, d);
    MinusSubset(s);
  }

  // ----- Kill is Reap -----

  /** The links of every record are the same in both registries. */
  predicate SameLinks(s: Reg, t: Reg) {
    t.records.Keys == s.records.Keys &&
    forall p | p in s.records :: t.records[p].parent == s.records[p].parent && t.records[p].children == s.records[p].children
  }

  lemma SameOlder(s: Reg, t: Reg)
    requires OlderParents(s) && SameLinks(s, t)
    ensures OlderParents(t)
  {
    forall p {:trigger t.records[p].parent} | p in t.records && t.records[p].parent.Some?
      ensures t.records[p].parent.value in t.records && t.records[p].parent.value < p
    {
      assert s.records[p].parent == t.records[p].parent;
    }
  }

  lemma SameListed(s: Reg, t: Reg)
    requires ListedByParent(s) && SameLinks(s, t)
    ensures ListedByParent(t)
  {
    forall q, c | q in t.records && c in t.records[q].children
      ensures c in t.records && t.records[c].parent == Some(q)
    {
      assert c in s.records[q].children;
    }
  }

  lemma SameDistinct(s: Reg, t: Reg)
    requires DistinctLists(s) && SameLinks(s, t)
    ensures DistinctLists(t)
  {
  }

  lemma BeginLinks(s: Reg, pid: Pid)
    requires LinksTidy(s) && IsActive(s, pid)
    ensures OlderParents(KillBegin(s, pid)) && ListedByParent(KillBegin(s, pid)) && DistinctLists(KillBegin(s, pid))
  {
    var t := KillBegin(s, pid);
    assert SameLinks(s, t);
    SameOlder(s, t);
    SameListed(s, t);
    SameDistinct(s, t);
  }

  lemma BeginActiveListed(s: Reg, pid: Pid)
    requires ActiveListed(s) && IsActive(s, pid)
    ensures ActiveListed(KillBegin(s, pid))
  {
    var t := KillBegin(s, pid);
    forall c {:trigger t.records[c].parent} | c in t.records && IsActive(t, c) && t.records[c].parent.Some?
      ensures IsActive(t, t.records[c].parent.value) && c in t.records[t.records[c].parent.value].children
    {
      assert s.records[c].parent == t.records[c].parent;
    }
  }

  lemma BeginNames(s: Reg, pid: Pid)
    requires NamesTidy(s) && IsActive(s, pid)
    ensures NamesTidy(KillBegin(s, pid))
  {
    var t := KillBegin(s, pid);
    assert forall p | p in s.records :: t.records[p].registered == s.records[p].registered && t.records[p].name == s.records[p].name;
  }

  lemma BeginTidy(s: Reg, pid: Pid)
    requires Tidy(s) && IsActive(s, pid)
    ensures Tidy(KillBegin(s, pid))
  {
    BeginLinks(s, pid);
    BeginActiveListed(s, pid);
    BeginNames(s, pid);
    var t := KillBegin(s, pid);
    assert forall p | p in s.records :: t.records[p].children == s.records[p].children;
  }

  lemma {:induction false} BeginUnder(s: Reg, pid: Pid, p: Pid, root: Pid)
    requires IsActive(s, pid)
    ensures Under(KillBegin(s, pid), p, root) <==> Under(s, p, root)
    decreases p
  {
    if p in s.records && s.records[p].parent.Some? && s.records[p].parent.value < p {
      BeginUnder(s, pid, s.records[p].parent.value, root);
    }
  }

  lemma BeginDoomed(s: Reg, pid: Pid, roots: seq<Pid>)
    requires IsActive(s, pid)
    ensures DoomedAll(KillBegin(s, pid), roots) == DoomedAll(s, roots)
  {
    forall p, c {
      BeginUnder(s, pid, p, c);
    }
  }

  /** What the last step of a kill does to each record. */
  lemma EndRecords(s: Reg, pid: Pid, p: Pid)
    requires OlderParents(s) && pid in s.records && p in s.records
    ensures var t := Unlink(KillEnd(s, pid), pid);
            p in t.records &&
            t.records[p] == if p == pid then Dead(s.records[pid])
                            else if s.records[pid].parent == Some(p)
                            then s.records[p].(children := Minus(s.records[p].children, {pid}))
                            else s.records[p]
  {
  }

  lemma EndTables(s: Reg, pid: Pid)
    requires pid in s.records && s.records[pid].registered
    ensures var t := Unlink(KillEnd(s, pid), pid);
            var n := s.records[pid].name;
            t.byName == s.byName - {n} && t.mailboxes == s.mailboxes - {n} && t.tables == s.tables - {n}
  {
  }

  lemma EndReapsRecord(s: Reg, pid: Pid, d: set<Pid>, p: Pid)
    requires LinksTidy(s) && IsActive(s, pid) && pid !in d && p in s.records
    ensures var t := Unlink(KillEnd(Reap(KillBegin(s, pid), d), pid), pid);
            p in t.records && t.records[p] == Reap(s, d + {pid}).records[p]
  {
    var s1 := KillBegin(s, pid);
    BeginLinks(s, pid);
    EndOlder(s1, d);
    EndRecords(Reap(s1, d), pid, p);
    if p != pid && p !in d {
      if s.records[pid].parent == Some(p) {
        MinusMinus(s.records[p].children, d, {pid});
      } else {
        assert pid !in s.records[p].children;
        MinusSame(s.records[p].children, d, d + {pid});
      }
    }
  }

  lemma EndReapsRecords(s: Reg, pid: Pid, d: set<Pid>)
    requires Tidy(s) && IsActive(s, pid) && pid !in d
    ensures Unlink(KillEnd(Reap(KillBegin(s, pid), d), pid), pid).records == Reap(s, d + {pid}).records
  {
    var t := Unlink(KillEnd(Reap(KillBegin(s, pid), d), pid), pid);
    forall p | p in s.records
      ensures p in t.records && t.records[p] == Reap(s, d + {pid}).records[p]
    {
      EndReapsRecord(s, pid, d, p);
    }
    BeginLinks(s, pid);
    EndOlder(KillBegin(s, pid), d);
    EndKeys(Reap(KillBegin(s, pid), d), pid);
  }

  lemma EndKeys(s: Reg, pid: Pid)
    requires OlderParents(s) && pid in s.records
    ensures SameShape(s, Unlink(KillEnd(s, pid), pid))
  {
  }

  /** The last step of the kill completes the reaping of the subtree. */
  lemma EndReaps(s: Reg, pid: Pid, d: set<Pid>)
    requires Tidy(s) && IsActive(s, pid) && pid !in d
    ensures Unlink(KillEnd(Reap(KillBegin(s, pid), d), pid), pid) == Reap(s, d + {pid})
  {
    var s1 := KillBegin(s, pid);
    EndReapsRecords(s, pid, d);
    EndTables(Reap(s1, d), pid);
    EndNames(s, s1, pid, d);
  }

  lemma EndOlder(s: Reg, d: set<Pid>)
    requires OlderParents(s)
    ensures OlderParents(Reap(s, d))
  {
    assert forall p | p in s.records :: Reap(s, d).records[p].parent.Some? ==> s.records[p].parent == Reap(s, d).records[p].parent;
  }

  lemma EndNames(s: Reg, s1: Reg, pid: Pid, d: set<Pid>)
    requires NamesTidy(s) && IsActive(s, pid) && s1 == KillBegin(s, pid) && pid !in d
    ensures NamesOf(s, d + {pid}) == NamesOf(s1, d) + {s.records[pid].name}
    ensures Reap(s1, d).byName - {s.records[pid].name} == Reap(s, d + {pid}).byName
  {
    forall n
      ensures n in NamesOf(s, d + {pid}) <==> n in NamesOf(s1, d) + {s.records[pid].name}
    {
      assert forall p | p in s.records :: s1.records[p].name == s.records[p].name;
    }
    assert forall n | n in s.byName :: s.byName[n] == pid <==> n == s.records[pid].name;
  }

  lemma {:induction false} KillIsReap(s: Reg, pid: Pid)
    requires Tidy(s)
    ensures Kill(s, pid) == Reap(s, Doomed(s, pid))
    decreases Left(s, pid), 1, 0
  {
    if IsActive(s, pid) {
      var s1 := KillBegin(s, pid);
      var cs := s.records[pid].children;
      BeginTidy(s, pid);
      KillChildrenIsReap(s1, cs, pid);
      BeginDoomed(s, pid, cs);
      var d := DoomedAll(s, cs);
      DoomedByChildren(s, pid);
      forall p | p in d
        ensures p != pid
      {
        var c :| c in cs && Under(s, p, c);
        UnderIsAbove(s, p, c);
      }
      DoomedClosed(s, pid);
      assert d + {pid} == Doomed(s, pid);
      EndReaps(s, pid, d);
    } else {
      NothingUnderTerminal(s, pid);
      ReapNothing(s);
    }
  }

  lemma NothingUnderTerminal(s: Reg, pid: Pid)
    requires LinksTidy(s) && !IsActive(s, pid)
    ensures Doomed(s, pid) == {}
  {
    forall p | p in Doomed(s, pid)
      ensures false
    {
      var c := UnderChild(s, p, pid);
    }
  }

  lemma DoomedSplit(s: Reg, cs: seq<Pid>)
    requires cs != []
    ensures Doomed(s, cs[0]) + (DoomedAll(s, cs[1..]) - Doomed(s, cs[0])) == DoomedAll(s, cs)
  {
    assert cs == [cs[0]] + cs[1..];
    hide Under;
  }

  lemma {:induction false} KillChildrenIsReap(s: Reg, cs: seq<Pid>, above: Pid)
    requires Tidy(s) && above < s.nextPid && forall c | c in cs :: above < c
    ensures KillChildren(s, cs, above) == Reap(s, DoomedAll(s, cs))
    decreases s.nextPid - above, 0, |cs|
  {
    hide Doomed, DoomedAll, LinksTidy, NamesTidy, Ordered, Closed, Kill;
    if cs == [] {
      NobodyDoomed(s);
      ReapNothing(s);
    } else {
      var d := Doomed(s, cs[0]);
      assert cs[0] in cs && forall c | c in cs[1..] :: c in cs;
      KillIsReap(s, cs[0]);
      DoomedClosed(s, cs[0]);
      ReapTidy(s, d);
      KillChildrenIsReap(Reap(s, d), cs[1..], above);
      DoomedAfterReap(s, d, cs[1..]);
      ReapReap(s, d, DoomedAll(s, cs[1..]) - d);
      DoomedSplit(s, cs);
    }
  }

  lemma NobodyDoomed(s: Reg)
    ensures DoomedAll(s, []) == {}
  {
  }

  /**
    Recursive kill is exact. Every active process of the subtree ends killed, with its name,
    mailbox and memory table released; the root leaves its parent's list; no other record
    changes; and the registry is tidy again.
  */
  lemma KillExact(s: Reg, pid: Pid)
    requires Tidy(s) && IsActive(s, pid)
    ensures var t, d := Kill(s, pid), Doomed(s, pid);
            && Tidy(t) && pid in d && t.nextPid == s.nextPid && t.records.Keys == s.records.Keys
            && (forall p | p in d :: t.records[p] == Dead(s.records[p]) &&
                  s.records[p].name !in t.byName && s.records[p].name !in t.mailboxes && s.records[p].name !in t.tables)
            && (forall p | p in s.records && p !in d ::
                  t.records[p] == if s.records[pid].parent == Some(p)
                                  then s.records[p].(children := Minus(s.records[p].children, {pid})) else s.records[p])
            && (forall n | n in s.byName && s.byName[n] !in d ::
                  n in t.byName && t.byName[n] == s.byName[n] && n in t.mailboxes && n in t.tables)
  {
    var t, d := Kill(s, pid), Doomed(s, pid);
    KillIsReap(s, pid);
    DoomedClosed(s, pid);
    ReapTidy(s, d);
    forall p | p in s.records && p !in d
      ensures t.records[p] == if s.records[pid].parent == Some(p)
                              then s.records[p].(children := Minus(s.records[p].children, {pid})) else s.records[p]
    {
      KillSparesLists(s, pid, p);
    }
    forall p | p in d
      ensures s.records[p].name in NamesOf(s, d) && s.records[p].name !in t.byName
    {
      assert s.byName[s.records[p].name] == p;
    }
    forall n | n in s.byName && s.byName[n] !in d
      ensures n !in NamesOf(s, d)
    {
      assert forall p | p in d :: s.byName[s.records[p].name] == p;
    }
  }

  /** Outside the subtree only the root's parent listed one of its members: the root. */
  lemma KillSparesLists(s: Reg, pid: Pid, p: Pid)
    requires LinksTidy(s) && IsActive(s, pid) && p in s.records && p !in Doomed(s, pid)
    ensures Minus(s.records[p].children, Doomed(s, pid))
         == if s.records[pid].parent == Some(p) then Minus(s.records[p].children, {pid}) else s.records[p].children
  {
    var d, xs := Doomed(s, pid), s.records[p].children;
    forall x | x in xs
      ensures x in d <==> x == pid
    {
      assert s.records[x].parent == Some(p);
      assert x in d && x != pid ==> Under(s, p, pid) && IsActive(s, p);
    }
    if s.records[pid].parent == Some(p) {
      MinusSame(xs, d, {pid});
    } else {
      MinusNothing(xs, d);
    }
  }

  lemma OnlyBelow(s: Reg, f: Pid)
    requires Tidy(s) && IsActive(s, f)
    ensures f !in DoomedAll(s, s.records[f].children)
  {
    forall c | c in s.records[f].children && Under(s, f, c)
      ensures false
    {
      UnderIsAbove(s, f, c);
    }
  }

  /** A process that survives listed none of the processes below `pid`. */
  lemma OthersKeepLists(s: Reg, pid: Pid, p: Pid)
    requires Tidy(s) && IsActive(s, pid) && p in s.records && p != pid && p !in DoomedAll(s, s.records[pid].children)
    ensures Minus(s.records[p].children, DoomedAll(s, s.records[pid].children)) == s.records[p].children
  {
    var cs := s.records[pid].children;
    var d := DoomedAll(s, cs);
    forall x | x in s.records[p].children
      ensures x !in d
    {
      assert s.records[x].parent == Some(p);
    }
    MinusNothing(s.records[p].children, d);
  }

  lemma TidyDistinct(s: Reg, p: Pid)
    requires Tidy(s) && p in s.records
    ensures Distinct(s.records[p].children)
  {
  }

  lemma KillEndRecords(s: Reg, pid: Pid)
    requires pid in s.records
    ensures KillEnd(s, pid).records == s.records[pid := s.records[pid].(state := Killed, registered := false, children := [])]
    ensures KillEnd(s, pid).nextPid == s.nextPid
  {
  }

  lemma TidyLinksOf(s: Reg)
    requires Tidy(s)
    ensures LinksTidy(s)
  {
  }
}

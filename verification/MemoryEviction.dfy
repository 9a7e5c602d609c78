/**
  Eviction is optimal for its order: it removes the fewest records that make the rest fit, and
  these are the lowest by importance, last access and age, ties going to the earlier record.
*/
module MemoryEviction {
  import opened MemoryStore

  predicate DistinctIds(rs: seq<MemoryRecord>) {
    forall i, j | 0 <= i < j < |rs| :: rs[i].id != rs[j].id
  }

  /**
    Record `i` goes before record `j`: it is less important; or as important and was accessed
    longer ago; or that too is equal and it is older; or that too and it comes first in the list.
  */
  predicate GoesBefore(hot: seq<MemoryRecord>, i: nat, j: nat)
    requires i < |hot| && j < |hot|
  {
    var a, b := hot[i], hot[j];
    && a.importance <= b.importance
    && (a.importance == b.importance ==> a.lastAccessed <= b.lastAccessed)
    && (a.importance == b.importance && a.lastAccessed == b.lastAccessed ==> a.timestamp <= b.timestamp)
    && (a.importance == b.importance && a.lastAccessed == b.lastAccessed && a.timestamp == b.timestamp ==> i < j)
  }

  /** With a record, `gone` holds every record that goes before it. */
  predicate LowestFirst(hot: seq<MemoryRecord>, gone: set<Id>) {
    forall i, j | 0 <= i < |hot| && 0 <= j < |hot| && hot[i].id in gone && hot[j].id !in gone :: GoesBefore(hot, i, j)
  }

  // ----- Removing one record -----

  lemma RemoveAtIds(hot: seq<MemoryRecord>, m: nat)
    requires DistinctIds(hot) && m < |hot|
    ensures DistinctIds(RemoveAt(hot, m)) && Ids(RemoveAt(hot, m)) == Ids(hot) - {hot[m].id}
  {
    var rest := RemoveAt(hot, m);
    forall id
      ensures id in Ids(rest) <==> id in Ids(hot) && id != hot[m].id
    {
      if id in Ids(hot) && id != hot[m].id {
        var i :| 0 <= i < |hot| && hot[i].id == id;
        assert rest[if i < m then i else i - 1] == hot[i];
      }
      if id in Ids(rest) {
        var i :| 0 <= i < |rest| && rest[i].id == id;
        assert rest[i] == hot[if i < m then i else i + 1];
      }
    }
  }

  lemma {:induction false} RemoveAtTokens(hot: seq<MemoryRecord>, m: nat)
    requires m < |hot|
    ensures Tokens(hot) == Tokens(RemoveAt(hot, m)) + hot[m].tokens
    decreases m
  {
    if m == 0 {
      assert RemoveAt(hot, m) == hot[1..];
    } else {
      RemoveAtTokens(hot[1..], m - 1);
      assert RemoveAt(hot, m) == [hot[0]] + RemoveAt(hot[1..], m - 1);
    }
  }

  lemma {:induction false} WithoutSplit(a: seq<MemoryRecord>, b: seq<MemoryRecord>, gone: set<Id>)
    ensures Without(a + b, gone) == Without(a, gone) + Without(b, gone)
    decreases |a|
  {
    if a == [] {
      assert a + b == b;
    } else {
      assert (a + b)[1..] == a[1..] + b;
      WithoutSplit(a[1..], b, gone);
    }
  }

  lemma {:induction false} WithoutOutside(rs: seq<MemoryRecord>, gone: set<Id>, id: Id)
    requires id !in Ids(rs)
    ensures Without(rs, gone) == Without(rs, gone + {id})
    decreases |rs|
  {
    if rs != [] {
      assert rs[0].id in Ids(rs) && forall x | x in Ids(rs[1..]) :: x in Ids(rs);
      WithoutOutside(rs[1..], gone, id);
    }
  }

  /** Filtering what is left of `hot` without record `m` is filtering `hot`. */
  lemma WithoutOne(hot: seq<MemoryRecord>, m: nat, gone: set<Id>)
    requires DistinctIds(hot) && m < |hot|
    ensures Without(RemoveAt(hot, m), gone) == Without(hot, gone + {hot[m].id})
  {
    var a, x, b := hot[..m], hot[m], hot[m + 1..];
    assert hot == a + ([x] + b);
    WithoutSplit(a, b, gone);
    WithoutSplit(a, [x] + b, gone + {x.id});
    WithoutSplit([x], b, gone + {x.id});
    assert Without([x], gone + {x.id}) == [];
    WithoutOutside(a, gone, x.id);
    WithoutOutside(b, gone, x.id);
  }

  // ----- Shape of the result -----

  lemma {:induction false} WithoutNothing(rs: seq<MemoryRecord>)
    ensures Without(rs, {}) == rs
    decreases |rs|
  {
    if rs != [] {
      WithoutNothing(rs[1..]);
    }
  }

  /** One turn of the eviction loop. */
  lemma EvictUnfolds(hot: seq<MemoryRecord>, budget: nat) returns (m: nat, rest: seq<MemoryRecord>)
    requires DistinctIds(hot) && Tokens(hot) > budget
    ensures m < |hot| && rest == RemoveAt(hot, m) && |rest| < |hot| && DistinctIds(rest) && Ids(rest) == Ids(hot) - {hot[m].id}
    ensures Tokens(hot) == Tokens(rest) + hot[m].tokens && hot[m].id in Ids(hot)
    ensures Evict(hot, budget) == Eviction(Evict(rest, budget).kept, [hot[m]] + Evict(rest, budget).evicted)
    ensures Ids(Evict(hot, budget).evicted) == Ids(Evict(rest, budget).evicted) + {hot[m].id}
    ensures m == MinIndex(hot)
  {
    m := MinIndex(hot);
    rest := RemoveAt(hot, m);
    RemoveAtIds(hot, m);
    RemoveAtTokens(hot, m);
    IdsCons(hot[m], Evict(rest, budget).evicted);
  }

  /** Survivors keep their order, and eviction stops at the first moment the budget holds. */
  lemma {:induction false} EvictShape(hot: seq<MemoryRecord>, budget: nat)
    requires DistinctIds(hot)
    ensures var e := Evict(hot, budget);
            && e.kept == Without(hot, Ids(e.evicted)) && Ids(e.evicted) <= Ids(hot) && DistinctIds(e.evicted)
            && Tokens(e.kept) <= budget
            && (e.evicted != [] ==> Tokens(e.kept) + e.evicted[|e.evicted| - 1].tokens > budget)
    decreases |hot|
  {
    hide MinIndex, RemoveAt, Without, Tokens, Ids;
    if Tokens(hot) <= budget {
      WithoutNothing(hot);
      NoIds();
    } else {
      var m, rest := EvictUnfolds(hot, budget);
      EvictShape(rest, budget);
      WithoutOne(hot, m, Ids(Evict(rest, budget).evicted));
      ConsDistinct(hot[m], Evict(rest, budget).evicted);
      LastEvicted(rest, budget);
    }
  }

  lemma NoIds()
    ensures Ids([]) == {}
  {
  }

  lemma ConsDistinct(r: MemoryRecord, rs: seq<MemoryRecord>)
    requires DistinctIds(rs) && r.id !in Ids(rs)
    ensures DistinctIds([r] + rs)
  {
    assert forall i | 0 <= i < |rs| :: rs[i] in rs;
  }

  lemma LastEvicted(hot: seq<MemoryRecord>, budget: nat)
    ensures Evict(hot, budget).evicted == [] ==> Evict(hot, budget).kept == hot && Tokens(hot) <= budget
  {
  }

  lemma IdsCons(r: MemoryRecord, rs: seq<MemoryRecord>)
    ensures Ids([r] + rs) == {r.id} + Ids(rs)
  {
    assert forall x | x in rs :: x in [r] + rs;
    assert r in [r] + rs;
  }

  // ----- Order -----

  lemma GoesAfterRemoval(hot: seq<MemoryRecord>, m: nat, gone: set<Id>)
    requires DistinctIds(hot) && m < |hot| && LowestFirst(hot, gone)
    ensures LowestFirst(RemoveAt(hot, m), gone)
  {
    var rest := RemoveAt(hot, m);
    forall i, j | 0 <= i < |rest| && 0 <= j < |rest| && rest[i].id in gone && rest[j].id !in gone
      ensures GoesBefore(rest, i, j)
    {
      var i', j' := if i < m then i else i + 1, if j < m then j else j + 1;
      assert rest[i] == hot[i'] && rest[j] == hot[j'] && GoesBefore(hot, i', j');
    }
  }

  /** The lowest of the rest, with the minimum, are the lowest of all. */
  lemma MinimumFirst(hot: seq<MemoryRecord>, gone: set<Id>)
    requires DistinctIds(hot) && hot != [] && hot[MinIndex(hot)].id !in gone
    requires LowestFirst(RemoveAt(hot, MinIndex(hot)), gone)
    ensures LowestFirst(hot, gone + {hot[MinIndex(hot)].id})
  {
    var m := MinIndex(hot);
    var rest := RemoveAt(hot, m);
    forall i, j | 0 <= i < |hot| && 0 <= j < |hot| && hot[i].id in gone + {hot[m].id} && hot[j].id !in gone + {hot[m].id}
      ensures GoesBefore(hot, i, j)
    {
      if i == m {
        MinimumBefore(hot, j);
      } else {
        var i', j' := if i < m then i else i - 1, if j < m then j else j - 1;
        assert rest[i'] == hot[i] && rest[j'] == hot[j] && GoesBefore(rest, i', j');
      }
    }
  }

  /** The minimum goes before every other record. */
  lemma MinimumBefore(hot: seq<MemoryRecord>, j: nat)
    requires j < |hot| && j != MinIndex(hot)
    ensures GoesBefore(hot, MinIndex(hot), j)
  {
  }

  /** The evicted records are the lowest. */
  lemma {:induction false} EvictLowest(hot: seq<MemoryRecord>, budget: nat)
    requires DistinctIds(hot)
    ensures LowestFirst(hot, Ids(Evict(hot, budget).evicted))
    decreases |hot|
  {
    if Tokens(hot) > budget {
      var m, rest := EvictUnfolds(hot, budget);
      EvictShape(rest, budget);
      EvictLowest(rest, budget);
      MinimumFirst(hot, Ids(Evict(rest, budget).evicted));
    }
  }

  /** Whoever evicts lowest first and makes the rest fit evicts all of these. */
  lemma {:induction false} EvictFewest(hot: seq<MemoryRecord>, budget: nat, gone: set<Id>)
    requires DistinctIds(hot) && LowestFirst(hot, gone) && Tokens(Without(hot, gone)) <= budget
    ensures Ids(Evict(hot, budget).evicted) <= gone
    decreases |hot|
  {
    if Tokens(hot) > budget {
      var m, rest := EvictUnfolds(hot, budget);
      MinimumGone(hot, budget, gone);
      GoesAfterRemoval(hot, m, gone);
      WithoutOne(hot, m, gone);
      assert gone + {hot[m].id} == gone;
      EvictFewest(rest, budget, gone);
    }
  }

  /** Over budget, something must go, and so must the minimum. */
  lemma MinimumGone(hot: seq<MemoryRecord>, budget: nat, gone: set<Id>)
    requires LowestFirst(hot, gone) && Tokens(Without(hot, gone)) <= budget < Tokens(hot)
    ensures hot != [] && hot[MinIndex(hot)].id in gone
  {
    var m := MinIndex(hot);
    if hot[m].id !in gone {
      forall i | 0 <= i < |hot|
        ensures hot[i].id !in gone
      {
        assert i != m && hot[i].id in gone ==> GoesBefore(hot, i, m);
      }
      NothingGone(hot, gone);
    }
  }

  lemma {:induction false} NothingGone(rs: seq<MemoryRecord>, gone: set<Id>)
    requires forall i | 0 <= i < |rs| :: rs[i].id !in gone
    ensures Without(rs, gone) == rs
    decreases |rs|
  {
    if rs != [] {
      NothingGone(rs[1..], gone);
    }
  }

  /**
    Eviction is optimal for its order. The survivors fit the budget and keep their order; the
    evicted records are the lowest ones; and no lowest-first eviction that makes the survivors
    fit removes fewer.
  */
  lemma EvictionOptimal(hot: seq<MemoryRecord>, budget: nat, other: set<Id>)
    requires DistinctIds(hot)
    ensures var e := Evict(hot, budget);
            && Tokens(e.kept) <= budget && e.kept == Without(hot, Ids(e.evicted))
            && LowestFirst(hot, Ids(e.evicted)) && DistinctIds(e.evicted) && Ids(e.evicted) <= Ids(hot)
            && (LowestFirst(hot, other) && Tokens(Without(hot, other)) <= budget ==> Ids(e.evicted) <= other)
  {
    EvictShape(hot, budget);
    EvictLowest(hot, budget);
    if LowestFirst(hot, other) && Tokens(Without(hot, other)) <= budget {
      EvictFewest(hot, budget, other);
    }
  }
}

/** pandas' `groupby` with its default `sort=True`: one group per distinct key, groups in
    ascending key order, each group holding its rows in their input order. Flattening the
    groups gives the stable sort by key that `sort_index` and `ORDER BY` perform. */
module Grouping {
  import opened Order

  datatype Group<K, R> = Group(key: K, members: seq<R>)

  /** The rows whose key is `k`, in input order. */
  function Filter<R, K(==)>(rows: seq<R>, key: R -> K, k: K): seq<R>
    decreases |rows|
  {
    if rows == [] then []
    else Filter(rows[..|rows| - 1], key, k) + (if key(rows[|rows| - 1]) == k then [rows[|rows| - 1]] else [])
  }

  /** The keys the rows carry. */
  function RowKeys<R, K>(rows: seq<R>, key: R -> K): set<K>
    decreases |rows|
  {
    if rows == [] then {} else RowKeys(rows[..|rows| - 1], key) + {key(rows[|rows| - 1])}
  }

  /** The keys of the groups. */
  function KeySet<K, R>(gs: seq<Group<K, R>>): set<K>
    decreases |gs|
  {
    if gs == [] then {} else {gs[0].key} + KeySet(gs[1..])
  }

  /** The members of the first group with key `k`, or none. */
  function MembersOf<K(==), R>(gs: seq<Group<K, R>>, k: K): seq<R>
    decreases |gs|
  {
    if gs == [] then [] else if gs[0].key == k then gs[0].members else MembersOf(gs[1..], k)
  }

  ghost predicate Sorted<K, R>(gs: seq<Group<K, R>>, less: (K, K) -> bool)
  {
    forall i, j :: 0 <= i < j < |gs| ==> less(gs[i].key, gs[j].key)
  }

  ghost predicate NonEmptyGroups<K, R>(gs: seq<Group<K, R>>)
  {
    forall i :: 0 <= i < |gs| ==> |gs[i].members| > 0
  }

  /** Add row `r` with key `k` to the sorted groups: to its group if there is one,
      otherwise as a new group at its place in the order. */
  function Insert<K(==), R>(gs: seq<Group<K, R>>, k: K, r: R, less: (K, K) -> bool): seq<Group<K, R>>
    decreases |gs|
  {
    if gs == [] then [Group(k, [r])]
    else if gs[0].key == k then [Group(k, gs[0].members + [r])] + gs[1..]
    else if less(k, gs[0].key) then [Group(k, [r])] + gs
    else [gs[0]] + Insert(gs[1..], k, r, less)
  }

  /** `rows.groupby(key)`: the groups in ascending key order. */
  function GroupBy<R, K(==)>(rows: seq<R>, key: R -> K, less: (K, K) -> bool): seq<Group<K, R>>
    decreases |rows|
  {
    if rows == [] then []
    else Insert(GroupBy(rows[..|rows| - 1], key, less), key(rows[|rows| - 1]), rows[|rows| - 1], less)
  }

  /** The members of the groups one after another. */
  function Flatten<K, R>(gs: seq<Group<K, R>>): seq<R>
    decreases |gs|
  {
    if gs == [] then [] else gs[0].members + Flatten(gs[1..])
  }

  /** The stable sort of the rows by key (`sort_index`, `ORDER BY`). */
  function SortBy<R, K(==)>(rows: seq<R>, key: R -> K, less: (K, K) -> bool): seq<R>
  {
    Flatten(GroupBy(rows, key, less))
  }

  // ---------------------------------------------------------------- lemmas on groups

  lemma {:induction false} KeySetIndex<K(!new), R>(gs: seq<Group<K, R>>, x: K)
    ensures x in KeySet(gs) <==> exists i :: 0 <= i < |gs| && gs[i].key == x
    decreases |gs|
  {
    if gs != [] {
      KeySetIndex(gs[1..], x);
      if x in KeySet(gs[1..]) {
        var i :| 1 <= i + 1 < |gs| + 1 && 0 <= i < |gs| - 1 && gs[1..][i].key == x;
        assert gs[i + 1].key == x;
      }
      if exists i :: 0 <= i < |gs| && gs[i].key == x {
        var i :| 0 <= i < |gs| && gs[i].key == x;
        if i > 0 {
          assert gs[1..][i - 1].key == x;
        }
      }
    }
  }

  lemma SortedTail<K(!new), R>(gs: seq<Group<K, R>>, less: (K, K) -> bool)
    requires gs != [] && Sorted(gs, less)
    ensures Sorted(gs[1..], less)
    ensures forall x :: x in KeySet(gs[1..]) ==> less(gs[0].key, x)
  {
    forall x | x in KeySet(gs[1..]) ensures less(gs[0].key, x) {
      KeySetIndex(gs[1..], x);
      var i :| 0 <= i < |gs[1..]| && gs[1..][i].key == x;
      assert gs[i + 1].key == x;
    }
  }

  lemma SortedCons<K(!new), R>(g: Group<K, R>, gs: seq<Group<K, R>>, less: (K, K) -> bool)
    requires Sorted(gs, less)
    requires forall x :: x in KeySet(gs) ==> less(g.key, x)
    ensures Sorted([g] + gs, less)
  {
    var s := [g] + gs;
    forall i, j | 0 <= i < j < |s| ensures less(s[i].key, s[j].key) {
      if i == 0 {
        KeySetIndex(gs, s[j].key);
        assert gs[j - 1].key == s[j].key;
      } else {
        assert s[i] == gs[i - 1] && s[j] == gs[j - 1];
      }
    }
  }

  lemma {:induction false} InsertKeys<K(!new), R>(gs: seq<Group<K, R>>, k: K, r: R, less: (K, K) -> bool)
    ensures KeySet(Insert(gs, k, r, less)) == KeySet(gs) + {k}
    decreases |gs|
  {
    if gs == [] {
    } else if gs[0].key == k {
      var ins := Insert(gs, k, r, less);
      assert ins[1..] == gs[1..];
    } else if less(k, gs[0].key) {
      var ins := Insert(gs, k, r, less);
      assert ins[1..] == gs;
    } else {
      var ins := Insert(gs, k, r, less);
      assert ins[1..] == Insert(gs[1..], k, r, less);
      InsertKeys(gs[1..], k, r, less);
    }
  }

  lemma {:induction false} InsertSorted<K(!new), R>(gs: seq<Group<K, R>>, k: K, r: R, less: (K, K) -> bool)
    requires StrictTotalOrder(less) && Sorted(gs, less)
    ensures Sorted(Insert(gs, k, r, less), less)
    decreases |gs|
  {
    if gs == [] {
    } else {
      SortedTail(gs, less);
      var ins := Insert(gs, k, r, less);
      if gs[0].key == k {
        SortedCons(Group(k, gs[0].members + [r]), gs[1..], less);
      } else if less(k, gs[0].key) {
        forall x | x in KeySet(gs) ensures less(k, x) {
          KeySetIndex(gs, x);
          var i :| 0 <= i < |gs| && gs[i].key == x;
          if i > 0 {
            assert less(gs[0].key, gs[i].key);
          }
        }
        SortedCons(Group(k, [r]), gs, less);
      } else {
        assert less(gs[0].key, k);
        InsertSorted(gs[1..], k, r, less);
        InsertKeys(gs[1..], k, r, less);
        SortedCons(gs[0], Insert(gs[1..], k, r, less), less);
      }
    }
  }

  lemma {:induction false} MembersOfAbsent<K(!new), R>(gs: seq<Group<K, R>>, k: K)
    requires k !in KeySet(gs)
    ensures MembersOf(gs, k) == []
    decreases |gs|
  {
    if gs != [] {
      MembersOfAbsent(gs[1..], k);
    }
  }

  lemma {:induction false} InsertMembers<K(!new), R>(gs: seq<Group<K, R>>, k: K, r: R, less: (K, K) -> bool, x: K)
    requires StrictTotalOrder(less) && Sorted(gs, less)
    ensures MembersOf(Insert(gs, k, r, less), x) == MembersOf(gs, x) + (if x == k then [r] else [])
    decreases |gs|
  {
    if gs == [] {
    } else if gs[0].key == k {
      var ins := Insert(gs, k, r, less);
      assert ins[1..] == gs[1..];
    } else if less(k, gs[0].key) {
      var ins := Insert(gs, k, r, less);
      assert ins[1..] == gs;
      if x == k {
        assert k !in KeySet(gs) by {
          SortedTail(gs, less);
        }
        MembersOfAbsent(gs, k);
      }
    } else {
      var ins := Insert(gs, k, r, less);
      assert ins[1..] == Insert(gs[1..], k, r, less);
      SortedTail(gs, less);
      InsertMembers(gs[1..], k, r, less, x);
    }
  }

  lemma {:induction false} InsertNonEmpty<K(!new), R>(gs: seq<Group<K, R>>, k: K, r: R, less: (K, K) -> bool)
    requires NonEmptyGroups(gs)
    ensures NonEmptyGroups(Insert(gs, k, r, less))
    decreases |gs|
  {
    if gs != [] && gs[0].key != k && !less(k, gs[0].key) {
      InsertNonEmpty(gs[1..], k, r, less);
      var ins := Insert(gs, k, r, less);
      assert ins[1..] == Insert(gs[1..], k, r, less);
    }
  }

  lemma {:induction false} InsertFlatten<K(!new), R>(gs: seq<Group<K, R>>, k: K, r: R, less: (K, K) -> bool)
    ensures multiset(Flatten(Insert(gs, k, r, less))) == multiset(Flatten(gs)) + multiset{r}
    decreases |gs|
  {
    var ins := Insert(gs, k, r, less);
    if gs == [] {
      assert Flatten(ins) == [r] + Flatten(ins[1..]);
    } else if gs[0].key == k {
      assert ins[1..] == gs[1..];
      assert Flatten(ins) == (gs[0].members + [r]) + Flatten(gs[1..]);
    } else if less(k, gs[0].key) {
      assert ins[1..] == gs;
      assert Flatten(ins) == [r] + Flatten(gs);
    } else {
      assert ins[1..] == Insert(gs[1..], k, r, less);
      InsertFlatten(gs[1..], k, r, less);
      assert Flatten(ins) == gs[0].members + Flatten(Insert(gs[1..], k, r, less));
    }
  }

  /** What `GroupBy` computes, stated through the lookup `MembersOf`. */
  lemma {:induction false} GroupByInvariant<R, K(!new)>(rows: seq<R>, key: R -> K, less: (K, K) -> bool)
    requires StrictTotalOrder(less)
    ensures var gs := GroupBy(rows, key, less);
      && Sorted(gs, less)
      && NonEmptyGroups(gs)
      && KeySet(gs) == RowKeys(rows, key)
      && (forall x :: MembersOf(gs, x) == Filter(rows, key, x))
      && multiset(Flatten(gs)) == multiset(rows)
    decreases |rows|
  {
    if rows != [] {
      var init, r := rows[..|rows| - 1], rows[|rows| - 1];
      assert rows == init + [r];
      GroupByInvariant(init, key, less);
      var gs0 := GroupBy(init, key, less);
      InsertSorted(gs0, key(r), r, less);
      InsertNonEmpty(gs0, key(r), r, less);
      InsertKeys(gs0, key(r), r, less);
      InsertFlatten(gs0, key(r), r, less);
      forall x ensures MembersOf(GroupBy(rows, key, less), x) == Filter(rows, key, x) {
        InsertMembers(gs0, key(r), r, less, x);
      }
    }
  }

  lemma {:induction false} MembersOfAt<K(!new), R>(gs: seq<Group<K, R>>, i: nat, less: (K, K) -> bool)
    requires StrictTotalOrder(less) && Sorted(gs, less) && i < |gs|
    ensures MembersOf(gs, gs[i].key) == gs[i].members
    decreases i
  {
    if i > 0 {
      assert less(gs[0].key, gs[i].key);
      SortedTail(gs, less);
      assert gs[1..][i - 1] == gs[i];
      MembersOfAt(gs[1..], i - 1, less);
    }
  }

  lemma {:induction false} FilterKeys<R, K(!new)>(rows: seq<R>, key: R -> K, k: K)
    ensures forall m :: m in Filter(rows, key, k) ==> key(m) == k
    ensures forall m :: m in rows && key(m) == k ==> m in Filter(rows, key, k)
    ensures forall m :: m in Filter(rows, key, k) ==> m in rows
    decreases |rows|
  {
    if rows != [] {
      var init := rows[..|rows| - 1];
      FilterKeys(init, key, k);
      assert rows == init + [rows[|rows| - 1]];
    }
  }

  lemma {:induction false} RowKeysHas<R, K(!new)>(rows: seq<R>, key: R -> K, j: nat)
    requires j < |rows|
    ensures key(rows[j]) in RowKeys(rows, key)
    decreases |rows|
  {
    if j < |rows| - 1 {
      RowKeysHas(rows[..|rows| - 1], key, j);
    }
  }

  /** The grouping contract: groups in strictly ascending key order, each holding exactly
      the rows with its key in input order, and every row's key has its group. */
  lemma GroupBySpec<R, K(!new)>(rows: seq<R>, key: R -> K, less: (K, K) -> bool)
    requires StrictTotalOrder(less)
    ensures var gs := GroupBy(rows, key, less);
      && (forall i, j :: 0 <= i < j < |gs| ==> less(gs[i].key, gs[j].key))
      && (forall i :: 0 <= i < |gs| ==> |gs[i].members| > 0 && gs[i].members == Filter(rows, key, gs[i].key))
      && (forall j :: 0 <= j < |rows| ==> exists i :: 0 <= i < |gs| && gs[i].key == key(rows[j]))
  {
    var gs := GroupBy(rows, key, less);
    GroupByInvariant(rows, key, less);
    forall i | 0 <= i < |gs| ensures gs[i].members == Filter(rows, key, gs[i].key) {
      MembersOfAt(gs, i, less);
    }
    forall j | 0 <= j < |rows| ensures exists i :: 0 <= i < |gs| && gs[i].key == key(rows[j]) {
      RowKeysHas(rows, key, j);
      KeySetIndex(gs, key(rows[j]));
    }
  }

  /** Every group holds a row of the input that carries the group's key. */
  lemma GroupMember<R, K(!new)>(rows: seq<R>, key: R -> K, less: (K, K) -> bool, g: nat)
    requires StrictTotalOrder(less) && g < |GroupBy(rows, key, less)|
    ensures var gr := GroupBy(rows, key, less)[g];
      gr.members != [] && gr.members[0] in rows && key(gr.members[0]) == gr.key
      && gr.members == Filter(rows, key, gr.key)
  {
    var gs := GroupBy(rows, key, less);
    GroupBySpec(rows, key, less);
    FilterKeys(rows, key, gs[g].key);
    assert gs[g].members[0] in gs[g].members;
  }

  lemma {:induction false} FlattenKeys<K(!new), R>(gs: seq<Group<K, R>>, key: R -> K, x: R)
    requires forall i, m :: 0 <= i < |gs| && m in gs[i].members ==> key(m) == gs[i].key
    requires x in Flatten(gs)
    ensures key(x) in KeySet(gs)
    decreases |gs|
  {
    if x !in gs[0].members {
      forall i, m | 0 <= i < |gs[1..]| && m in gs[1..][i].members ensures key(m) == gs[1..][i].key {
        assert gs[1..][i] == gs[i + 1];
      }
      FlattenKeys(gs[1..], key, x);
    }
  }

  lemma {:induction false} FlattenOrdered<K(!new), R>(gs: seq<Group<K, R>>, key: R -> K, less: (K, K) -> bool)
    requires StrictTotalOrder(less) && Sorted(gs, less)
    requires forall i, m :: 0 <= i < |gs| && m in gs[i].members ==> key(m) == gs[i].key
    ensures forall i, j :: 0 <= i < j < |Flatten(gs)| ==> !less(key(Flatten(gs)[j]), key(Flatten(gs)[i]))
    decreases |gs|
  {
    if gs != [] {
      var a, rest := gs[0].members, gs[1..];
      SortedTail(gs, less);
      forall i, m | 0 <= i < |rest| && m in rest[i].members ensures key(m) == rest[i].key {
        assert rest[i] == gs[i + 1];
      }
      FlattenOrdered(rest, key, less);
      var f := Flatten(gs);
      assert f == a + Flatten(rest);
      forall i, j | 0 <= i < j < |f| ensures !less(key(f[j]), key(f[i])) {
        if j < |a| {
          assert f[i] in gs[0].members && f[j] in gs[0].members;
        } else if i < |a| {
          assert f[i] in gs[0].members;
          assert f[j] == Flatten(rest)[j - |a|];
          FlattenKeys(rest, key, f[j]);
          assert less(gs[0].key, key(f[j]));
        } else {
          assert f[i] == Flatten(rest)[i - |a|] && f[j] == Flatten(rest)[j - |a|];
        }
      }
    }
  }

  /** The sort by key: a permutation of the rows with keys in ascending order. */
  lemma SortBySpec<R, K(!new)>(rows: seq<R>, key: R -> K, less: (K, K) -> bool)
    requires StrictTotalOrder(less)
    ensures multiset(SortBy(rows, key, less)) == multiset(rows)
    ensures var s := SortBy(rows, key, less);
      forall i, j :: 0 <= i < j < |s| ==> !less(key(s[j]), key(s[i]))
  {
    var gs := GroupBy(rows, key, less);
    GroupBySpec(rows, key, less);
    GroupByInvariant(rows, key, less);
    forall i, m | 0 <= i < |gs| && m in gs[i].members ensures key(m) == gs[i].key {
      FilterKeys(rows, key, gs[i].key);
    }
    FlattenOrdered(gs, key, less);
  }

  /** Keys that tell the rows apart. */
  ghost predicate DistinctKeys<R, K>(rows: seq<R>, key: R -> K)
  {
    forall i, j :: 0 <= i < j < |rows| ==> key(rows[i]) != key(rows[j])
  }

  lemma {:induction false} FilterDistinct<R, K(!new)>(rows: seq<R>, key: R -> K, k: K)
    requires DistinctKeys(rows, key)
    ensures |Filter(rows, key, k)| <= 1
    decreases |rows|
  {
    if rows != [] {
      var init, last := rows[..|rows| - 1], rows[|rows| - 1];
      FilterDistinct(init, key, k);
      if key(last) == k && Filter(init, key, k) != [] {
        assert Filter(init, key, k)[0] in Filter(init, key, k);
        FilterKeys(init, key, k);
      }
    }
  }

  lemma {:induction false} FlattenSingletons<K, R>(gs: seq<Group<K, R>>)
    requires forall i :: 0 <= i < |gs| ==> |gs[i].members| == 1
    ensures |Flatten(gs)| == |gs|
    ensures forall i :: 0 <= i < |gs| ==> Flatten(gs)[i] == gs[i].members[0]
    decreases |gs|
  {
    if gs != [] {
      FlattenSingletons(gs[1..]);
      assert Flatten(gs) == [gs[0].members[0]] + Flatten(gs[1..]);
    }
  }

  /** Sorting rows whose keys are pairwise distinct: a permutation in strictly ascending
      key order. */
  lemma SortByDistinct<R, K(!new)>(rows: seq<R>, key: R -> K, less: (K, K) -> bool)
    requires StrictTotalOrder(less) && DistinctKeys(rows, key)
    ensures multiset(SortBy(rows, key, less)) == multiset(rows)
    ensures var s := SortBy(rows, key, less);
      forall i, j :: 0 <= i < j < |s| ==> less(key(s[i]), key(s[j]))
  {
    var gs := GroupBy(rows, key, less);
    GroupBySpec(rows, key, less);
    GroupByInvariant(rows, key, less);
    forall i | 0 <= i < |gs| ensures |gs[i].members| == 1 && key(gs[i].members[0]) == gs[i].key {
      FilterDistinct(rows, key, gs[i].key);
      FilterKeys(rows, key, gs[i].key);
      assert gs[i].members[0] in gs[i].members;
    }
    FlattenSingletons(gs);
  }
}

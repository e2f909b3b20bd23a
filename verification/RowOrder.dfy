/** Reading a table without an order: the rows come back in any order the database likes. */
module RowOrder {
  import opened Prelude

  /** The same rows, each as often, in any order. */
  ghost predicate SameRows<T>(s: seq<T>, t: seq<T>) {
    multiset(s) == multiset(t)
  }

  /** A read without ORDER BY. */
  method ReadRows<T(==)>(stored: seq<T>) returns (read: seq<T>)
    ensures SameRows(stored, read)
  {
    read := [];
    var left := multiset(stored);
    while left != multiset{}
      invariant multiset(read) + left == multiset(stored)
      decreases |left|
    {
      var row :| row in left;
      read := read + [row];
      left := left - multiset{row};
    }
  }

  // Orders as lists of places ---------------------------------------------------------------------

  /** Every place below n, once. */
  ghost predicate IsOrder(order: seq<nat>, n: nat) {
    |order| == n && Distinct(order) && forall i | 0 <= i < n :: order[i] < n
  }

  ghost function Reorder<T>(s: seq<T>, order: seq<nat>): seq<T>
    requires IsOrder(order, |s|)
  {
    seq(|s|, i requires 0 <= i < |s| => s[order[i]])
  }

  lemma SameRowsMembers<T>(s: seq<T>, t: seq<T>)
    requires SameRows(s, t)
    ensures |s| == |t| && forall x :: x in s <==> x in t
  {
    assert |multiset(s)| == |s| && |multiset(t)| == |t|;
    assert forall x :: x in s <==> x in multiset(s);
    assert forall x :: x in t <==> x in multiset(t);
  }

  function Without<T>(s: seq<T>, j: nat): seq<T>
    requires j < |s|
  {
    s[..j] + s[j + 1..]
  }

  lemma WithoutRows<T>(s: seq<T>, j: nat)
    requires j < |s|
    ensures multiset(s) == multiset(Without(s, j)) + multiset{s[j]}
  {
    assert s == s[..j] + [s[j]] + s[j + 1..];
  }

  /** The places of a list from which place j has been taken out. */
  function Shifted(order: seq<nat>, j: nat): seq<nat> {
    seq(|order|, i requires 0 <= i < |order| => if order[i] < j then order[i] else order[i] + 1)
  }

  lemma ShiftedOrder<T>(s: seq<T>, j: nat, order: seq<nat>)
    requires j < |s| && IsOrder(order, |s| - 1)
    ensures IsOrder(Shifted(order, j) + [j], |s|)
    ensures Reorder(s, Shifted(order, j) + [j]) == Reorder(Without(s, j), order) + [s[j]]
  {
    var all := Shifted(order, j) + [j];
    forall a, b | 0 <= a < b < |all|
      ensures all[a] != all[b]
    {
      if b < |order| {
        assert order[a] != order[b];
      }
    }
  }

  /** One row of each list taken out. */
  lemma RowsLeft<T>(s: seq<T>, t: seq<T>, j: nat)
    requires SameRows(s, t) && t != [] && j < |s| && s[j] == t[|t| - 1]
    ensures SameRows(Without(s, j), t[..|t| - 1])
  {
    WithoutRows(s, j);
    WithoutRows(t, |t| - 1);
    assert Without(t, |t| - 1) == t[..|t| - 1];
    assert multiset(Without(s, j)) == multiset(s) - multiset{s[j]};
  }

  /** Whatever order the rows come in, it is a list of their places. */
  lemma {:induction false} OrderOf<T>(s: seq<T>, t: seq<T>) returns (order: seq<nat>)
    requires SameRows(s, t)
    ensures IsOrder(order, |s|) && t == Reorder(s, order)
    decreases |t|
  {
    SameRowsMembers(s, t);
    if t == [] {
      order := [];
    } else {
      var n := |t| - 1;
      assert t[n] in s;
      var j :| 0 <= j < |s| && s[j] == t[n];
      RowsLeft(s, t, j);
      var rest := OrderOf(Without(s, j), t[..n]);
      ShiftedOrder(s, j, rest);
      order := Shifted(rest, j) + [j];
    }
  }

  function Places(n: nat): (places: set<nat>)
    ensures |places| == n && forall i: nat :: i in places <==> i < n
  {
    if n == 0 then {} else Places(n - 1) + {n - 1}
  }

  /** No place is left out. */
  lemma EveryPlaceIsListed(order: seq<nat>, n: nat, k: nat)
    requires IsOrder(order, n) && k < n
    ensures k in order
  {
    DistinctCount(order);
    if k !in order {
      assert Elements(order) <= Places(n) - {k};
      SubsetCount(Elements(order), Places(n) - {k});
    }
  }

  /** Without the last place, the places of one row less. */
  lemma RestIsOrder(order: seq<nat>, n: nat, j: nat)
    requires IsOrder(order, n + 1) && j <= n && order[j] == n
    ensures IsOrder(Without(order, j), n)
  {
    var rest := Without(order, j);
    forall i | 0 <= i < n
      ensures rest[i] == order[if i < j then i else i + 1] && rest[i] < n
    {
      assert order[if i < j then i else i + 1] != order[j];
    }
  }

  lemma RestIsReordered<T>(s: seq<T>, order: seq<nat>, n: nat, j: nat)
    requires |s| == n + 1 && IsOrder(order, n + 1) && j <= n && order[j] == n && IsOrder(Without(order, j), n)
    ensures Without(Reorder(s, order), j) == Reorder(s[..n], Without(order, j))
  {
  }

  lemma RowsPutBack<T>(s: seq<T>, t: seq<T>, j: nat)
    requires s != [] && j < |t| && t[j] == s[|s| - 1] && SameRows(s[..|s| - 1], Without(t, j))
    ensures SameRows(s, t)
  {
    WithoutRows(t, j);
    WithoutRows(s, |s| - 1);
    assert Without(s, |s| - 1) == s[..|s| - 1];
  }

  /** A list of places gives the same rows again. */
  lemma {:induction false} ReorderIsSameRows<T>(s: seq<T>, order: seq<nat>)
    requires IsOrder(order, |s|)
    ensures SameRows(s, Reorder(s, order))
    decreases |s|
  {
    if s == [] {
      assert Reorder(s, order) == [];
    } else {
      var n := |s| - 1;
      EveryPlaceIsListed(order, n + 1, n);
      var j :| 0 <= j <= n && order[j] == n;
      RestIsOrder(order, n, j);
      RestIsReordered(s, order, n, j);
      ReorderIsSameRows(s[..n], Without(order, j));
      RowsPutBack(s, Reorder(s, order), j);
    }
  }

  /** Two reads, one after the other. */
  ghost function Compose(first: seq<nat>, second: seq<nat>): seq<nat>
    requires IsOrder(first, |first|) && IsOrder(second, |first|)
  {
    Reorder(first, second)
  }

  lemma ComposeIsOrder<T>(s: seq<T>, first: seq<nat>, second: seq<nat>)
    requires IsOrder(first, |s|) && IsOrder(second, |s|)
    ensures IsOrder(Compose(first, second), |s|)
    ensures Reorder(Reorder(s, first), second) == Reorder(s, Compose(first, second))
  {
  }

  /** The rows with the k-th of them first. */
  function Foremost<T>(s: seq<T>, k: nat): seq<T>
    requires k < |s|
  {
    [s[k]] + Without(s, k)
  }

  lemma ForemostIsSameRows<T>(s: seq<T>, k: nat)
    requires k < |s|
    ensures SameRows(s, Foremost(s, k))
  {
    WithoutRows(s, k);
  }

  /** Rows that differ stay different. */
  lemma DistinctReordered<T>(s: seq<T>, order: seq<nat>)
    requires IsOrder(order, |s|) && Distinct(s)
    ensures Distinct(Reorder(s, order))
  {
  }
}

/** Sorting with a caller's comparison, as Go's `sort.Slice` does it. */
module Sorting {

  predicate Distinct<T(==)>(s: seq<T>) {
    forall i, j :: 0 <= i < j < |s| ==> s[i] != s[j]
  }

  // No later element comes strictly before an earlier one.
  ghost predicate Ordered<T>(s: seq<T>, less: (T, T) -> bool) {
    forall i, j :: 0 <= i < j < |s| ==> !less(s[j], s[i])
  }

  ghost predicate StrictlyOrdered<T>(s: seq<T>, less: (T, T) -> bool) {
    forall i, j :: 0 <= i < j < |s| ==> less(s[i], s[j])
  }

  // What `sort.Slice` asks of a comparison on the elements it is given: it is a strict
  // order whose ties are transitive.
  ghost predicate WeakOrder<T>(s: seq<T>, less: (T, T) -> bool) {
    && (forall x, y :: x in s && y in s && less(x, y) ==> !less(y, x))
    && (forall x, y, z :: x in s && y in s && z in s && less(x, z) ==> less(x, y) || less(y, z))
  }

  function Insert<T>(s: seq<T>, x: T, less: (T, T) -> bool): seq<T> {
    if s != [] && less(x, s[|s| - 1]) then Insert(s[..|s| - 1], x, less) + [s[|s| - 1]] else s + [x]
  }

  function SortBy<T>(s: seq<T>, less: (T, T) -> bool): seq<T> {
    if s == [] then [] else Insert(SortBy(s[..|s| - 1], less), s[|s| - 1], less)
  }

  lemma {:induction false} InsertKeepsElements<T>(s: seq<T>, x: T, less: (T, T) -> bool)
    ensures multiset(Insert(s, x, less)) == multiset(s) + multiset{x}
  {
    if s != [] {
      InsertKeepsElements(s[..|s| - 1], x, less);
      assert s == s[..|s| - 1] + [s[|s| - 1]];
    }
  }

  lemma InsertIntoPermutation<T>(s: seq<T>, r: seq<T>, x: T, less: (T, T) -> bool)
    requires multiset(r) == multiset(s)
    ensures multiset(Insert(r, x, less)) == multiset(s + [x])
  {
    InsertKeepsElements(r, x, less);
  }

  lemma {:induction false} SortByKeepsElements<T>(s: seq<T>, less: (T, T) -> bool)
    ensures multiset(SortBy(s, less)) == multiset(s)
  {
    if s != [] {
      var front, last := s[..|s| - 1], s[|s| - 1];
      SortByKeepsElements(front, less);
      InsertIntoPermutation(front, SortBy(front, less), last, less);
      assert s == front + [last];
    }
  }

  lemma LastOrEarlier<T>(s: seq<T>, x: T)
    requires s != []
    ensures x in s <==> x in s[..|s| - 1] || x == s[|s| - 1]
  {
    assert s == s[..|s| - 1] + [s[|s| - 1]];
  }

  lemma SameElements<T>(a: seq<T>, b: seq<T>)
    requires multiset(a) == multiset(b)
    ensures forall x :: x in a ==> x in b
    ensures forall x :: x in b ==> x in a
    ensures |a| == |b|
  {
    assert |multiset(a)| == |a| && |multiset(b)| == |b|;
    forall x ensures x in a <==> x in b {
      assert x in a <==> x in multiset(a);
      assert x in b <==> x in multiset(b);
    }
  }

  lemma WeakOrderOnFewer<T>(s: seq<T>, t: seq<T>, less: (T, T) -> bool)
    requires WeakOrder(s, less)
    requires forall x :: x in t ==> x in s
    ensures WeakOrder(t, less)
  {
  }

  lemma InsertMembers<T>(s: seq<T>, x: T, less: (T, T) -> bool)
    ensures forall y :: y in Insert(s, x, less) ==> y == x || y in s
  {
    InsertIntoPermutation(s, s, x, less);
    SameElements(Insert(s, x, less), s + [x]);
  }

  lemma {:induction false} InsertOrdered<T>(s: seq<T>, x: T, less: (T, T) -> bool)
    requires WeakOrder(s + [x], less)
    requires Ordered(s, less)
    ensures Ordered(Insert(s, x, less), less)
  {
    if s != [] {
      var front, last := s[..|s| - 1], s[|s| - 1];
      assert last in s + [x] && x in s + [x];
      if less(x, last) {
        WeakOrderOnFewer(s + [x], front + [x], less);
        InsertOrdered(front, x, less);
        InsertMembers(front, x, less);
        assert forall y :: y in front ==> !less(last, y);
      } else {
        assert forall y :: y in s ==> y in s + [x];
        assert forall y :: y in s ==> !less(last, y) || y == last;
        assert forall i :: 0 <= i < |s| ==> s[i] in s && !less(x, s[i]);
      }
    }
  }

  lemma {:induction false} SortByOrdered<T>(s: seq<T>, less: (T, T) -> bool)
    requires WeakOrder(s, less)
    ensures Ordered(SortBy(s, less), less)
  {
    if s != [] {
      var front, last := s[..|s| - 1], s[|s| - 1];
      assert s == front + [last];
      assert forall y :: y in front ==> y in s;
      SortByOrdered(front, less);
      var r := SortBy(front, less);
      SortByKeepsElements(front, less);
      SameElements(r, front);
      assert last in s;
      forall y | y in r + [last] ensures y in s {
        assert y == last || y in r;
      }
      InsertOrdered(r, last, less);
    }
  }

  /**
   `sort.Slice`: the result always holds the same elements; it is in order when the
   comparison is a weak order on them. Nothing is said about where ties end up.
   */
  method SortSlice<T>(s: seq<T>, less: (T, T) -> bool) returns (r: seq<T>)
    ensures multiset(r) == multiset(s)
    ensures WeakOrder(s, less) ==> Ordered(r, less)
  {
    r := SortBy(s, less);
    SortByKeepsElements(s, less);
    if WeakOrder(s, less) {
      SortByOrdered(s, less);
    }
  }

  lemma SameFirst<T>(a: seq<T>, b: seq<T>, less: (T, T) -> bool)
    requires forall x, y :: x in a && y in a && less(x, y) ==> !less(y, x)
    requires StrictlyOrdered(a, less) && StrictlyOrdered(b, less)
    requires a != [] && b != [] && a[0] in b && b[0] in a
    ensures a[0] == b[0]
  {
    assert a[0] in a;
    var i :| 0 <= i < |b| && b[i] == a[0];
    var j :| 0 <= j < |a| && a[j] == b[0];
  }

  // In a strictly ordered sequence, the first element does not occur again.
  lemma RestOf<T>(a: seq<T>, less: (T, T) -> bool)
    requires forall x, y :: x in a && y in a && less(x, y) ==> !less(y, x)
    requires StrictlyOrdered(a, less) && a != []
    ensures StrictlyOrdered(a[1..], less)
    ensures forall x :: x in a[1..] <==> x in a && x != a[0]
  {
    var rest := a[1..];
    assert forall k :: 0 <= k < |rest| ==> rest[k] == a[k + 1];
    assert a == [a[0]] + rest;
    assert a[0] in a;
    forall x | x in rest ensures x != a[0] {
      var k :| 0 <= k < |rest| && rest[k] == x;
      assert less(a[0], a[k + 1]);
    }
  }

  // A strictly ordered sequence is determined by its elements.
  lemma {:induction false} StrictOrderUnique<T>(a: seq<T>, b: seq<T>, less: (T, T) -> bool)
    requires forall x, y :: x in a && y in a && less(x, y) ==> !less(y, x)
    requires StrictlyOrdered(a, less) && StrictlyOrdered(b, less)
    requires forall x :: x in a <==> x in b
    ensures a == b
    decreases |a|
  {
    assert a != [] ==> a[0] in a;
    assert b != [] ==> b[0] in b;
    if a != [] {
      SameFirst(a, b, less);
      RestOf(a, less);
      RestOf(b, less);
      StrictOrderUnique(a[1..], b[1..], less);
      assert a == [a[0]] + a[1..];
      assert b == [b[0]] + b[1..];
    }
  }

  // ----- Ordered sequences with the same elements -----

  // Only equal elements are tied.
  ghost predicate TiesAreEqual<T>(s: seq<T>, less: (T, T) -> bool) {
    forall x, y :: x in s && y in s && !less(x, y) && !less(y, x) ==> x == y
  }

  lemma OrderedRest<T>(a: seq<T>, less: (T, T) -> bool)
    requires a != [] && Ordered(a, less)
    ensures Ordered(a[1..], less)
    ensures multiset(a[1..]) == multiset(a) - multiset{a[0]}
    ensures forall x :: x in a[1..] ==> x in a
  {
    assert a == [a[0]] + a[1..];
  }

  lemma SameHeadAndRest<T>(a: seq<T>, b: seq<T>)
    requires a != [] && b != [] && a[0] == b[0] && a[1..] == b[1..]
    ensures a == b
  {
    assert a == [a[0]] + a[1..] && b == [b[0]] + b[1..];
  }

  lemma OrderedFirst<T>(a: seq<T>, b: seq<T>, less: (T, T) -> bool)
    requires multiset(a) == multiset(b) && a != []
    requires Ordered(a, less) && Ordered(b, less) && TiesAreEqual(a, less)
    ensures b != [] && a[0] == b[0]
  {
    SameElements(a, b);
    assert a[0] in a && b[0] in b;
    var i :| 0 <= i < |a| && a[i] == b[0];
    var j :| 0 <= j < |b| && b[j] == a[0];
    assert i > 0 ==> !less(a[i], a[0]);
    assert j > 0 ==> !less(b[j], b[0]);
  }

  /** An ordered sequence is determined by its elements if only equal ones are tied. */
  lemma {:induction false} OrderedIsUnique<T>(a: seq<T>, b: seq<T>, less: (T, T) -> bool)
    requires multiset(a) == multiset(b) && Ordered(a, less) && Ordered(b, less) && TiesAreEqual(a, less)
    ensures a == b
    decreases |a|
  {
    if a == [] {
      SameElements(a, b);
    } else {
      OrderedFirst(a, b, less);
      OrderedRest(a, less);
      OrderedRest(b, less);
      OrderedIsUnique(a[1..], b[1..], less);
      SameHeadAndRest(a, b);
    }
  }

  // ----- Permutations -----

  lemma SwapKeepsElements<T>(a: seq<T>, i: nat, j: nat)
    requires i < |a| && j < |a|
    ensures multiset(a[i := a[j]][j := a[i]]) == multiset(a)
  {
  }

  lemma AnyAtPosition<T>(a: seq<T>, i: nat, x: T) returns (b: seq<T>)
    requires i < |a| && x in a
    ensures multiset(b) == multiset(a) && |b| == |a| && b[i] == x
  {
    var j :| 0 <= j < |a| && a[j] == x;
    b := a[i := a[j]][j := a[i]];
    SwapKeepsElements(a, i, j);
  }

  lemma {:induction false} DistinctByCount<T>(s: seq<T>)
    ensures Distinct(s) <==> forall x :: x in s ==> multiset(s)[x] == 1
  {
    if s != [] {
      var front, last := s[..|s| - 1], s[|s| - 1];
      assert s == front + [last];
      DistinctByCount(front);
      assert multiset(s) == multiset(front) + multiset{last};
      if Distinct(s) {
        assert last !in front;
        forall x | x in s ensures multiset(s)[x] == 1 {
          assert x == last || x in front;
        }
      }
      if forall x :: x in s ==> multiset(s)[x] == 1 {
        assert last in s;
        assert last !in multiset(front);
        assert last !in front;
        forall x | x in front ensures multiset(front)[x] == 1 {
          assert x in s && x != last;
        }
        forall i, j | 0 <= i < j < |s| ensures s[i] != s[j] {
          assert s[i] == front[i];
          assert s[i] in front;
          if j < |front| { assert s[j] == front[j]; }
        }
      }
    }
  }

  lemma PermutationDistinct<T>(a: seq<T>, b: seq<T>)
    requires multiset(a) == multiset(b) && Distinct(a)
    ensures Distinct(b)
  {
    DistinctByCount(a);
    DistinctByCount(b);
    SameElements(a, b);
  }
}

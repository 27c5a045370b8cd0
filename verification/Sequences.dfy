/** Sorting as "some sorted permutation", and sums that do not depend on order. */
module Sequences {
  // ---------------------------------------------------------------------------------------------
  // Sorting
  // ---------------------------------------------------------------------------------------------

  ghost predicate StrictWeakOrder<T(!new)>(less: (T, T) -> bool) {
    && (forall x, y :: less(x, y) ==> !less(y, x))
    && (forall x, y, z :: less(x, y) ==> less(x, z) || less(z, y))
  }

  ghost predicate Sorted<T>(s: seq<T>, less: (T, T) -> bool) {
    forall i, j :: 0 <= i < j < |s| ==> !less(s[j], s[i])
  }

  ghost predicate SortedArrangement<T>(s: seq<T>, original: seq<T>, less: (T, T) -> bool) {
    multiset(s) == multiset(original) && Sorted(s, less)
  }

  /** Elements that the order does not tell apart from `x`. */
  function Alike<T>(x: T, less: (T, T) -> bool): T -> bool {
    y => !less(x, y) && !less(y, x)
  }

  /** Elements that the order does not tell apart keep their order. */
  ghost predicate Stable<T(!new)>(s: seq<T>, original: seq<T>, less: (T, T) -> bool) {
    forall x :: Filter(s, Alike(x, less)) == Filter(original, Alike(x, less))
  }

  /** Some sorted permutation.  Callers learn nothing about the order of equivalent elements, so no
      proof can depend on how the library breaks ties. */
  method Sort<T(!new, ==)>(s: seq<T>, less: (T, T) -> bool) returns (r: seq<T>)
    requires StrictWeakOrder(less)
    ensures SortedArrangement(r, s, less)
  {
    r := StableSort(s, less);
  }

  method StableSort<T(!new, ==)>(s: seq<T>, less: (T, T) -> bool) returns (r: seq<T>)
    requires StrictWeakOrder(less)
    ensures SortedArrangement(r, s, less) && Stable(r, s, less)
  {
    r := [];
    hide SortedArrangement, Stable, StrictWeakOrder;
    NothingIsSorted(less);
    for i := 0 to |s|
      invariant SortedArrangement(r, s[..i], less) && Stable(r, s[..i], less)
    {
      assert s[..i + 1] == s[..i] + [s[i]];
      r := Insert(r, s[i], less, s[..i]);
    }
    assert s[..|s|] == s;
  }

  lemma NothingIsSorted<T(!new)>(less: (T, T) -> bool)
    ensures SortedArrangement([], [], less) && Stable([], [], less)
  {
  }

  /** Inserts after the elements that do not come later. */
  method Insert<T(!new, ==)>(s: seq<T>, x: T, less: (T, T) -> bool, ghost original: seq<T>) returns (r: seq<T>)
    requires StrictWeakOrder(less)
    requires SortedArrangement(s, original, less) && Stable(s, original, less)
    ensures SortedArrangement(r, original + [x], less) && Stable(r, original + [x], less)
  {
    hide SortedArrangement, Stable, StrictWeakOrder;
    var k := 0;
    while k < |s| && !less(x, s[k])
      invariant 0 <= k <= |s|
      invariant forall j :: 0 <= j < k ==> !less(x, s[j])
    {
      k := k + 1;
    }
    r := s[..k] + [x] + s[k..];
    InsertedIsArrangement(s, original, x, k, less);
    InsertedIsStable(s, original, x, k, less);
  }

  lemma InsertedIsArrangement<T(!new)>(s: seq<T>, original: seq<T>, x: T, k: nat, less: (T, T) -> bool)
    requires StrictWeakOrder(less) && SortedArrangement(s, original, less)
    requires k <= |s| && (k < |s| ==> less(x, s[k]))
    requires forall j :: 0 <= j < k ==> !less(x, s[j])
    ensures SortedArrangement(s[..k] + [x] + s[k..], original + [x], less)
  {
    RestNotBelow(s, x, k, less);
    InsertedIsSorted(s, x, k, less);
    hide Sorted, StrictWeakOrder;
    InsertedMultiset(s, x, k);
  }

  lemma InsertedMultiset<T>(s: seq<T>, x: T, k: nat)
    requires k <= |s|
    ensures multiset(s[..k] + [x] + s[k..]) == multiset(s + [x])
  {
    assert s == s[..k] + s[k..];
  }

  lemma InsertedIsStable<T(!new)>(s: seq<T>, original: seq<T>, x: T, k: nat, less: (T, T) -> bool)
    requires StrictWeakOrder(less) && SortedArrangement(s, original, less) && Stable(s, original, less)
    requires k <= |s| && (k < |s| ==> less(x, s[k]))
    ensures Stable(s[..k] + [x] + s[k..], original + [x], less)
  {
    forall v
      ensures Filter(s[..k] + [x] + s[k..], Alike(v, less)) == Filter(original + [x], Alike(v, less))
    {
      assert Filter(s, Alike(v, less)) == Filter(original, Alike(v, less));
      hide Filter, Stable;
      FilterOfConcatenation(original, [x], Alike(v, less));
      FilterOfConcatenation(s, [x], Alike(v, less));
      InsertedAmongAlike(s, x, k, less, v);
    }
  }

  lemma {:induction false} InsertedAmongAlike<T(!new)>(s: seq<T>, x: T, k: nat, less: (T, T) -> bool, v: T)
    requires StrictWeakOrder(less) && Sorted(s, less)
    requires k <= |s| && (k < |s| ==> less(x, s[k]))
    ensures Filter(s[..k] + [x] + s[k..], Alike(v, less)) == Filter(s + [x], Alike(v, less))
  {
    var a := Alike(v, less);
    if a(x) {
      LaterAreNotAlike(s, x, k, less, v);
    }
    hide StrictWeakOrder, Sorted, Alike;
    FilterAroundInserted(s, x, k, a);
  }

  lemma {:induction false} FilterAroundInserted<T(!new)>(s: seq<T>, x: T, k: nat, a: T -> bool)
    requires k <= |s|
    requires a(x) ==> forall y :: y in s[k..] ==> !a(y)
    ensures Filter(s[..k] + [x] + s[k..], a) == Filter(s + [x], a)
  {
    hide Filter;
    var front, back, one := Filter(s[..k], a), Filter(s[k..], a), Filter([x], a);
    FilterOfConcatenation(s[..k] + [x], s[k..], a);
    FilterOfConcatenation(s[..k], [x], a);
    FilterOfConcatenation(s[..k], s[k..], a);
    FilterOfConcatenation(s, [x], a);
    assert s == s[..k] + s[k..];
    if a(x) {
      FilterKeepsNone(s[k..], a);
      assert (front + one) + [] == (front + []) + one;
    } else {
      FilterKeepsNone([x], a);
      assert (front + []) + back == (front + back) + [];
    }
  }

  lemma LaterAreNotAlike<T(!new)>(s: seq<T>, x: T, k: nat, less: (T, T) -> bool, v: T)
    requires StrictWeakOrder(less) && Sorted(s, less)
    requires k <= |s| && (k < |s| ==> less(x, s[k]))
    requires Alike(v, less)(x)
    ensures forall y :: y in s[k..] ==> !Alike(v, less)(y)
  {
    forall j | k <= j < |s|
      ensures less(v, s[j])
    {
      assert less(x, s[k]) && (j == k || !less(s[j], s[k]));
      assert less(x, s[j]);
    }
  }

  /** A strict weak order can be sorted by: an arrangement exists. */
  lemma {:induction false} ArrangementExists<T(!new)>(s: seq<T>, less: (T, T) -> bool) returns (r: seq<T>)
    requires StrictWeakOrder(less)
    ensures SortedArrangement(r, s, less)
    decreases |s|
  {
    if s == [] {
      r := [];
    } else {
      var n := |s| - 1;
      hide SortedArrangement, StrictWeakOrder;
      var rest := ArrangementExists(s[..n], less);
      var k := InsertionPoint(rest, s[n], less);
      r := rest[..k] + [s[n]] + rest[k..];
      InsertedIsArrangement(rest, s[..n], s[n], k, less);
      assert s == s[..n] + [s[n]];
    }
  }

  lemma {:induction false} InsertionPoint<T(!new)>(s: seq<T>, x: T, less: (T, T) -> bool) returns (k: nat)
    ensures k <= |s|
    ensures forall j :: 0 <= j < k ==> !less(x, s[j])
    ensures k < |s| ==> less(x, s[k])
    decreases |s|
  {
    if s == [] || less(x, s[0]) {
      k := 0;
    } else {
      var rest := InsertionPoint(s[1..], x, less);
      k := rest + 1;
      assert forall j :: 1 <= j < k ==> s[j] == s[1..][j - 1];
    }
  }

  lemma RestNotBelow<T(!new)>(s: seq<T>, x: T, k: nat, less: (T, T) -> bool)
    requires StrictWeakOrder(less) && Sorted(s, less)
    requires k <= |s|
    requires k < |s| ==> less(x, s[k])
    ensures forall j :: k <= j < |s| ==> !less(s[j], x)
  {
  }

  lemma InsertedIsSorted<T>(s: seq<T>, x: T, k: nat, less: (T, T) -> bool)
    requires Sorted(s, less)
    requires k <= |s|
    requires forall j :: 0 <= j < k ==> !less(x, s[j])
    requires forall j :: k <= j < |s| ==> !less(s[j], x)
    ensures Sorted(s[..k] + [x] + s[k..], less)
  {
    var r := s[..k] + [x] + s[k..];
    forall i, j | 0 <= i < j < |r|
      ensures !less(r[j], r[i])
    {
      assert r[i] == if i < k then s[i] else if i == k then x else s[i - 1];
      assert r[j] == if j < k then s[j] else if j == k then x else s[j - 1];
    }
  }

  lemma TailMultiset<T>(s: seq<T>)
    requires s != []
    ensures multiset(s[1..]) == multiset(s) - multiset{s[0]}
  {
    assert s == [s[0]] + s[1..];
  }

  ghost predicate Ascending<T>(s: seq<T>, less: (T, T) -> bool) {
    forall i, j :: 0 <= i < j < |s| ==> less(s[i], s[j])
  }

  lemma SameHead<T>(a: seq<T>, b: seq<T>, less: (T, T) -> bool)
    requires a != [] && b != [] && a[0] in b && b[0] in a
    requires Ascending(a, less)
    requires Sorted(b, less)
    ensures a[0] == b[0]
  {
    var i :| 0 <= i < |b| && b[i] == a[0];
    var j :| 0 <= j < |a| && a[j] == b[0];
  }

  /** A strictly ascending sequence is the only sorted arrangement of itself. */
  lemma {:induction false} SortedIsUnique<T>(a: seq<T>, b: seq<T>, less: (T, T) -> bool)
    requires Ascending(a, less)
    requires SortedArrangement(b, a, less)
    ensures a == b
    decreases |a|
  {
    hide Sorted, Ascending;
    PermutationMembers(a, b);
    if a != [] {
      assert a[0] in b && b[0] in a;
      SameHead(a, b, less);
      TailMultiset(a);
      TailMultiset(b);
      TailAscends(a, less);
      TailSorted(b, less);
      SortedIsUnique(a[1..], b[1..], less);
      assert a == [a[0]] + a[1..] && b == [b[0]] + b[1..];
    }
  }

  lemma TailAscends<T>(s: seq<T>, less: (T, T) -> bool)
    requires s != [] && Ascending(s, less)
    ensures Ascending(s[1..], less)
  {
    var t := s[1..];
    assert forall i :: 0 <= i < |t| ==> t[i] == s[i + 1];
  }

  lemma TailSorted<T>(s: seq<T>, less: (T, T) -> bool)
    requires s != [] && Sorted(s, less)
    ensures Sorted(s[1..], less)
  {
    var t := s[1..];
    assert forall i :: 0 <= i < |t| ==> t[i] == s[i + 1];
  }

  // ---------------------------------------------------------------------------------------------
  // Order-independent quantities
  // ---------------------------------------------------------------------------------------------

  function Sum<T>(s: seq<T>, f: T -> int): int {
    if s == [] then 0 else f(s[0]) + Sum(s[1..], f)
  }

  function Map<T, U>(s: seq<T>, f: T -> U): (r: seq<U>)
    ensures |r| == |s|
    ensures forall i :: 0 <= i < |s| ==> r[i] == f(s[i])
  {
    if s == [] then [] else [f(s[0])] + Map(s[1..], f)
  }

  lemma {:induction false} SumOfConcatenation<T>(a: seq<T>, b: seq<T>, f: T -> int)
    ensures Sum(a + b, f) == Sum(a, f) + Sum(b, f)
    decreases |a|
  {
    if a == [] {
      assert a + b == b;
    } else {
      assert (a + b)[1..] == a[1..] + b;
      SumOfConcatenation(a[1..], b, f);
    }
  }

  lemma {:induction false} SumWithout<T>(s: seq<T>, i: nat, f: T -> int)
    requires i < |s|
    ensures Sum(s, f) == f(s[i]) + Sum(s[..i] + s[i + 1..], f)
  {
    assert s == s[..i] + s[i..];
    SumOfConcatenation(s[..i], s[i..], f);
    assert s[i..][1..] == s[i + 1..];
    SumOfConcatenation(s[..i], s[i + 1..], f);
  }

  /** Finds the first element of `a` in its permutation `b` and removes it from both. */
  lemma Extract<T>(a: seq<T>, b: seq<T>) returns (i: nat)
    requires a != []
    requires multiset(a) == multiset(b)
    ensures i < |b| && b[i] == a[0]
    ensures multiset(a[1..]) == multiset(b[..i] + b[i + 1..])
  {
    var x := a[0];
    assert x in multiset(b);
    i :| 0 <= i < |b| && b[i] == x;
    TailMultiset(a);
    SplitOut(b, i);
    assert multiset(a[1..]) == multiset(b) - multiset{x};
  }

  lemma {:induction false} SumOfPermutation<T>(a: seq<T>, b: seq<T>, f: T -> int)
    requires multiset(a) == multiset(b)
    ensures Sum(a, f) == Sum(b, f)
    decreases |a|
  {
    if a == [] {
      assert |multiset(b)| == 0;
    } else {
      var i := Extract(a, b);
      SumWithout(b, i, f);
      SumOfPermutation(a[1..], b[..i] + b[i + 1..], f);
    }
  }

  lemma {:induction false} SumOfUpdate<T>(s: seq<T>, i: nat, x: T, f: T -> int)
    requires i < |s|
    ensures Sum(s[i := x], f) == Sum(s, f) - f(s[i]) + f(x)
  {
    SumWithout(s, i, f);
    SumWithout(s[i := x], i, f);
    assert s[i := x][..i] + s[i := x][i + 1..] == s[..i] + s[i + 1..];
  }

  lemma {:induction false} SumAtLeastElement<T>(s: seq<T>, i: nat, f: T -> int)
    requires i < |s|
    requires forall k :: 0 <= k < |s| ==> f(s[k]) >= 0
    ensures Sum(s, f) >= f(s[i])
  {
    SumWithout(s, i, f);
    SumNonNegative(s[..i] + s[i + 1..], f);
  }

  lemma {:induction false} SumNonNegative<T>(s: seq<T>, f: T -> int)
    requires forall k :: 0 <= k < |s| ==> f(s[k]) >= 0
    ensures Sum(s, f) >= 0
    decreases |s|
  {
    if s != [] {
      SumNonNegative(s[1..], f);
    }
  }

  lemma {:induction false} SumBound<T>(s: seq<T>, f: T -> int, bound: int)
    requires forall k :: 0 <= k < |s| ==> f(s[k]) <= bound
    ensures Sum(s, f) <= |s| * bound
    decreases |s|
  {
    if s != [] {
      SumBound(s[1..], f, bound);
    }
  }

  /** Two elements that both count are the same element when the sum is at most one. */
  lemma {:induction false} SumOneIsUnique<T>(s: seq<T>, i: nat, j: nat, f: T -> int)
    requires i < |s| && j < |s|
    requires forall k :: 0 <= k < |s| ==> f(s[k]) >= 0
    requires Sum(s, f) <= 1
    requires f(s[i]) >= 1 && f(s[j]) >= 1
    ensures i == j
  {
    if i != j {
      SumWithout(s, i, f);
      var rest := s[..i] + s[i + 1..];
      var k := if j < i then j else j - 1;
      assert rest[k] == s[j];
      SumAtLeastElement(rest, k, f);
    }
  }

  lemma {:induction false} SumOneHasWitness<T>(s: seq<T>, f: T -> int) returns (i: nat)
    requires Sum(s, f) > 0
    ensures i < |s| && f(s[i]) > 0
    decreases |s|
  {
    if f(s[0]) > 0 {
      i := 0;
    } else {
      var k := SumOneHasWitness(s[1..], f);
      i := k + 1;
    }
  }

  lemma {:induction false} MapWithout<T, U>(s: seq<T>, i: nat, f: T -> U)
    requires i < |s|
    ensures multiset(Map(s, f)) == multiset{f(s[i])} + multiset(Map(s[..i] + s[i + 1..], f))
  {
    var m := Map(s, f);
    var rest := Map(s[..i] + s[i + 1..], f);
    hide Map;
    assert rest == m[..i] + m[i + 1..] by {
      assert |rest| == |m| - 1;
      assert forall k :: 0 <= k < i ==> rest[k] == m[k];
      assert forall k :: i <= k < |rest| ==> rest[k] == f(s[k + 1]) == m[k + 1];
    }
    SplitOut(m, i);
  }

  lemma SplitOut<T>(s: seq<T>, i: nat)
    requires i < |s|
    ensures multiset(s) == multiset{s[i]} + multiset(s[..i] + s[i + 1..])
  {
    assert s == s[..i] + [s[i]] + s[i + 1..];
  }

  lemma {:induction false} MapOfPermutation<T, U>(a: seq<T>, b: seq<T>, f: T -> U)
    requires multiset(a) == multiset(b)
    ensures multiset(Map(a, f)) == multiset(Map(b, f))
    decreases |a|
  {
    if a == [] {
      assert |multiset(b)| == 0;
    } else {
      var i := Extract(a, b);
      hide Map;
      MapWithout(b, i, f);
      MapWithout(a, 0, f);
      assert a[..0] + a[1..] == a[1..];
      MapOfPermutation(a[1..], b[..i] + b[i + 1..], f);
    }
  }

  lemma PermutationMembers<T>(a: seq<T>, b: seq<T>)
    requires multiset(a) == multiset(b)
    ensures |a| == |b|
    ensures forall x :: x in a <==> x in b
  {
    assert |a| == |multiset(a)| && |b| == |multiset(b)|;
    forall x
      ensures x in a <==> x in b
    {
      assert x in a <==> x in multiset(a);
      assert x in b <==> x in multiset(b);
    }
  }

  // ---------------------------------------------------------------------------------------------
  // Selection
  // ---------------------------------------------------------------------------------------------

  function Filter<T(!new)>(s: seq<T>, keep: T -> bool): (r: seq<T>)
    ensures forall x :: x in r <==> x in s && keep(x)
    ensures |r| <= |s|
  {
    if s == [] then []
    else if keep(s[0]) then [s[0]] + Filter(s[1..], keep)
    else Filter(s[1..], keep)
  }

  lemma {:induction false} FilterOfConcatenation<T(!new)>(a: seq<T>, b: seq<T>, keep: T -> bool)
    ensures Filter(a + b, keep) == Filter(a, keep) + Filter(b, keep)
    decreases |a|
  {
    if a == [] {
      assert a + b == b;
    } else {
      assert (a + b)[1..] == a[1..] + b;
      FilterOfConcatenation(a[1..], b, keep);
    }
  }

  lemma {:induction false} FilterKeepsAll<T(!new)>(s: seq<T>, keep: T -> bool)
    requires forall x :: x in s ==> keep(x)
    ensures Filter(s, keep) == s
    decreases |s|
  {
    if s != [] {
      FilterKeepsAll(s[1..], keep);
    }
  }

  lemma {:induction false} FilterKeepsNone<T(!new)>(s: seq<T>, keep: T -> bool)
    requires forall x :: x in s ==> !keep(x)
    ensures Filter(s, keep) == []
    decreases |s|
  {
    if s != [] {
      FilterKeepsNone(s[1..], keep);
    }
  }

  /** What an earlier selection does not throw away is selected in the same order. */
  lemma {:induction false} FilterAfterFilter<T(!new)>(s: seq<T>, first: T -> bool, second: T -> bool)
    requires forall x :: x in s && second(x) ==> first(x)
    ensures Filter(Filter(s, first), second) == Filter(s, second)
    decreases |s|
  {
    if s != [] {
      FilterAfterFilter(s[1..], first, second);
      assert s[0] in s;
    }
  }

  /** A selection keeps the order of what it keeps. */
  lemma {:induction false} FilterKeepsOrder<T(!new)>(s: seq<T>, keep: T -> bool, i: nat, j: nat) returns (a: nat, b: nat)
    requires i < j < |s| && keep(s[i]) && keep(s[j])
    ensures a < b < |Filter(s, keep)| && Filter(s, keep)[a] == s[i] && Filter(s, keep)[b] == s[j]
    decreases |s|
  {
    var rest := s[1..];
    assert rest[j - 1] == s[j] && s[j] in rest;
    var kept := Filter(rest, keep);
    assert Filter(s, keep) == if keep(s[0]) then [s[0]] + kept else kept;
    hide Filter;
    if i == 0 {
      assert s[j] in kept;
      var k :| 0 <= k < |kept| && kept[k] == s[j];
      ConsShifts(s[0], kept, k);
      a, b := 0, k + 1;
    } else {
      assert rest[i - 1] == s[i];
      a, b := FilterKeepsOrder(rest, keep, i - 1, j - 1);
      if keep(s[0]) {
        ConsShifts(s[0], kept, a);
        ConsShifts(s[0], kept, b);
        a, b := a + 1, b + 1;
      }
    }
  }

  lemma ConsShifts<T>(x: T, s: seq<T>, k: nat)
    requires k < |s|
    ensures ([x] + s)[k + 1] == s[k] && ([x] + s)[0] == x
  {
  }

  lemma {:induction false} FilterSame<T(!new)>(s: seq<T>, p: T -> bool, q: T -> bool)
    requires forall x :: x in s ==> p(x) == q(x)
    ensures Filter(s, p) == Filter(s, q)
    decreases |s|
  {
    if s != [] {
      assert s[0] in s;
      FilterSame(s[1..], p, q);
    }
  }

  /** Selecting twice is selecting once by both. */
  lemma {:induction false} FilterBoth<T(!new)>(s: seq<T>, p: T -> bool, q: T -> bool, both: T -> bool)
    requires forall x :: x in s ==> (both(x) <==> p(x) && q(x))
    ensures Filter(Filter(s, p), q) == Filter(s, both)
    decreases |s|
  {
    if s != [] {
      assert s[0] in s;
      FilterBoth(s[1..], p, q, both);
    }
  }

  lemma {:induction false} FilterWithout<T(!new)>(s: seq<T>, i: nat, p: T -> bool)
    requires i < |s|
    ensures multiset(Filter(s, p)) == multiset(Filter([s[i]], p)) + multiset(Filter(s[..i] + s[i + 1..], p))
  {
    hide Filter;
    assert s == s[..i] + ([s[i]] + s[i + 1..]);
    FilterOfConcatenation(s[..i], [s[i]] + s[i + 1..], p);
    FilterOfConcatenation([s[i]], s[i + 1..], p);
    FilterOfConcatenation(s[..i], s[i + 1..], p);
  }

  lemma {:induction false} FilterOfPermutation<T(!new)>(a: seq<T>, b: seq<T>, p: T -> bool)
    requires multiset(a) == multiset(b)
    ensures multiset(Filter(a, p)) == multiset(Filter(b, p))
    decreases |a|
  {
    if a == [] {
      assert |multiset(b)| == 0;
    } else {
      var i := Extract(a, b);
      hide Filter;
      FilterWithout(a, 0, p);
      FilterWithout(b, i, p);
      assert a[..0] + a[1..] == a[1..];
      FilterOfPermutation(a[1..], b[..i] + b[i + 1..], p);
    }
  }

  lemma {:induction false} FilterIsSorted<T(!new)>(s: seq<T>, less: (T, T) -> bool, p: T -> bool)
    requires Sorted(s, less)
    ensures Sorted(Filter(s, p), less)
    decreases |s|
  {
    if s != [] {
      TailSorted(s, less);
      FilterIsSorted(s[1..], less, p);
      if p(s[0]) {
        var rest := Filter(s[1..], p);
        forall k | 0 <= k < |rest|
          ensures !less(rest[k], s[0])
        {
          assert rest[k] in s[1..];
          var j :| 0 <= j < |s[1..]| && s[1..][j] == rest[k];
          assert s[j + 1] == rest[k];
        }
        ConsIsSorted(s[0], rest, less);
      }
    }
  }

  lemma ConsIsSorted<T>(x: T, rest: seq<T>, less: (T, T) -> bool)
    requires Sorted(rest, less)
    requires forall k :: 0 <= k < |rest| ==> !less(rest[k], x)
    ensures Sorted([x] + rest, less)
  {
  }

  /** Everything is of one of two kinds, and the first kind comes before the second. */
  ghost predicate Separates<T(!new)>(less: (T, T) -> bool, first: T -> bool, second: T -> bool) {
    && (forall x :: first(x) <==> !second(x))
    && (forall x, y :: first(x) && second(y) ==> less(x, y))
  }

  lemma OneKind<T(!new)>(less: (T, T) -> bool, first: T -> bool, second: T -> bool, x: T)
    requires Separates(less, first, second)
    ensures first(x) <==> !second(x)
  {
  }

  /** If everything of the first kind comes before everything of the second, a sorted sequence has the first
      kind in front. */
  lemma {:induction false} SortedSplits<T(!new)>(s: seq<T>, less: (T, T) -> bool, first: T -> bool, second: T -> bool)
    requires Sorted(s, less)
    requires Separates(less, first, second)
    ensures s == Filter(s, first) + Filter(s, second)
    decreases |s|
  {
    if s != [] {
      OneKind(less, first, second, s[0]);
      hide Separates, Sorted, Filter;
      if first(s[0]) {
        TailSorted(s, less);
        SortedSplits(s[1..], less, first, second);
        FirstInFront(s, first, second);
      } else {
        OnlySecond(s, less, first, second);
        FilterKeepsNone(s, first);
        FilterKeepsAll(s, second);
      }
    }
  }

  lemma FirstInFront<T(!new)>(s: seq<T>, first: T -> bool, second: T -> bool)
    requires s != [] && first(s[0]) && !second(s[0])
    requires s[1..] == Filter(s[1..], first) + Filter(s[1..], second)
    ensures s == Filter(s, first) + Filter(s, second)
  {
    Glue(s, Filter(s[1..], first), Filter(s[1..], second));
  }

  lemma Glue<T>(s: seq<T>, a: seq<T>, b: seq<T>)
    requires s != [] && s[1..] == a + b
    ensures s == ([s[0]] + a) + b
  {
    assert s == [s[0]] + s[1..];
  }

  lemma OnlySecond<T(!new)>(s: seq<T>, less: (T, T) -> bool, first: T -> bool, second: T -> bool)
    requires s != [] && Sorted(s, less) && second(s[0])
    requires Separates(less, first, second)
    ensures forall x :: x in s ==> second(x) && !first(x)
  {
    forall j | 0 <= j < |s|
      ensures second(s[j]) && !first(s[j])
    {
      assert j == 0 || !less(s[j], s[0]);
    }
  }

  /** Sorted arrangements are unique where the order tells different elements apart. */
  lemma {:induction false} ArrangementIsUnique<T(!new)>(a: seq<T>, b: seq<T>, less: (T, T) -> bool)
    requires multiset(a) == multiset(b) && Sorted(a, less) && Sorted(b, less)
    requires forall x, y :: x in a && y in a && !less(x, y) && !less(y, x) ==> x == y
    requires forall x :: x in a ==> !less(x, x)
    ensures a == b
    decreases |a|
  {
    PermutationMembers(a, b);
    if a != [] {
      HeadIsLeast(a, b[0], less);
      HeadIsLeast(b, a[0], less);
      TailMultiset(a);
      TailMultiset(b);
      TailSorted(a, less);
      TailSorted(b, less);
      assert forall x :: x in a[1..] ==> x in a;
      hide Sorted;
      ArrangementIsUnique(a[1..], b[1..], less);
      assert a == [a[0]] + a[1..] && b == [b[0]] + b[1..];
    }
  }

  lemma HeadIsLeast<T>(s: seq<T>, x: T, less: (T, T) -> bool)
    requires s != [] && Sorted(s, less) && x in s && !less(x, x)
    ensures !less(x, s[0])
  {
    var i :| 0 <= i < |s| && s[i] == x;
  }
}

/** Sorting by a strict order, and the fact that a sorted arrangement of distinct keys is unique. */
module Sorting {

  /** A strict weak order: the contract of a Go comparison function. */
  ghost predicate WeakOrder<T(!new)>(less: (T, T) -> bool) {
    && (forall a :: !less(a, a))
    && (forall a, b, c :: less(a, b) && less(b, c) ==> less(a, c))
    && (forall a, b, c :: less(a, c) ==> less(a, b) || less(b, c))
  }

  /** Any two different elements of `s` are ordered. */
  ghost predicate TotalOn<T>(s: set<T>, less: (T, T) -> bool) {
    forall a, b | a in s && b in s && a != b :: less(a, b) || less(b, a)
  }

  ghost predicate Ordered<T>(s: seq<T>, less: (T, T) -> bool) {
    forall i, j | 0 <= i < j < |s| :: !less(s[j], s[i])
  }

  ghost predicate Distinct<T>(s: seq<T>) {
    forall i, j | 0 <= i < j < |s| :: s[i] != s[j]
  }

  ghost function Elements<T>(s: seq<T>): (r: set<T>) {
    set x | x in s
  }

  /** Inserts `x` behind everything it is not smaller than. */
  function Insert<T>(x: T, s: seq<T>, less: (T, T) -> bool): (r: seq<T>)
    ensures multiset(r) == multiset(s) + multiset{x}
    ensures |r| == |s| + 1
  {
    if s == [] then [x]
    else if less(x, s[|s| - 1]) then
      var init, last := s[..|s| - 1], s[|s| - 1];
      assert s == init + [last];
      Insert(x, init, less) + [last]
    else s + [x]
  }

  /** Stable insertion sort. */
  function Sort<T>(s: seq<T>, less: (T, T) -> bool): (r: seq<T>)
    ensures multiset(r) == multiset(s)
    ensures |r| == |s|
  {
    if s == [] then []
    else
      var init, last := s[..|s| - 1], s[|s| - 1];
      assert s == init + [last];
      Insert(last, Sort(init, less), less)
  }

  lemma OrderLaws<T(!new)>(less: (T, T) -> bool, a: T, b: T, c: T)
    requires WeakOrder(less)
    ensures !less(a, a)
    ensures less(a, b) && less(b, c) ==> less(a, c)
    ensures less(a, c) ==> less(a, b) || less(b, c)
  {
  }

  lemma {:induction false} InsertOrdered<T(!new)>(x: T, s: seq<T>, less: (T, T) -> bool)
    requires WeakOrder(less) && Ordered(s, less)
    ensures Ordered(Insert(x, s, less), less)
  {
    hide WeakOrder;
    if s != [] {
      var init, last := s[..|s| - 1], s[|s| - 1];
      if less(x, last) {
        InsertOrdered(x, init, less);
        var r := Insert(x, init, less);
        forall i | 0 <= i < |r|
          ensures !less(last, r[i])
        {
          OrderLaws(less, x, last, x);
          assert r[i] in multiset(r);
          assert r[i] == x || r[i] in init;
        }
      } else {
        forall i | 0 <= i < |s|
          ensures !less(x, s[i])
        {
          OrderLaws(less, x, last, s[i]);
        }
      }
    }
  }

  lemma {:induction false} SortOrdered<T(!new)>(s: seq<T>, less: (T, T) -> bool)
    requires WeakOrder(less)
    ensures Ordered(Sort(s, less), less)
  {
    hide WeakOrder;
    if s != [] {
      SortOrdered(s[..|s| - 1], less);
      InsertOrdered(s[|s| - 1], Sort(s[..|s| - 1], less), less);
    }
  }

  lemma SameElements<T>(a: seq<T>, b: seq<T>)
    requires multiset(a) == multiset(b)
    ensures Elements(a) == Elements(b)
    ensures |a| == |b|
  {
    forall x ensures x in a <==> x in b {
      assert x in multiset(a) <==> x in multiset(b);
    }
    assert |multiset(a)| == |a| && |multiset(b)| == |b|;
  }

  lemma SubsetSize<T>(a: set<T>, b: set<T>)
    requires a <= b
    ensures |a| <= |b|
  {
    assert b == a + (b - a);
  }

  lemma {:induction false} DistinctSize<T>(s: seq<T>)
    ensures |Elements(s)| <= |s|
    ensures Distinct(s) <==> |Elements(s)| == |s|
  {
    if s == [] {
      assert Elements(s) == {};
    } else {
      var init, last := s[..|s| - 1], s[|s| - 1];
      DistinctSize(init);
      assert Elements(s) == Elements(init) + {last};
      if last in init {
        assert Elements(s) == Elements(init);
      } else {
        assert forall i, j | 0 <= i < j < |s| :: s[i] == s[j] ==> j < |s| - 1 && init[i] == init[j];
      }
    }
  }

  lemma DistinctPermutation<T>(a: seq<T>, b: seq<T>)
    requires Distinct(a) && multiset(a) == multiset(b)
    ensures Distinct(b)
  {
    SameElements(a, b); DistinctSize(a); DistinctSize(b);
  }

  /** Two sorted arrangements of the same distinct elements are the same sequence. */
  lemma {:induction false} SortedUnique<T(!new)>(a: seq<T>, b: seq<T>, less: (T, T) -> bool)
    requires WeakOrder(less) && Distinct(a) && Distinct(b) && Elements(a) == Elements(b)
    requires TotalOn(Elements(a), less) && Ordered(a, less) && Ordered(b, less)
    ensures a == b
  {
    hide WeakOrder;
    DistinctSize(a); DistinctSize(b);
    if a == [] {
    } else {
      var la, lb := a[|a| - 1], b[|b| - 1];
      assert la in Elements(b) && lb in Elements(a);
      assert la == lb;
      var a', b' := a[..|a| - 1], b[..|b| - 1];
      assert a == a' + [la] && b == b' + [lb];
      assert Elements(a') == Elements(a) - {la};
      assert Elements(b') == Elements(b) - {lb};
      SortedUnique(a', b', less);
    }
  }

  lemma SortUnique<T(!new)>(a: seq<T>, b: seq<T>, less: (T, T) -> bool)
    requires WeakOrder(less) && Distinct(a) && Distinct(b) && Elements(a) == Elements(b)
    requires TotalOn(Elements(a), less)
    ensures Sort(a, less) == Sort(b, less)
  {
    hide WeakOrder;
    SortOrdered(a, less); SortOrdered(b, less);
    DistinctPermutation(a, Sort(a, less)); DistinctPermutation(b, Sort(b, less));
    SameElements(a, Sort(a, less)); SameElements(b, Sort(b, less));
    SortedUnique(Sort(a, less), Sort(b, less), less);
  }

  ghost function Arrange<T>(s: set<T>): (r: seq<T>)
    ensures Distinct(r) && Elements(r) == s
  {
    if s == {} then []
    else
      var x :| x in s;
      var r := Arrange(s - {x});
      assert x !in Elements(r);
      assert Elements(r + [x]) == Elements(r) + {x};
      r + [x]
  }

  /** The elements of a set in sorted order. */
  ghost function SortedSet<T>(s: set<T>, less: (T, T) -> bool): (r: seq<T>)
    ensures |r| == |s| && Distinct(r) && Elements(r) == s
  {
    var r := Sort(Arrange(s), less);
    DistinctPermutation(Arrange(s), r); SameElements(Arrange(s), r); DistinctSize(r);
    r
  }

  lemma SortedSetOrdered<T(!new)>(s: set<T>, less: (T, T) -> bool)
    requires WeakOrder(less)
    ensures Ordered(SortedSet(s, less), less)
  {
    SortOrdered(Arrange(s), less);
  }

  /** Whatever order a set is iterated in, sorting forgets it. */
  lemma SortForgetsOrder<T(!new)>(r: seq<T>, s: set<T>, less: (T, T) -> bool)
    requires WeakOrder(less) && Distinct(r) && Elements(r) == s && TotalOn(s, less)
    ensures Sort(r, less) == SortedSet(s, less)
  {
    SortUnique(r, Arrange(s), less);
  }

  /** The elements of a set in an arbitrary order, as a Go map is iterated. */
  method Enumerate<T(==)>(s: set<T>) returns (r: seq<T>)
    ensures Distinct(r) && Elements(r) == s
  {
    r := [];
    var rest := s;
    while rest != {}
      invariant rest <= s
      invariant Distinct(r) && Elements(r) == s - rest
      decreases rest
    {
      var x :| x in rest;
      assert x !in Elements(r);
      assert Elements(r + [x]) == Elements(r) + {x};
      r := r + [x];
      rest := rest - {x};
    }
  }
}

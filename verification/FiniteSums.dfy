/** Sums over finite sets, independent of the order in which the set is walked. */
module FiniteSums {

  ghost function Sum<T>(s: set<T>, f: T -> int): (r: int) {
    if s == {} then 0
    else
      var x :| x in s;
      f(x) + Sum(s - {x}, f)
  }

  lemma {:induction false} SumRemove<T>(s: set<T>, f: T -> int, x: T)
    requires x in s
    ensures Sum(s, f) == f(x) + Sum(s - {x}, f)
  {
    var y :| y in s && Sum(s, f) == f(y) + Sum(s - {y}, f);
    if y != x {
      SumRemove(s - {y}, f, x);
      SumRemove(s - {x}, f, y);
      assert s - {y} - {x} == s - {x} - {y};
    }
  }

  lemma SumInsert<T>(s: set<T>, f: T -> int, x: T)
    requires x !in s
    ensures Sum(s + {x}, f) == f(x) + Sum(s, f)
  {
    SumRemove(s + {x}, f, x);
    assert s + {x} - {x} == s;
  }

  lemma {:induction false} SumEq<T>(s: set<T>, f: T -> int, g: T -> int)
    requires forall x | x in s :: f(x) == g(x)
    ensures Sum(s, f) == Sum(s, g)
  {
    if x :| x in s {
      SumRemove(s, f, x); SumRemove(s, g, x);
      SumEq(s - {x}, f, g);
    }
  }

  lemma {:induction false} SumNonnegative<T>(s: set<T>, f: T -> int)
    requires forall x | x in s :: f(x) >= 0
    ensures Sum(s, f) >= 0
    ensures Sum(s, f) == 0 <==> forall x | x in s :: f(x) == 0
  {
    if y :| y in s {
      SumRemove(s, f, y);
      SumNonnegative(s - {y}, f);
    }
  }

  lemma {:induction false} SumMonotone<T>(s: set<T>, t: set<T>, f: T -> int)
    requires s <= t && forall x | x in t :: f(x) >= 0
    ensures Sum(s, f) <= Sum(t, f)
  {
    if s != t {
      var x :| x in t && x !in s;
      SumRemove(t, f, x);
      SumMonotone(s, t - {x}, f);
    }
  }

  lemma {:induction false} SumConstant<T>(s: set<T>, f: T -> int, k: int)
    requires forall x | x in s :: f(x) == k
    ensures Sum(s, f) == |s| * k
  {
    if x :| x in s {
      SumRemove(s, f, x);
      SumConstant(s - {x}, f, k);
      assert |s| == |s - {x}| + 1;
    }
  }
}

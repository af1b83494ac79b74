/** Sums over finite sets. */
module Sums {

  ghost function SumOver<T(!new)>(s: set<T>, f: T -> int): int
    decreases |s|
  {
    if s == {} then 0
    else
      var x :| x in s;
      f(x) + SumOver(s - {x}, f)
  }

  lemma {:induction false} SumRemove<T(!new)>(s: set<T>, f: T -> int, y: T)
    requires y in s
    ensures SumOver(s, f) == f(y) + SumOver(s - {y}, f)
    decreases |s|
  {
    var x :| x in s && SumOver(s, f) == f(x) + SumOver(s - {x}, f);
    if x != y {
      SumRemove(s - {x}, f, y);
      SumRemove(s - {y}, f, x);
      assert s - {x} - {y} == s - {y} - {x};
    }
  }

  lemma {:induction false} SumInsert<T(!new)>(s: set<T>, f: T -> int, y: T)
    requires y !in s
    ensures SumOver(s + {y}, f) == SumOver(s, f) + f(y)
  {
    SumRemove(s + {y}, f, y);
    assert s + {y} - {y} == s;
  }

  lemma {:induction false} SumAgree<T(!new)>(s: set<T>, f: T -> int, g: T -> int)
    requires forall x | x in s :: f(x) == g(x)
    ensures SumOver(s, f) == SumOver(s, g)
    decreases |s|
  {
    if s != {} {
      var x :| x in s;
      SumRemove(s, f, x);
      SumRemove(s, g, x);
      SumAgree(s - {x}, f, g);
    }
  }

  lemma {:induction false} SumZero<T(!new)>(s: set<T>, f: T -> int)
    requires forall x | x in s :: f(x) == 0
    ensures SumOver(s, f) == 0
    decreases |s|
  {
    if s != {} {
      var x :| x in s;
      SumRemove(s, f, x);
      SumZero(s - {x}, f);
    }
  }

  lemma {:induction false} SumUnion<T(!new)>(a: set<T>, b: set<T>, f: T -> int)
    requires a !! b
    ensures SumOver(a + b, f) == SumOver(a, f) + SumOver(b, f)
    decreases |b|
  {
    if b == {} {
      assert a + b == a;
    } else {
      var x :| x in b;
      SumUnion(a, b - {x}, f);
      SumRemove(b, f, x);
      SumRemove(a + b, f, x);
      assert a + b - {x} == a + (b - {x});
    }
  }

  lemma {:induction false} SumSplit<T(!new)>(s: set<T>, f: T -> int, g: T -> int, h: T -> int)
    requires forall x | x in s :: h(x) == f(x) + g(x)
    ensures SumOver(s, h) == SumOver(s, f) + SumOver(s, g)
    decreases |s|
  {
    if s != {} {
      var x :| x in s;
      SumRemove(s, f, x);
      SumRemove(s, g, x);
      SumRemove(s, h, x);
      SumSplit(s - {x}, f, g, h);
    }
  }

  /** A larger domain adds nothing where the summand vanishes. */
  lemma {:induction false} SumWiden<T(!new)>(a: set<T>, b: set<T>, f: T -> int)
    requires a <= b && forall x | x in b - a :: f(x) == 0
    ensures SumOver(b, f) == SumOver(a, f)
  {
    SumUnion(a, b - a, f);
    SumZero(b - a, f);
    assert a + (b - a) == b;
  }

  /** A summand that is non-zero at one point only. */
  lemma {:induction false} SumPoint<T(!new)>(s: set<T>, f: T -> int, y: T)
    requires y in s && forall x | x in s && x != y :: f(x) == 0
    ensures SumOver(s, f) == f(y)
  {
    SumRemove(s, f, y);
    SumZero(s - {y}, f);
  }

  lemma {:induction false} SumNonNegative<T(!new)>(s: set<T>, f: T -> int)
    requires forall x | x in s :: f(x) >= 0
    ensures SumOver(s, f) >= 0
    ensures forall x | x in s :: f(x) <= SumOver(s, f)
    decreases |s|
  {
    if s != {} {
      forall x | x in s ensures f(x) <= SumOver(s, f) {
        SumRemove(s, f, x);
        SumNonNegative(s - {x}, f);
      }
      var x :| x in s;
    }
  }
}

/** Linear sums, PuLP's `lpSum`, over a sequence of index values, and the facts about them
    that the constraint systems rely on. */
module Sums {
  import opened Seqs

  /** `lpSum(f(x) for x in s)`. */
  function Sum<T>(s: seq<T>, f: T -> int): int {
    if s == [] then 0 else f(s[0]) + Sum(s[1..], f)
  }

  ghost predicate NonNeg<T>(s: seq<T>, f: T -> int) {
    forall x :: x in s ==> f(x) >= 0
  }

  /** Every summand is 0 or 1 (a PuLP `LpBinary` family). */
  ghost predicate Binary<T>(s: seq<T>, f: T -> int) {
    forall x :: x in s ==> 0 <= f(x) <= 1
  }

  /** The indices whose summand is 1. */
  function Ones<T>(s: seq<T>, f: T -> int): (r: seq<T>)
    ensures forall x :: x in r ==> x in s && f(x) == 1
    ensures forall x :: x in s && f(x) == 1 ==> x in r
    ensures NoDup(s) ==> NoDup(r)
  {
    if s == [] then []
    else
      NoDupCons(s);
      if f(s[0]) == 1 then [s[0]] + Ones(s[1..], f) else Ones(s[1..], f)
  }

  /** Extending the index sequence by one extends the indices at 1 by that index, if its
      summand is 1. */
  lemma {:induction false} OnesSnoc<T>(s: seq<T>, f: T -> int, x: T)
    ensures Ones(s + [x], f) == Ones(s, f) + (if f(x) == 1 then [x] else [])
  {
    if s != [] {
      assert (s + [x])[1..] == s[1..] + [x];
      OnesSnoc(s[1..], f, x);
    }
  }

  /** One more summand at the end adds its value. */
  lemma {:induction false} SumSnoc<T>(s: seq<T>, f: T -> int, x: T)
    ensures Sum(s + [x], f) == Sum(s, f) + f(x)
  {
    if s != [] {
      assert (s + [x])[1..] == s[1..] + [x];
      SumSnoc(s[1..], f, x);
    }
  }

  lemma {:induction false} SumNonNeg<T>(s: seq<T>, f: T -> int)
    requires NonNeg(s, f)
    ensures Sum(s, f) >= 0
  {
    if s != [] {
      SumNonNeg(s[1..], f);
    }
  }

  /** With non-negative summands, the sum bounds every summand. */
  lemma {:induction false} SumAtLeast<T>(s: seq<T>, f: T -> int, x: T)
    requires NonNeg(s, f) && x in s
    ensures Sum(s, f) >= f(x)
  {
    SumNonNeg(s[1..], f);
    if s[0] != x {
      SumAtLeast(s[1..], f, x);
    }
  }

  /** With non-negative summands, the sum bounds the summands of any two distinct indices. */
  lemma {:induction false} SumAtLeastTwo<T>(s: seq<T>, f: T -> int, x: T, y: T)
    requires NonNeg(s, f) && x in s && y in s && x != y
    ensures Sum(s, f) >= f(x) + f(y)
  {
    if s[0] == x {
      SumAtLeast(s[1..], f, y);
    } else if s[0] == y {
      SumAtLeast(s[1..], f, x);
    } else {
      SumAtLeastTwo(s[1..], f, x, y);
    }
  }

  lemma {:induction false} SumZero<T>(s: seq<T>, f: T -> int)
    requires forall x :: x in s ==> f(x) == 0
    ensures Sum(s, f) == 0
  {
    if s != [] {
      SumZero(s[1..], f);
    }
  }

  /** With non-negative summands, the sum is positive iff some summand is. */
  lemma SumPositive<T>(s: seq<T>, f: T -> int)
    requires NonNeg(s, f)
    ensures Sum(s, f) > 0 <==> exists x :: x in s && f(x) > 0
  {
    if exists x :: x in s && f(x) > 0 {
      var x :| x in s && f(x) > 0;
      SumAtLeast(s, f, x);
    } else {
      SumZero(s, f);
    }
  }

  /** With non-negative summands, a zero sum forces every summand to zero. */
  lemma SumZeroEach<T>(s: seq<T>, f: T -> int)
    requires NonNeg(s, f) && Sum(s, f) == 0
    ensures forall x :: x in s ==> f(x) == 0
  {
    forall x | x in s ensures f(x) == 0 {
      SumAtLeast(s, f, x);
    }
  }

  /** A binary family summing to at most 1 has at most one index at 1. */
  lemma AtMostOne<T>(s: seq<T>, f: T -> int)
    requires Binary(s, f) && Sum(s, f) <= 1
    ensures forall x, y :: x in s && y in s && f(x) == 1 && f(y) == 1 ==> x == y
  {
    forall x, y | x in s && y in s && f(x) == 1 && f(y) == 1 ensures x == y {
      if x != y {
        SumAtLeastTwo(s, f, x, y);
      }
    }
  }

  /** A binary family summing to exactly 1 has exactly one index at 1. */
  lemma ExactlyOne<T>(s: seq<T>, f: T -> int)
    requires Binary(s, f) && Sum(s, f) == 1
    ensures exists x :: x in s && f(x) == 1
    ensures forall x, y :: x in s && y in s && f(x) == 1 && f(y) == 1 ==> x == y
  {
    SumPositive(s, f);
    AtMostOne(s, f);
  }

  /** A binary family sums to the number of its indices at 1. */
  lemma {:induction false} SumOfBinary<T>(s: seq<T>, f: T -> int)
    requires Binary(s, f)
    ensures Sum(s, f) == |Ones(s, f)|
  {
    if s != [] {
      SumOfBinary(s[1..], f);
    }
  }

  /** Lowering summands pointwise, and one of them strictly, lowers the sum strictly. */
  lemma {:induction false} SumStrictlyLess<T>(s: seq<T>, f: T -> int, g: T -> int, x: T)
    requires forall y :: y in s ==> f(y) <= g(y)
    requires x in s && f(x) < g(x)
    ensures Sum(s, f) < Sum(s, g)
  {
    if s[0] == x {
      SumLessEq(s[1..], f, g);
    } else {
      SumStrictlyLess(s[1..], f, g, x);
    }
  }

  lemma {:induction false} SumLessEq<T>(s: seq<T>, f: T -> int, g: T -> int)
    requires forall y :: y in s ==> f(y) <= g(y)
    ensures Sum(s, f) <= Sum(s, g)
  {
    if s != [] {
      SumLessEq(s[1..], f, g);
    }
  }

  lemma {:induction false} SumCongruent<T>(s: seq<T>, f: T -> int, g: T -> int)
    requires forall y :: y in s ==> f(y) == g(y)
    ensures Sum(s, f) == Sum(s, g)
  {
    if s != [] {
      SumCongruent(s[1..], f, g);
    }
  }
}

/** The arithmetic the metrics need beyond `+ - * /` on reals: `Math.max`,
    `Math.abs`, `Math.sqrt` (abstracted to its sign) and `Math.pow` with a
    natural exponent, plus sums over sequences. */
module Numeric {

  function Max(a: real, b: real): (m: real)
    ensures m >= a && m >= b
    ensures m == a || m == b
  {
    if a >= b then a else b
  }

  function Abs(x: real): (r: real)
    ensures r >= 0.0
    ensures r == x || r == -x
  {
    if x >= 0.0 then x else -x
  }

  /** `Math.sqrt`, known only by its sign: some non-negative number that is
      positive exactly when its argument is. No exact value is modelled. */
  ghost function Sqrt(x: real): (r: real)
    requires x >= 0.0
    ensures r >= 0.0
    ensures r > 0.0 <==> x > 0.0
  {
    assert SqrtSign(x, x);
    var r :| SqrtSign(x, r); r
  }

  ghost predicate SqrtSign(x: real, r: real)
  {
    r >= 0.0 && (r > 0.0 <==> x > 0.0)
  }

  /** `Math.pow(b, n)` for a natural exponent. */
  function Pow(b: real, n: nat): real
  {
    if n == 0 then 1.0 else b * Pow(b, n - 1)
  }

  lemma {:induction false} PowOfOne(n: nat)
    ensures Pow(1.0, n) == 1.0
  {
    if n > 0 {
      PowOfOne(n - 1);
    }
  }

  /** A base of at least one compounds to at least one. */
  lemma {:induction false} PowAtLeastOne(b: real, n: nat)
    requires b >= 1.0
    ensures Pow(b, n) >= 1.0
  {
    if n > 0 {
      PowAtLeastOne(b, n - 1);
      assert b * Pow(b, n - 1) >= 1.0 * Pow(b, n - 1);
    }
  }

  /** A base in [0, 1) compounds over a positive number of periods to below one. */
  lemma {:induction false} PowBelowOne(b: real, n: nat)
    requires 0.0 <= b < 1.0 && n > 0
    ensures Pow(b, n) < 1.0
  {
    if n > 1 {
      var p := Pow(b, n - 1);
      PowBelowOne(b, n - 1);
      PowNonNegative(b, n - 1);
      assert p < 1.0;
      assert b * p <= p;
      assert Pow(b, n) == b * p;
      assert Pow(b, n) < 1.0;
    } else {
      assert Pow(b, 1) == b * Pow(b, 0);
    }
  }

  lemma {:induction false} PowNonNegative(b: real, n: nat)
    requires b >= 0.0
    ensures Pow(b, n) >= 0.0
  {
    if n > 0 {
      PowNonNegative(b, n - 1);
    }
  }

  /** `xs.reduce((a, b) => a + b, 0)`. */
  function Sum(xs: seq<real>): real
  {
    if |xs| == 0 then 0.0 else Sum(xs[..|xs| - 1]) + xs[|xs| - 1]
  }

  lemma SumAppendOne(xs: seq<real>, x: real)
    ensures Sum(xs + [x]) == Sum(xs) + x
  {
    assert (xs + [x])[..|xs|] == xs;
  }

  lemma {:induction false} SumOfConstant(xs: seq<real>, c: real)
    requires forall i :: 0 <= i < |xs| ==> xs[i] == c
    ensures Sum(xs) == |xs| as real * c
  {
    if |xs| > 0 {
      SumOfConstant(xs[..|xs| - 1], c);
    }
  }

  lemma {:induction false} SumNonNegative(xs: seq<real>)
    requires forall i :: 0 <= i < |xs| ==> xs[i] >= 0.0
    ensures Sum(xs) >= 0.0
  {
    if |xs| > 0 {
      SumNonNegative(xs[..|xs| - 1]);
    }
  }

  lemma {:induction false} SumNonPositive(xs: seq<real>)
    requires forall i :: 0 <= i < |xs| ==> xs[i] <= 0.0
    ensures Sum(xs) <= 0.0
  {
    if |xs| > 0 {
      SumNonPositive(xs[..|xs| - 1]);
    }
  }

  lemma {:induction false} SumPositive(xs: seq<real>)
    requires |xs| > 0
    requires forall i :: 0 <= i < |xs| ==> xs[i] > 0.0
    ensures Sum(xs) > 0.0
  {
    SumNonNegative(xs[..|xs| - 1]);
  }

  lemma {:induction false} SumNegative(xs: seq<real>)
    requires |xs| > 0
    requires forall i :: 0 <= i < |xs| ==> xs[i] < 0.0
    ensures Sum(xs) < 0.0
  {
    SumNonPositive(xs[..|xs| - 1]);
  }

  /** A sum of non-negative terms is zero exactly when every term is. */
  lemma {:induction false} SumZeroIff(xs: seq<real>)
    requires forall i :: 0 <= i < |xs| ==> xs[i] >= 0.0
    ensures Sum(xs) == 0.0 <==> forall i :: 0 <= i < |xs| ==> xs[i] == 0.0
  {
    if |xs| > 0 {
      var init := xs[..|xs| - 1];
      SumZeroIff(init);
      SumNonNegative(init);
      if Sum(xs) == 0.0 {
        forall i | 0 <= i < |xs| ensures xs[i] == 0.0 {
          if i < |xs| - 1 {
            assert xs[i] == init[i];
          }
        }
      }
    }
  }

  /** `a / b` for a divisor known not to be 0. */
  function Divide(a: real, b: real): (r: real)
    requires b != 0.0
    ensures r * b == a
  {
    a / b
  }

  /** A non-zero factor cancels from both sides of an equation. */
  lemma CancelFactor(a: real, b: real, c: real)
    requires c != 0.0 && a * c == b * c
    ensures a == b
  {
    assert (a - b) * c == 0.0;
  }

  /** Multiplication distributes over addition. */
  lemma Distribute(x: real, y: real, z: real)
    ensures x * (y + z) == x * y + x * z
  {
  }

  /** `a / b` for a positive divisor `b`: same sign as `a`. */
  function Fraction(a: real, b: real): (r: real)
    requires b > 0.0
    ensures r * b == a
    ensures r > 0.0 <==> a > 0.0
    ensures r < 0.0 <==> a < 0.0
  {
    a / b
  }

  /** `a / n` for a positive count `n`. */
  function Ratio(a: real, n: nat): (r: real)
    requires n > 0
    ensures r * (n as real) == a
    ensures r > 0.0 <==> a > 0.0
    ensures r < 0.0 <==> a < 0.0
  {
    Fraction(a, n as real)
  }

  /** Arithmetic mean of a non-empty sequence. */
  function Mean(xs: seq<real>): (m: real)
    requires |xs| > 0
    ensures m * (|xs| as real) == Sum(xs)
    ensures m > 0.0 <==> Sum(xs) > 0.0
    ensures m < 0.0 <==> Sum(xs) < 0.0
  {
    Ratio(Sum(xs), |xs|)
  }

  /** The mean of a constant sequence is that constant. */
  lemma MeanOfConstant(xs: seq<real>, c: real)
    requires |xs| > 0
    requires forall i :: 0 <= i < |xs| ==> xs[i] == c
    ensures Mean(xs) == c
  {
    var n := |xs| as real;
    SumOfConstant(xs, c);
    assert (Mean(xs) - c) * n == 0.0;
  }

  /** `Math.pow(x, 2)` is never negative, and positive exactly when `x` is not 0. */
  lemma SquareSign(x: real)
    ensures Pow(x, 2) >= 0.0
    ensures Pow(x, 2) > 0.0 <==> x != 0.0
  {
    assert Pow(x, 1) == x;
    if x < 0.0 {
      assert Pow(x, 2) == (-x) * (-x);
    }
  }

  /** Largest element of a non-empty sequence (`Math.max(...xs)`). */
  function MaxOf(xs: seq<real>): (m: real)
    requires |xs| > 0
    ensures m in xs
    ensures forall i :: 0 <= i < |xs| ==> xs[i] <= m
  {
    if |xs| == 1 then xs[0] else
      var m0 := MaxOf(xs[..|xs| - 1]);
      assert forall i :: 0 <= i < |xs| - 1 ==> xs[i] == xs[..|xs| - 1][i];
      Max(m0, xs[|xs| - 1])
  }
}

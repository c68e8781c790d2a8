/** Bernstein coefficients of sums, products with a linear factor, elevations and reversals, and the signs
    they keep. */
module BernsteinProducts {
  import opened Reals
  import opened Polynomials
  import opened Bernstein
  import opened SignVariations
  import opened AffineSubstitution

  // ------------------------------------------------------------------ values that agree far out

  /** Bernstein coefficients of one degree with the same values from 2 on are the same. */
  lemma SameBeyondTwo(p: seq<real>, q: seq<real>)
    requires |p| == |q| >= 1 && forall t: real :: t >= 2.0 ==> BEval(p, t) == BEval(q, t)
    ensures p == q
  {
    hide BEval, Eval, PowerOf, Scale;
    var d := RawAdd(PowerOf(p), Scale(-1.0, PowerOf(q)));
    forall t: real | t >= 2.0
      ensures Eval(d, t) == 0.0
    {
      EvalPowerOf(p, t);
      EvalPowerOf(q, t);
      EvalScale(-1.0, PowerOf(q), t);
      TimesUnits(Eval(PowerOf(q), t));
      EvalRawAdd(PowerOf(p), Scale(-1.0, PowerOf(q)), t);
      assert BEval(p, t) == BEval(q, t);
    }
    VanishingIsZero(d, 2.0);
    forall i | 0 <= i < |p|
      ensures PowerOf(p)[i] == PowerOf(q)[i]
    {
      RawAddAt(PowerOf(p), Scale(-1.0, PowerOf(q)), i);
      ScaleAt(-1.0, PowerOf(q), i);
      TimesUnits(PowerOf(q)[i]);
      assert d[i] == 0.0;
    }
    SamePowersSameCoefficients(p, q);
  }

  lemma Beyond(t: real) returns (x: real)
    requires t != 1.0
    ensures t == Times(1.0 - t, x)
  {
    x := t / (1.0 - t);
  }

  // ------------------------------------------------------------------ sums

  lemma SumSlices(p: seq<real>, q: seq<real>)
    requires |p| == |q| >= 1
    ensures RawAdd(p, q)[1..] == RawAdd(p[1..], q[1..])
    ensures RawAdd(p, q)[..|p| - 1] == RawAdd(p[..|p| - 1], q[..|p| - 1])
  {
    var n := |p| - 1;
    forall i | 0 <= i < n
      ensures RawAdd(p, q)[i] == RawAdd(p[..n], q[..n])[i]
    {
      RawAddAt(p, q, i);
      RawAddAt(p[..n], q[..n], i);
    }
  }

  lemma {:induction false} BEvalSum(p: seq<real>, q: seq<real>, t: real)
    requires |p| == |q| >= 1
    ensures BEval(RawAdd(p, q), t) == BEval(p, t) + BEval(q, t)
    decreases |p|
  {
    hide Times;
    if |p| == 1 {
      RawAddAt(p, q, 0);
    } else {
      var n := |p| - 1;
      SumSlices(p, q);
      BEvalSum(p[..n], q[..n], t);
      BEvalSum(p[1..], q[1..], t);
      TimesSum(1.0 - t, BEval(p[..n], t), BEval(q[..n], t));
      TimesSum(t, BEval(p[1..], t), BEval(q[1..], t));
    }
  }

  function Constant(k: real, n: nat): (c: seq<real>)
    ensures |c| == n && forall i :: 0 <= i < n ==> c[i] == k
  {
    seq(n, i => k)
  }

  lemma {:induction false} BEvalConstant(k: real, n: nat, t: real)
    requires n >= 1
    ensures BEval(Constant(k, n), t) == k
    decreases n
  {
    hide Times;
    if n >= 2 {
      var c := Constant(k, n);
      assert c[..n - 1] == Constant(k, n - 1) && c[1..] == Constant(k, n - 1);
      BEvalConstant(k, n - 1, t);
      TimesSum(k, 1.0 - t, t);
      TimesUnits(k);
    }
  }

  // ------------------------------------------------------------------ a linear factor

  /** p with both its neighbours' shifts: [x p0, x p1 + y p0, ...], the list of (x + y t) p. */
  function TimesLinear(p: seq<real>, x: real, y: real): (r: seq<real>)
    ensures |r| == |p| + 1
  {
    RawAdd(Scale(x, p) + [0.0], [0.0] + Scale(y, p))
  }

  lemma EvalTimesLinear(p: seq<real>, x: real, y: real, t: real)
    ensures Eval(TimesLinear(p, x, y), t) == Times(x + Times(y, t), Eval(p, t))
  {
    hide Times, Eval, Scale, RawAdd;
    EvalRawAdd(Scale(x, p) + [0.0], [0.0] + Scale(y, p), t);
    assert [0.0] == Zeros(1);
    EvalPadded(Scale(x, p), 1, t);
    EvalScale(x, p, t);
    EvalCons(0.0, Scale(y, p), t);
    EvalScale(y, p, t);
    TimesAssociates(t, y, Eval(p, t));
    TimesCommutes(y, t);
    TimesSum(Eval(p, t), x, Times(y, t));
  }

  lemma TimesLinearAt(p: seq<real>, x: real, y: real, k: nat)
    requires k <= |p|
    ensures TimesLinear(p, x, y)[k] ==
      (if k < |p| then Times(x, p[k]) else 0.0) + (if k > 0 then Times(y, p[k - 1]) else 0.0)
  {
    hide Times;
    var u, v := Scale(x, p) + [0.0], [0.0] + Scale(y, p);
    RawAddAt(u, v, k);
    if k < |p| {
      ScaleAt(x, p, k);
    }
    if k > 0 {
      ScaleAt(y, p, k - 1);
    }
  }

  /** Bernstein coefficients of (x (1 - t) + y t) times the polynomial with coefficients b. */
  function MulLinear(b: seq<real>, x: real, y: real): (r: seq<real>)
    requires |b| >= 1
    ensures |r| == |b| + 1
  {
    seq(|b| + 1, k requires 0 <= k <= |b| =>
      (ChooseBounds(|b|, k); TimesLinear(Scaled(b), x, y)[k] / Choose(|b|, k) as real))
  }

  lemma ScaledQuotient(q: real, v: real)
    requires q != 0.0
    ensures Times(q, v / q) == v
  {
  }

  lemma ScaledMulLinear(b: seq<real>, x: real, y: real)
    requires |b| >= 1
    ensures Scaled(MulLinear(b, x, y)) == TimesLinear(Scaled(b), x, y)
  {
    hide TimesLinear, Times;
    forall k | 0 <= k <= |b|
      ensures Scaled(MulLinear(b, x, y))[k] == TimesLinear(Scaled(b), x, y)[k]
    {
      ChooseBounds(|b|, k);
      ScaledQuotient(Choose(|b|, k) as real, TimesLinear(Scaled(b), x, y)[k]);
    }
  }

  lemma MulLinearArithmetic(t: real, x: real, y: real, z: real, r: real, e: real)
    requires t == Times(1.0 - t, z)
    ensures Times(Times(1.0 - t, r), Times(x + Times(y, z), e)) == Times(Blend(t, x, y), Times(r, e))
  {
  }

  lemma BEvalMulLinear(b: seq<real>, x: real, y: real, t: real)
    requires |b| >= 1 && t != 1.0
    ensures BEval(MulLinear(b, x, y), t) == Times(Blend(t, x, y), BEval(b, t))
  {
    hide Times, Blend, Eval, BEval, MulLinear, TimesLinear, Scaled;
    var z := Beyond(t);
    BEvalScaled(b, t, z);
    BEvalScaled(MulLinear(b, x, y), t, z);
    ScaledMulLinear(b, x, y);
    EvalTimesLinear(Scaled(b), x, y, z);
    MulLinearArithmetic(t, x, y, z, Power(1.0 - t, |b| - 1), Eval(Scaled(b), z));
  }

  lemma QuotientSign(v: real, q: real)
    requires q > 0.0
    ensures v >= 0.0 ==> v / q >= 0.0
    ensures v > 0.0 ==> v / q > 0.0
    ensures v == 0.0 ==> v / q == 0.0
  {
  }

  /** A nonnegative linear factor keeps coefficients nonnegative. */
  lemma MulLinearNonnegative(b: seq<real>, x: real, y: real)
    requires |b| >= 1 && AllNonnegative(b) && x >= 0.0 && y >= 0.0
    ensures AllNonnegative(MulLinear(b, x, y))
  {
    hide TimesLinear, Times;
    var w := Scaled(b);
    ScaledNonnegative(b);
    forall k | 0 <= k <= |b|
      ensures MulLinear(b, x, y)[k] >= 0.0
    {
      TimesLinearAt(w, x, y, k);
      if k < |b| {
        TimesSign(x, w[k]);
      }
      if k > 0 {
        TimesSign(y, w[k - 1]);
      }
      ChooseBounds(|b|, k);
      QuotientSign(TimesLinear(w, x, y)[k], Choose(|b|, k) as real);
    }
  }

  lemma ScaledNonnegative(b: seq<real>)
    requires AllNonnegative(b)
    ensures AllNonnegative(Scaled(b))
  {
    hide Times;
    forall i | 0 <= i < |b|
      ensures Scaled(b)[i] >= 0.0
    {
      ChooseBounds(|b| - 1, i);
      TimesSign(Choose(|b| - 1, i) as real, b[i]);
    }
  }

  ghost predicate AllPositive(b: seq<real>) {
    forall i :: 0 <= i < |b| ==> b[i] > 0.0
  }

  /** Degree elevation. */
  function Elevated(b: seq<real>): (r: seq<real>)
    requires |b| >= 1
    ensures |r| == |b| + 1
  {
    MulLinear(b, 1.0, 1.0)
  }

  lemma ElevatedPositive(b: seq<real>)
    requires |b| >= 1 && AllPositive(b)
    ensures AllPositive(Elevated(b))
  {
    hide TimesLinear, Times;
    var w := Scaled(b);
    forall i | 0 <= i < |b|
      ensures w[i] > 0.0
    {
      ChooseBounds(|b| - 1, i);
      TimesSign(Choose(|b| - 1, i) as real, b[i]);
    }
    forall k | 0 <= k <= |b|
      ensures Elevated(b)[k] > 0.0
    {
      TimesLinearAt(w, 1.0, 1.0, k);
      if k < |b| {
        TimesUnits(w[k]);
      }
      if k > 0 {
        TimesUnits(w[k - 1]);
      }
      ChooseBounds(|b|, k);
      QuotientSign(TimesLinear(w, 1.0, 1.0)[k], Choose(|b|, k) as real);
    }
  }

  /** Elevating is appending a zero power coefficient. */
  lemma ElevatedIsPadded(c: seq<real>)
    requires |c| >= 1
    ensures BernsteinOf(c + [0.0]) == Elevated(BernsteinOf(c))
  {
    hide Times, Eval, BEval, BernsteinOf, Blend;
    var p, q := BernsteinOf(c + [0.0]), Elevated(BernsteinOf(c));
    assert [0.0] == Zeros(1);
    forall t: real | t >= 2.0
      ensures BEval(p, t) == BEval(q, t)
    {
      BEvalBernsteinOf(c + [0.0], t);
      EvalPadded(c, 1, t);
      BEvalBernsteinOf(c, t);
      BEvalMulLinear(BernsteinOf(c), 1.0, 1.0, t);
      BlendOnes(t);
      TimesUnits(BEval(BernsteinOf(c), t));
    }
    SameBeyondTwo(p, q);
  }

  lemma BlendOnes(t: real)
    ensures Blend(t, 1.0, 1.0) == 1.0
  {
  }

  // ------------------------------------------------------------------ parts and reversals

  lemma BlendPositive(u: real, x: real, y: real)
    requires 0.0 <= u <= 1.0 && x > 0.0 && y > 0.0
    ensures Blend(u, x, y) > 0.0
  {
    hide Times;
    TimesSign(1.0 - u, x);
    TimesSign(u, y);
  }

  lemma RowPositive(u: real, b: seq<real>)
    requires |b| >= 1 && 0.0 <= u <= 1.0 && AllPositive(b)
    ensures AllPositive(Row(u, b))
  {
    hide Blend, Blends;
    var n := |b| - 1;
    forall i | 0 <= i < n
      ensures Row(u, b)[i] > 0.0
    {
      BlendsAt(u, b[..n], b[1..], i);
      BlendPositive(u, b[i], b[i + 1]);
    }
  }

  lemma {:induction false} EdgesPositive(u: real, b: seq<real>)
    requires |b| >= 1 && 0.0 <= u <= 1.0 && AllPositive(b)
    ensures AllPositive(Left(u, b)) && AllPositive(Right(u, b))
    decreases |b|
  {
    if |b| >= 2 {
      hide Row;
      RowPositive(u, b);
      EdgesPositive(u, Row(u, b));
    }
  }

  lemma {:induction false} ReversedAt(s: seq<real>, i: nat)
    requires i < |s|
    ensures Reversed(s)[i] == s[|s| - 1 - i]
  {
    if i < |s| - 1 {
      ReversedAt(s[1..], i);
    }
  }

  lemma ReversedUnfold(b: seq<real>)
    requires |b| >= 1
    ensures Reversed(b) == Reversed(b[1..]) + [b[0]]
  {
  }

  lemma ReversedInit(b: seq<real>, c: seq<real>, x: real)
    requires b == c + [x]
    ensures Reversed(b)[1..] == Reversed(c)
  {
    hide Reversed;
    ReversedAppend(c, x);
  }

  lemma ReversedSlices(b: seq<real>)
    requires |b| >= 1
    ensures Reversed(b)[1..] == Reversed(b[..|b| - 1]) && Reversed(b)[..|b| - 1] == Reversed(b[1..])
  {
    hide Reversed;
    var n := |b| - 1;
    ReversedUnfold(b);
    ReversedInit(b, b[..n], b[n]);
  }

  /** Reading the coefficients backwards runs the curve backwards. */
  lemma {:induction false} BEvalReversed(b: seq<real>, t: real)
    requires |b| >= 1
    ensures BEval(Reversed(b), t) == BEval(b, 1.0 - t)
    decreases |b|
  {
    hide Times, Reversed;
    if |b| == 1 {
      ReversedAt(b, 0);
    } else {
      var n := |b| - 1;
      ReversedSlices(b);
      BEvalReversed(b[..n], t);
      BEvalReversed(b[1..], t);
    }
  }

  lemma ReversedPositive(b: seq<real>)
    requires AllPositive(b)
    ensures AllPositive(Reversed(b))
  {
    forall i | 0 <= i < |b|
      ensures Reversed(b)[i] > 0.0
    {
      ReversedAt(b, i);
    }
  }
}

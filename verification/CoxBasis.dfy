/** Cox's basis on one knot span, in the span's own parameter, and the homogeneous coordinates of a rational
    spline on it. */
module CoxBasis {
  import opened Reals
  import opened Polynomials
  import opened Bernstein
  import opened SignVariations
  import opened BernsteinProducts

  ghost predicate Nondecreasing(flat: seq<real>) {
    forall i, j :: 0 <= i <= j < |flat| ==> flat[i] <= flat[j]
  }

  /** A nonempty span of a nondecreasing knot list. */
  ghost predicate Span(flat: seq<real>, span: nat) {
    Nondecreasing(flat) && span + 1 < |flat| && flat[span] < flat[span + 1]
  }

  /** `add`: two coefficient lists of any lengths. */
  method AddLists(a: seq<real>, b: seq<real>) returns (r: seq<real>)
    ensures r == RawAdd(a, b)
  {
    var n := if |a| >= |b| then |a| else |b|;
    r := Zeros(n);
    for i := 0 to |a|
      invariant |r| == n
      invariant forall j :: 0 <= j < n ==> r[j] == if j < i then a[j] else 0.0
    {
      r := r[i := r[i] + a[i]];
    }
    for i := 0 to |b|
      invariant |r| == n
      invariant forall j :: 0 <= j < n ==> r[j] == Coef(a, j) + if j < i then b[j] else 0.0
    {
      r := r[i := r[i] + b[i]];
    }
    forall j | 0 <= j < n
      ensures r[j] == RawAdd(a, b)[j]
    {
      RawAddAt(a, b, j);
    }
  }

  /** `times_linear`: the list of (x + y t) p. */
  method TimesLinearList(p: seq<real>, x: real, y: real) returns (r: seq<real>)
    ensures r == TimesLinear(p, x, y)
  {
    hide TimesLinear;
    var n := |p|;
    r := Zeros(n + 1);
    for i := 0 to n
      invariant |r| == n + 1
      invariant forall j :: 0 <= j < i ==> r[j] == TimesLinear(p, x, y)[j]
      invariant r[i] == if i > 0 then Times(y, p[i - 1]) else 0.0
      invariant forall j :: i < j <= n ==> r[j] == 0.0
    {
      TimesLinearAt(p, x, y, i);
      r := r[i := r[i] + x * p[i]];
      r := r[i + 1 := r[i + 1] + y * p[i]];
    }
    TimesLinearAt(p, x, y, n);
  }

  /** The first term of Cox's recursion, from b, the basis function i of degree p - 1: empty when its knot
      difference vanishes. */
  function RisingTerm(flat: seq<real>, span: nat, i: nat, p: nat, b: seq<real>): (r: seq<real>)
    requires span + 1 < |flat| && i + p < |flat|
    ensures |r| <= |b| + 1
  {
    var a, length := flat[span], flat[span + 1] - flat[span];
    var left := flat[i + p] - flat[i];
    if left != 0.0 then TimesLinear(b, (a - flat[i]) / left, length / left) else []
  }

  /** The second term, from basis function i + 1 of degree p - 1. */
  function FallingTerm(flat: seq<real>, span: nat, i: nat, p: nat, b: seq<real>): (r: seq<real>)
    requires span + 1 < |flat| && i + p + 1 < |flat|
    ensures |r| <= |b| + 1
  {
    var a, length := flat[span], flat[span + 1] - flat[span];
    var right := flat[i + p + 1] - flat[i + 1];
    if right != 0.0 then TimesLinear(b, (flat[i + p + 1] - a) / right, -length / right) else []
  }

  /** `basis`: Cox's recursion. */
  function Basis(flat: seq<real>, span: nat, i: nat, p: nat): (r: seq<real>)
    requires span + 1 < |flat| && i + p + 1 < |flat|
    ensures |r| <= p + 1
    decreases p
  {
    if p == 0 then [if i == span then 1.0 else 0.0]
    else RawAdd(RisingTerm(flat, span, i, p, Basis(flat, span, i, p - 1)),
                FallingTerm(flat, span, i, p, Basis(flat, span, i + 1, p - 1)))
  }

  // ------------------------------------------------------------------ values

  /** (a - t_i) / left + (length / left) t, or 0 when its knot difference vanishes. */
  ghost function Rising(flat: seq<real>, span: nat, i: nat, p: nat, t: real): real
    requires span + 1 < |flat| && i + p < |flat|
  {
    var left := flat[i + p] - flat[i];
    if left == 0.0 then 0.0
    else (flat[span] - flat[i]) / left + Times((flat[span + 1] - flat[span]) / left, t)
  }

  ghost function Falling(flat: seq<real>, span: nat, i: nat, p: nat, t: real): real
    requires span + 1 < |flat| && i + p + 1 < |flat|
  {
    var right := flat[i + p + 1] - flat[i + 1];
    if right == 0.0 then 0.0
    else (flat[i + p + 1] - flat[span]) / right + Times(-(flat[span + 1] - flat[span]) / right, t)
  }

  lemma EvalTerms(flat: seq<real>, span: nat, i: nat, p: nat, b: seq<real>, t: real)
    requires span + 1 < |flat| && i + p + 1 < |flat|
    ensures Eval(RisingTerm(flat, span, i, p, b), t) == Times(Rising(flat, span, i, p, t), Eval(b, t))
    ensures Eval(FallingTerm(flat, span, i, p, b), t) == Times(Falling(flat, span, i, p, t), Eval(b, t))
  {
    var a, length := flat[span], flat[span + 1] - flat[span];
    var left, right := flat[i + p] - flat[i], flat[i + p + 1] - flat[i + 1];
    hide Times, TimesLinear, Eval;
    TimesUnits(Eval(b, t));
    EvalZeros(0, t);
    assert Zeros(0) == [];
    if left != 0.0 {
      var u, v := (a - flat[i]) / left, length / left;
      EvalTimesLinear(b, u, v, t);
    }
    if right != 0.0 {
      var u, v := (flat[i + p + 1] - a) / right, -length / right;
      EvalTimesLinear(b, u, v, t);
    }
  }

  lemma EvalBasis(flat: seq<real>, span: nat, i: nat, p: nat, t: real)
    requires span + 1 < |flat| && i + p + 1 < |flat| && p >= 1
    ensures Eval(Basis(flat, span, i, p), t)
         == Times(Rising(flat, span, i, p, t), Eval(Basis(flat, span, i, p - 1), t))
          + Times(Falling(flat, span, i, p, t), Eval(Basis(flat, span, i + 1, p - 1), t))
  {
    hide Times, RisingTerm, FallingTerm, Rising, Falling, RawAdd, Eval;
    var b, c := Basis(flat, span, i, p - 1), Basis(flat, span, i + 1, p - 1);
    EvalTerms(flat, span, i, p, b, t);
    EvalTerms(flat, span, i, p, c, t);
    EvalRawAdd(RisingTerm(flat, span, i, p, b), FallingTerm(flat, span, i, p, c), t);
  }

  lemma ZeroDegree(flat: seq<real>, span: nat, i: nat, t: real)
    requires span + 1 < |flat| && i + 1 < |flat|
    ensures Eval(Basis(flat, span, i, 0), t) == if i == span then 1.0 else 0.0
  {
    hide Times;
    var k := if i == span then 1.0 else 0.0;
    assert [k] == [k] + [];
    EvalCons(k, [], t);
    EvalZeros(0, t);
    assert Zeros(0) == [];
    TimesUnits(t);
  }

  /** A basis function vanishes on the spans outside its support. */
  lemma {:induction false} OutsideSupport(flat: seq<real>, span: nat, i: nat, p: nat, t: real)
    requires span + 1 < |flat| && i + p + 1 < |flat| && !(i <= span <= i + p)
    ensures Eval(Basis(flat, span, i, p), t) == 0.0
    decreases p
  {
    hide *;
    if p == 0 {
      ZeroDegree(flat, span, i, t);
    } else {
      EvalBasis(flat, span, i, p, t);
      OutsideSupport(flat, span, i, p - 1, t);
      OutsideSupport(flat, span, i + 1, p - 1, t);
      TimesUnits(Rising(flat, span, i, p, t));
      TimesUnits(Falling(flat, span, i, p, t));
    }
  }

  lemma SharedDenominator(u: real, v: real, w: real, length: real, d: real, t: real)
    requires d != 0.0 && w - u == d
    ensures ((w - v) / d + Times(-length / d, t)) + ((v - u) / d + Times(length / d, t)) == 1.0
  {
  }

  /** Neighbours share a knot difference, and their factors sum to 1 on it. */
  lemma FactorsSumToOne(flat: seq<real>, span: nat, j: nat, p: nat, t: real)
    requires Span(flat, span) && p >= 1 && 1 <= j <= span < j + p && j + p + 1 < |flat|
    ensures Falling(flat, span, j - 1, p, t) + Rising(flat, span, j, p, t) == 1.0
  {
    assert flat[j] <= flat[span] && flat[span + 1] <= flat[j + p];
    SharedDenominator(flat[j], flat[span], flat[j + p], flat[span + 1] - flat[span], flat[j + p] - flat[j], t);
  }

  /** The first m basis functions of degree p that can be nonzero on the span, summed. */
  ghost function BasisSum(flat: seq<real>, span: nat, p: nat, m: nat, t: real): real
    requires p <= span && span + p + 1 < |flat| && m <= p + 1
  {
    if m == 0 then 0.0
    else BasisSum(flat, span, p, m - 1, t) + Eval(Basis(flat, span, span - p + m - 1, p), t)
  }

  lemma {:induction false} Telescopes(flat: seq<real>, span: nat, p: nat, m: nat, t: real)
    requires Span(flat, span) && 1 <= p <= span && span + p + 1 < |flat| && 1 <= m <= p + 1
    ensures BasisSum(flat, span, p, m, t) == BasisSum(flat, span, p - 1, m - 1, t)
      + Times(Falling(flat, span, span - p + m - 1, p, t), Eval(Basis(flat, span, span - p + m, p - 1), t))
    decreases m
  {
    hide Times, Eval, Basis, Rising, Falling;
    var i := span - p + m - 1;
    EvalBasis(flat, span, i, p, t);
    if m == 1 {
      OutsideSupport(flat, span, i, p - 1, t);
      TimesUnits(Rising(flat, span, i, p, t));
    } else {
      Telescopes(flat, span, p, m - 1, t);
      FactorsSumToOne(flat, span, i, p, t);
      var v := Eval(Basis(flat, span, i, p - 1), t);
      TimesSum(v, Falling(flat, span, i - 1, p, t), Rising(flat, span, i, p, t));
      TimesUnits(v);
    }
  }

  lemma ZeroDegreeSum(flat: seq<real>, span: nat, t: real)
    requires span + 1 < |flat|
    ensures BasisSum(flat, span, 0, 1, t) == 1.0
  {
    hide Times, Eval, Basis;
    ZeroDegree(flat, span, span, t);
    assert BasisSum(flat, span, 0, 0, t) == 0.0;
  }

  /** The basis functions of one degree sum to the constant 1 on the span. */
  lemma {:induction false} PartitionOfUnity(flat: seq<real>, span: nat, p: nat, t: real)
    requires Span(flat, span) && p <= span && span + p + 1 < |flat|
    ensures BasisSum(flat, span, p, p + 1, t) == 1.0
    decreases p
  {
    hide Times, Eval, Basis, Falling, BasisSum, Span;
    if p == 0 {
      ZeroDegreeSum(flat, span, t);
    } else {
      Telescopes(flat, span, p, p + 1, t);
      OutsideSupport(flat, span, span + 1, p - 1, t);
      TimesUnits(Falling(flat, span, span, p, t));
      PartitionOfUnity(flat, span, p - 1, t);
    }
  }

  // ------------------------------------------------------------------ Bernstein coefficients

  ghost function RisingCoefficients(flat: seq<real>, span: nat, i: nat, p: nat, c: seq<real>): (r: seq<real>)
    requires span + 1 < |flat| && i + p < |flat| && |c| >= 1
    ensures |r| == |c| + 1
  {
    var left := flat[i + p] - flat[i];
    if left != 0.0 then MulLinear(c, (flat[span] - flat[i]) / left, (flat[span + 1] - flat[i]) / left)
    else Zeros(|c| + 1)
  }

  ghost function FallingCoefficients(flat: seq<real>, span: nat, i: nat, p: nat, c: seq<real>): (r: seq<real>)
    requires span + 1 < |flat| && i + p + 1 < |flat| && |c| >= 1
    ensures |r| == |c| + 1
  {
    var right := flat[i + p + 1] - flat[i + 1];
    if right != 0.0
    then MulLinear(c, (flat[i + p + 1] - flat[span]) / right, (flat[i + p + 1] - flat[span + 1]) / right)
    else Zeros(|c| + 1)
  }

  /** The Bernstein coefficients of the basis functions, by the same recursion. */
  ghost function Coefficients(flat: seq<real>, span: nat, i: nat, p: nat): (r: seq<real>)
    requires span + 1 < |flat| && i + p + 1 < |flat|
    ensures |r| == p + 1
    decreases p
  {
    if p == 0 then [if i == span then 1.0 else 0.0]
    else RawAdd(RisingCoefficients(flat, span, i, p, Coefficients(flat, span, i, p - 1)),
                FallingCoefficients(flat, span, i, p, Coefficients(flat, span, i + 1, p - 1)))
  }

  lemma RisingBlend(u: real, a: real, b: real, left: real, t: real)
    requires left != 0.0
    ensures Blend(t, (a - u) / left, (b - u) / left) == (a - u) / left + Times((b - a) / left, t)
    ensures Blend(t, (u - a) / left, (u - b) / left) == (u - a) / left + Times(-(b - a) / left, t)
  {
  }

  lemma BEvalRising(flat: seq<real>, span: nat, i: nat, p: nat, c: seq<real>, t: real)
    requires span + 1 < |flat| && i + p < |flat| && |c| >= 1 && t != 1.0
    ensures BEval(RisingCoefficients(flat, span, i, p, c), t) == Times(Rising(flat, span, i, p, t), BEval(c, t))
  {
    hide Times, Blend, BEval, MulLinear;
    var a, b, u, left := flat[span], flat[span + 1], flat[i], flat[i + p] - flat[i];
    if left != 0.0 {
      var x, y := (a - u) / left, (b - u) / left;
      BEvalMulLinear(c, x, y, t);
      RisingBlend(u, a, b, left, t);
    } else {
      BEvalZeros(|c| + 1, t);
      TimesUnits(BEval(c, t));
    }
  }

  lemma BEvalFalling(flat: seq<real>, span: nat, i: nat, p: nat, c: seq<real>, t: real)
    requires span + 1 < |flat| && i + p + 1 < |flat| && |c| >= 1 && t != 1.0
    ensures BEval(FallingCoefficients(flat, span, i, p, c), t) == Times(Falling(flat, span, i, p, t), BEval(c, t))
  {
    hide Times, Blend, BEval, MulLinear;
    var a, b, u, right := flat[span], flat[span + 1], flat[i + p + 1], flat[i + p + 1] - flat[i + 1];
    if right != 0.0 {
      var x, y := (u - a) / right, (u - b) / right;
      BEvalMulLinear(c, x, y, t);
      RisingBlend(u, a, b, right, t);
    } else {
      BEvalZeros(|c| + 1, t);
      TimesUnits(BEval(c, t));
    }
  }

  lemma BEvalZeros(n: nat, t: real)
    requires n >= 1
    ensures BEval(Zeros(n), t) == 0.0
  {
    hide BEval;
    BEvalConstant(0.0, n, t);
    assert Constant(0.0, n) == Zeros(n);
  }

  lemma CoefficientsBase(flat: seq<real>, span: nat, i: nat, t: real)
    requires span + 1 < |flat| && i + 1 < |flat|
    ensures BEval(Coefficients(flat, span, i, 0), t) == if i == span then 1.0 else 0.0
    ensures AllNonnegative(Coefficients(flat, span, i, 0))
    ensures i != span ==> Coefficients(flat, span, i, 0) == Zeros(1)
  {
    hide Times;
  }

  lemma CoefficientsUnfold(flat: seq<real>, span: nat, i: nat, p: nat)
    requires span + 1 < |flat| && i + p + 1 < |flat| && p >= 1
    ensures Coefficients(flat, span, i, p)
         == RawAdd(RisingCoefficients(flat, span, i, p, Coefficients(flat, span, i, p - 1)),
                   FallingCoefficients(flat, span, i, p, Coefficients(flat, span, i + 1, p - 1)))
  {
    hide RisingCoefficients, FallingCoefficients, RawAdd;
  }

  lemma {:induction false} BEvalCoefficients(flat: seq<real>, span: nat, i: nat, p: nat, t: real)
    requires span + 1 < |flat| && i + p + 1 < |flat| && t != 1.0
    ensures BEval(Coefficients(flat, span, i, p), t) == Eval(Basis(flat, span, i, p), t)
    decreases p
  {
    hide *;
    if p == 0 {
      ZeroDegree(flat, span, i, t);
      CoefficientsBase(flat, span, i, t);
    } else {
      var c, d := Coefficients(flat, span, i, p - 1), Coefficients(flat, span, i + 1, p - 1);
      var lo, hi := RisingCoefficients(flat, span, i, p, c), FallingCoefficients(flat, span, i, p, d);
      CoefficientsUnfold(flat, span, i, p);
      BEvalCoefficients(flat, span, i, p - 1, t);
      BEvalCoefficients(flat, span, i + 1, p - 1, t);
      EvalBasis(flat, span, i, p, t);
      BEvalRising(flat, span, i, p, c, t);
      BEvalFalling(flat, span, i, p, d, t);
      BEvalSum(lo, hi, t);
    }
  }

  lemma MulLinearZeros(n: nat, x: real, y: real)
    requires n >= 1
    ensures MulLinear(Zeros(n), x, y) == Zeros(n + 1)
  {
    hide TimesLinear, Times;
    var w := Scaled(Zeros(n));
    forall i | 0 <= i < n
      ensures w[i] == 0.0
    {
      TimesUnits(Choose(n - 1, i) as real);
    }
    forall k | 0 <= k <= n
      ensures MulLinear(Zeros(n), x, y)[k] == 0.0
    {
      TimesLinearAt(w, x, y, k);
      TimesUnits(x);
      TimesUnits(y);
      ChooseBounds(n, k);
      QuotientSign(TimesLinear(w, x, y)[k], Choose(n, k) as real);
    }
  }

  lemma SumNonnegative(p: seq<real>, q: seq<real>)
    requires |p| == |q| && AllNonnegative(p) && AllNonnegative(q)
    ensures AllNonnegative(RawAdd(p, q))
    ensures p == Zeros(|p|) == q ==> RawAdd(p, q) == Zeros(|p|)
  {
    forall i | 0 <= i < |p|
      ensures RawAdd(p, q)[i] == p[i] + q[i]
    {
      RawAddAt(p, q, i);
    }
  }

  /** On the span every basis function has nonnegative coefficients. */
  lemma {:induction false} CoefficientsNonnegative(flat: seq<real>, span: nat, i: nat, p: nat)
    requires Span(flat, span) && span + 1 < |flat| && i + p + 1 < |flat|
    ensures AllNonnegative(Coefficients(flat, span, i, p))
    ensures !(i <= span <= i + p) ==> Coefficients(flat, span, i, p) == Zeros(p + 1)
    decreases p
  {
    hide *;
    if p == 0 {
      CoefficientsBase(flat, span, i, 0.0);
    } else {
      var c, d := Coefficients(flat, span, i, p - 1), Coefficients(flat, span, i + 1, p - 1);
      var lo, hi := RisingCoefficients(flat, span, i, p, c), FallingCoefficients(flat, span, i, p, d);
      CoefficientsUnfold(flat, span, i, p);
      CoefficientsNonnegative(flat, span, i, p - 1);
      CoefficientsNonnegative(flat, span, i + 1, p - 1);
      RisingPart(flat, span, i, p, c);
      FallingPart(flat, span, i, p, d);
      SumNonnegative(lo, hi);
    }
  }

  lemma ZerosNonnegative(n: nat)
    ensures AllNonnegative(Zeros(n))
  {
  }

  lemma RisingPart(flat: seq<real>, span: nat, i: nat, p: nat, c: seq<real>)
    requires Span(flat, span) && i + p < |flat| && p >= 1
    requires |c| == p && AllNonnegative(c) && (!(i <= span <= i + p - 1) ==> c == Zeros(p))
    ensures AllNonnegative(RisingCoefficients(flat, span, i, p, c))
    ensures !(i <= span <= i + p - 1) ==> RisingCoefficients(flat, span, i, p, c) == Zeros(p + 1)
  {
    hide MulLinear, AllNonnegative, Zeros;
    var left := flat[i + p] - flat[i];
    ZerosNonnegative(p + 1);
    if left != 0.0 {
      if i <= span <= i + p - 1 {
        assert flat[i] <= flat[span] && flat[i] <= flat[i + p];
        QuotientSign(flat[span] - flat[i], left);
        QuotientSign(flat[span + 1] - flat[i], left);
        MulLinearNonnegative(c, (flat[span] - flat[i]) / left, (flat[span + 1] - flat[i]) / left);
      } else {
        MulLinearZeros(p, (flat[span] - flat[i]) / left, (flat[span + 1] - flat[i]) / left);
      }
    }
  }

  lemma FallingPart(flat: seq<real>, span: nat, i: nat, p: nat, d: seq<real>)
    requires Span(flat, span) && i + p + 1 < |flat| && p >= 1
    requires |d| == p && AllNonnegative(d) && (!(i + 1 <= span <= i + p) ==> d == Zeros(p))
    ensures AllNonnegative(FallingCoefficients(flat, span, i, p, d))
    ensures !(i + 1 <= span <= i + p) ==> FallingCoefficients(flat, span, i, p, d) == Zeros(p + 1)
  {
    hide MulLinear, AllNonnegative, Zeros;
    var right := flat[i + p + 1] - flat[i + 1];
    ZerosNonnegative(p + 1);
    if right != 0.0 {
      if i + 1 <= span <= i + p {
        assert flat[span + 1] <= flat[i + p + 1] && flat[i + 1] <= flat[i + p + 1];
        QuotientSign(flat[i + p + 1] - flat[span], right);
        QuotientSign(flat[i + p + 1] - flat[span + 1], right);
        MulLinearNonnegative(d, (flat[i + p + 1] - flat[span]) / right, (flat[i + p + 1] - flat[span + 1]) / right);
      } else {
        MulLinearZeros(p, (flat[i + p + 1] - flat[span]) / right, (flat[i + p + 1] - flat[span + 1]) / right);
      }
    }
  }

  // ------------------------------------------------------------------ homogeneous coordinates

  /** The values v, cyclically, times the first m basis functions of the span, summed. */
  function Weighted(flat: seq<real>, span: nat, p: nat, v: seq<real>, m: nat): (r: seq<real>)
    requires p <= span && span + p + 1 < |flat| && |v| >= 1 && m <= p + 1
    ensures |r| == p + 1
  {
    if m == 0 then Zeros(p + 1)
    else
      var i := span - p + m - 1;
      RawAdd(Weighted(flat, span, p, v, m - 1), Scale(v[i % |v|], Basis(flat, span, i, p)))
  }

  /** One coordinate of `homogeneous`: scale * x added into the list, basis function by basis function. */
  method Homogeneous(flat: seq<real>, span: nat, p: nat, v: seq<real>) returns (r: seq<real>)
    requires p <= span && span + p + 1 < |flat| && |v| >= 1
    ensures r == Weighted(flat, span, p, v, p + 1)
  {
    hide Basis, Scale, RawAdd;
    r := Zeros(p + 1);
    for m := 0 to p + 1
      invariant r == Weighted(flat, span, p, v, m)
    {
      var i := span - p + m;
      var coefficients := Basis(flat, span, i, p);
      var scale := v[i % |v|];
      ghost var was := r;
      for k := 0 to |coefficients|
        invariant |r| == p + 1
        invariant forall j :: 0 <= j <= p ==> r[j] == was[j] + if j < k then Times(scale, coefficients[j]) else 0.0
      {
        r := r[k := r[k] + scale * coefficients[k]];
      }
      forall j | 0 <= j <= p
        ensures r[j] == RawAdd(was, Scale(scale, coefficients))[j]
      {
        RawAddAt(was, Scale(scale, coefficients), j);
        if j < |coefficients| {
          ScaleAt(scale, coefficients, j);
        }
      }
    }
  }

  /** The same sum over Bernstein coefficients. */
  ghost function WeightedCoefficients(flat: seq<real>, span: nat, p: nat, v: seq<real>, m: nat): (r: seq<real>)
    requires p <= span && span + p + 1 < |flat| && |v| >= 1 && m <= p + 1
    ensures |r| == p + 1
  {
    if m == 0 then Zeros(p + 1)
    else
      var i := span - p + m - 1;
      RawAdd(WeightedCoefficients(flat, span, p, v, m - 1), Scale(v[i % |v|], Coefficients(flat, span, i, p)))
  }

  lemma {:induction false} BEvalWeighted(flat: seq<real>, span: nat, p: nat, v: seq<real>, m: nat, t: real)
    requires p <= span && span + p + 1 < |flat| && |v| >= 1 && m <= p + 1 && t != 1.0
    ensures BEval(WeightedCoefficients(flat, span, p, v, m), t) == Eval(Weighted(flat, span, p, v, m), t)
    decreases m
  {
    hide Times, BEval, Eval, Coefficients, Basis, Scale, RawAdd;
    if m == 0 {
      EvalZeros(p + 1, t);
      BEvalConstant(0.0, p + 1, t);
      assert Constant(0.0, p + 1) == Zeros(p + 1);
    } else {
      var i := span - p + m - 1;
      var k := v[i % |v|];
      BEvalWeighted(flat, span, p, v, m - 1, t);
      BEvalCoefficients(flat, span, i, p, t);
      BEvalSum(WeightedCoefficients(flat, span, p, v, m - 1), Scale(k, Coefficients(flat, span, i, p)), t);
      BEvalScale(k, Coefficients(flat, span, i, p), t);
      EvalRawAdd(Weighted(flat, span, p, v, m - 1), Scale(k, Basis(flat, span, i, p)), t);
      EvalScale(k, Basis(flat, span, i, p), t);
    }
  }

  lemma WeightedBernstein(flat: seq<real>, span: nat, p: nat, v: seq<real>)
    requires p <= span && span + p + 1 < |flat| && |v| >= 1
    ensures BernsteinOf(Weighted(flat, span, p, v, p + 1)) == WeightedCoefficients(flat, span, p, v, p + 1)
  {
    hide BEval, Eval, Weighted, WeightedCoefficients, BernsteinOf;
    var c, b := Weighted(flat, span, p, v, p + 1), WeightedCoefficients(flat, span, p, v, p + 1);
    forall t: real | t >= 2.0
      ensures BEval(BernsteinOf(c), t) == BEval(b, t)
    {
      BEvalBernsteinOf(c, t);
      BEvalWeighted(flat, span, p, v, p + 1, t);
    }
    SameBeyondTwo(BernsteinOf(c), b);
  }

  /** With all weights 1 the weight polynomial is the constant 1. */
  lemma {:induction false} OnesSum(flat: seq<real>, span: nat, p: nat, m: nat, t: real)
    requires p <= span && span + p + 1 < |flat| && m <= p + 1
    ensures Eval(Weighted(flat, span, p, [1.0], m), t) == BasisSum(flat, span, p, m, t)
    decreases m
  {
    hide Times, Eval, Basis, Scale, RawAdd;
    if m == 0 {
      EvalZeros(p + 1, t);
    } else {
      var b := Basis(flat, span, span - p + m - 1, p);
      OnesSum(flat, span, p, m - 1, t);
      EvalRawAdd(Weighted(flat, span, p, [1.0], m - 1), Scale(1.0, b), t);
      EvalScale(1.0, b, t);
      TimesUnits(Eval(b, t));
    }
  }

  lemma CoefficientsSumToOne(flat: seq<real>, span: nat, p: nat)
    requires Span(flat, span) && p <= span && span + p + 1 < |flat|
    ensures WeightedCoefficients(flat, span, p, [1.0], p + 1) == Constant(1.0, p + 1)
  {
    hide BEval, Eval, Weighted, WeightedCoefficients;
    var b := WeightedCoefficients(flat, span, p, [1.0], p + 1);
    forall t: real | t >= 2.0
      ensures BEval(b, t) == BEval(Constant(1.0, p + 1), t)
    {
      BEvalWeighted(flat, span, p, [1.0], p + 1, t);
      OnesSum(flat, span, p, p + 1, t);
      PartitionOfUnity(flat, span, p, t);
      BEvalConstant(1.0, p + 1, t);
    }
    SameBeyondTwo(b, Constant(1.0, p + 1));
  }

  /** Positive weights leave a coefficient positive as soon as the plain sum is. */
  lemma {:induction false} PositiveWeights(flat: seq<real>, span: nat, p: nat, w: seq<real>, m: nat, k: nat)
    requires Span(flat, span) && p <= span && span + p + 1 < |flat| && |w| >= 1 && m <= p + 1 && k <= p
    requires AllPositive(w)
    ensures WeightedCoefficients(flat, span, p, w, m)[k] >= 0.0
    ensures WeightedCoefficients(flat, span, p, [1.0], m)[k] > 0.0 ==>
      WeightedCoefficients(flat, span, p, w, m)[k] > 0.0
    decreases m
  {
    hide Times, Coefficients, Scale, RawAdd;
    if m > 0 {
      var i := span - p + m - 1;
      var b := Coefficients(flat, span, i, p);
      PositiveWeights(flat, span, p, w, m - 1, k);
      CoefficientsNonnegative(flat, span, i, p);
      RawAddAt(WeightedCoefficients(flat, span, p, w, m - 1), Scale(w[i % |w|], b), k);
      RawAddAt(WeightedCoefficients(flat, span, p, [1.0], m - 1), Scale(1.0, b), k);
      ScaleAt(w[i % |w|], b, k);
      ScaleAt(1.0, b, k);
      TimesUnits(b[k]);
      TimesSign(w[i % |w|], b[k]);
    }
  }

  /** Positive weights give a weight polynomial with positive Bernstein coefficients on the span. */
  lemma HomogeneousWeightPositive(flat: seq<real>, span: nat, p: nat, w: seq<real>)
    requires Span(flat, span) && p <= span && span + p + 1 < |flat| && |w| >= 1 && AllPositive(w)
    ensures AllPositive(BernsteinOf(Weighted(flat, span, p, w, p + 1)))
  {
    WeightedBernstein(flat, span, p, w);
    CoefficientsSumToOne(flat, span, p);
    hide WeightedCoefficients, Weighted, BernsteinOf;
    var b := WeightedCoefficients(flat, span, p, w, p + 1);
    forall k | 0 <= k <= p
      ensures b[k] > 0.0
    {
      PositiveWeights(flat, span, p, w, p + 1, k);
    }
  }
}

/** What the arcs of an edit show, in terms of the poles: their places, the weighted poles under Cox's basis at every
    parameter, and that affine maps of the poles are affine maps of the arcs. */
module CurveLaws {
  import opened Reals
  import opened Polynomials
  import opened Bernstein
  import opened AffineSubstitution
  import opened CoxBasis
  import opened CurveEdits

  // ------------------------------------------------------------------ values from the poles

  ghost function Ratio(x: real, y: real): real {
    if y == 0.0 then 0.0 else x / y
  }

  /** Cox's recursion for the value of basis function i at the knot parameter s of the span. */
  ghost function Cox(flat: seq<real>, span: nat, i: nat, p: nat, s: real): real
    requires i + p + 1 < |flat|
    decreases p
  {
    if p == 0 then (if i == span then 1.0 else 0.0)
    else
      Times(Ratio(s - flat[i], flat[i + p] - flat[i]), Cox(flat, span, i, p - 1, s))
      + Times(Ratio(flat[i + p + 1] - s, flat[i + p + 1] - flat[i + 1]), Cox(flat, span, i + 1, p - 1, s))
  }

  lemma RatioArithmetic(a: real, u: real, w: real, d: real, t: real)
    requires d != 0.0
    ensures (a - u) / d + Times(w / d, t) == (a + Times(w, t) - u) / d
    ensures (u - a) / d + Times(-w / d, t) == (u - (a + Times(w, t))) / d
  {
  }

  lemma FactorsAre(flat: seq<real>, span: nat, i: nat, p: nat, t: real)
    requires span + 1 < |flat| && i + p + 1 < |flat|
    ensures var s := flat[span] + Times(flat[span + 1] - flat[span], t);
      && Rising(flat, span, i, p, t) == Ratio(s - flat[i], flat[i + p] - flat[i])
      && Falling(flat, span, i, p, t) == Ratio(flat[i + p + 1] - s, flat[i + p + 1] - flat[i + 1])
  {
    hide Times;
    var a, w := flat[span], flat[span + 1] - flat[span];
    var left, right := flat[i + p] - flat[i], flat[i + p + 1] - flat[i + 1];
    if left != 0.0 {
      RatioArithmetic(a, flat[i], w, left, t);
    }
    if right != 0.0 {
      RatioArithmetic(a, flat[i + p + 1], w, right, t);
    }
  }

  /** The lists of `basis` take the values of the recursion. */
  lemma {:induction false} BasisIsCox(flat: seq<real>, span: nat, i: nat, p: nat, t: real)
    requires span + 1 < |flat| && i + p + 1 < |flat|
    ensures Eval(Basis(flat, span, i, p), t)
         == Cox(flat, span, i, p, flat[span] + Times(flat[span + 1] - flat[span], t))
    decreases p
  {
    hide Times, Eval, Basis, Rising, Falling, Ratio;
    if p == 0 {
      ZeroDegree(flat, span, i, t);
    } else {
      EvalBasis(flat, span, i, p, t);
      FactorsAre(flat, span, i, p, t);
      BasisIsCox(flat, span, i, p - 1, t);
      BasisIsCox(flat, span, i + 1, p - 1, t);
    }
  }

  ghost predicate Shaped(v: Curve) {
    |v.poles| == |v.weights| >= 1 && forall i :: 0 <= i < |v.poles| ==> |v.poles[i]| == 3
  }

  /** The first m terms of the sum over the span's poles of weight * coordinate * basis function; coordinate 3 of a
      pole is 1. */
  ghost function PoleSum(v: Curve, flat: seq<real>, span: nat, c: nat, s: real, m: nat): real
    requires Shaped(v) && v.degree <= span && span + v.degree + 1 < |flat| && m <= v.degree + 1 && c < 4
  {
    if m == 0 then 0.0
    else
      var i := span - v.degree + m - 1;
      var j := i % |v.poles|;
      PoleSum(v, flat, span, c, s, m - 1)
        + v.weights[j] * (if c < 3 then v.poles[j][c] else 1.0) * Cox(flat, span, i, v.degree, s)
  }

  lemma PoleSumUnfold(v: Curve, flat: seq<real>, span: nat, c: nat, s: real, m: nat)
    requires Shaped(v) && v.degree <= span && span + v.degree + 1 < |flat| && 1 <= m <= v.degree + 1 && c < 4
    ensures var i := span - v.degree + m - 1;
      PoleSum(v, flat, span, c, s, m) == PoleSum(v, flat, span, c, s, m - 1)
        + Times(Coordinate(v, c)[i % |v.weights|], Cox(flat, span, i, v.degree, s))
  {
    hide Cox;
  }

  lemma NoPoles(v: Curve, flat: seq<real>, span: nat, c: nat, s: real)
    requires Shaped(v) && v.degree <= span && span + v.degree + 1 < |flat| && c < 4
    ensures PoleSum(v, flat, span, c, s, 0) == 0.0
  {
  }

  lemma {:induction false} WeightedIsPoleSum(v: Curve, flat: seq<real>, span: nat, c: nat, t: real, m: nat)
    requires Shaped(v) && v.degree <= span && span + v.degree + 1 < |flat| && m <= v.degree + 1 && c < 4
    ensures Eval(Weighted(flat, span, v.degree, Coordinate(v, c), m), t)
         == PoleSum(v, flat, span, c, flat[span] + Times(flat[span + 1] - flat[span], t), m)
    decreases m
  {
    hide Times, Eval, Basis, Coordinate, Cox, RawAdd, Scale, PoleSum;
    if m == 0 {
      NoPoles(v, flat, span, c, flat[span] + Times(flat[span + 1] - flat[span], t));
      EvalZeros(v.degree + 1, t);
    } else {
      var i := span - v.degree + m - 1;
      var x := Coordinate(v, c)[i % |v.weights|];
      WeightedIsPoleSum(v, flat, span, c, t, m - 1);
      EvalRawAdd(Weighted(flat, span, v.degree, Coordinate(v, c), m - 1), Scale(x, Basis(flat, span, i, v.degree)), t);
      EvalScale(x, Basis(flat, span, i, v.degree), t);
      BasisIsCox(flat, span, i, v.degree, t);
      PoleSumUnfold(v, flat, span, c, flat[span] + Times(flat[span + 1] - flat[span], t), m);
    }
  }

  lemma SpanCurveAt(v: Curve, flat: seq<real>, span: nat, c: nat)
    requires Shaped(v) && v.degree <= span && span + v.degree + 1 < |flat| && c < 4
    ensures SpanCurve(v, flat, span)[c] == Weighted(flat, span, v.degree, Coordinate(v, c), v.degree + 1)
  {
    hide Weighted, Coordinate;
  }

  lemma SpanCurveIs(v: Curve, flat: seq<real>, span: nat, c: nat, t: real)
    requires Shaped(v) && v.degree <= span && span + v.degree + 1 < |flat| && c < 4
    ensures Eval(SpanCurve(v, flat, span)[c], t)
         == PoleSum(v, flat, span, c, flat[span] + Times(flat[span + 1] - flat[span], t), v.degree + 1)
  {
    hide *;
    SpanCurveAt(v, flat, span, c);
    WeightedIsPoleSum(v, flat, span, c, t, v.degree + 1);
  }

  // ------------------------------------------------------------------ the arcs of an edit

  /** Where the k-th arc of a piece begins and ends: the middle half for operations 1 and 5, split at 3/8 by 2 and 5. */
  ghost predicate Stands(arc: Arc, low: real, high: real, op: nat, k: nat) {
    var l := if op == 1 || op == 5 then 0.75 * low + 0.25 * high else low;
    var h := if op == 1 || op == 5 then 0.25 * low + 0.75 * high else high;
    var m := 0.625 * l + 0.375 * h;
    if op == 2 || op == 5 then if k == 0 then arc.lo == l && arc.hi == m else arc.lo == m && arc.hi == h
    else arc.lo == l && arc.hi == h
  }

  /** At every t each control polynomial is the sum over the poles at the parameter that t reaches in the arc's
      interval, counted from the other end of the piece when the operation reverses. */
  ghost predicate Traces(arc: Arc, v: Curve, flat: seq<real>, period: real, q: Piece, op: nat)
    requires Shaped(v) && v.degree <= q.span && q.span + v.degree + 1 < |flat|
  {
    && PositiveArc(arc) && arc.degree >= 0
    && forall c, t: real :: 0 <= c < 4 ==>
      BEval(Column(arc.controls, c), t)
        == PoleSum(v, flat, q.span, c, ReachedAt(arc, q, op, t) - Offset(q.turn, period), v.degree + 1)
  }

  /** The parameter that t reaches. */
  ghost function ReachedAt(arc: Arc, q: Piece, op: nat, t: real): real {
    var s := arc.lo + t * (arc.hi - arc.lo);
    if op == 3 || op == 5 then q.low + q.high - s else s
  }

  lemma PlaceArithmetic(l: real, h: real, u: real, v: real, t: real, lo: real, hi: real)
    requires lo == l + u * (h - l) && hi == l + v * (h - l)
    ensures l + Times(h - l, u + Times(v - u, t)) == lo + t * (hi - lo)
  {
    assert hi - lo == (v - u) * (h - l);
  }

  lemma StandsThere(arc: Arc, q: Piece, op: nat, k: nat, degree: int)
    requires Placed(arc, q.low, q.high, op, k, degree)
    ensures Stands(arc, q.low, q.high, op, k) && arc.degree == degree
  {
    TrimmedEnds(q.low, q.high, op);
    var (l, h) := Trimmed(q.low, q.high, op);
    SplitEnds(l, h);
    hide Trimmed;
  }

  lemma TrimmedEnds(low: real, high: real, op: nat)
    ensures Trimmed(low, high, op).0 == (if op == 1 || op == 5 then 0.75 * low + 0.25 * high else low)
    ensures Trimmed(low, high, op).1 == if op == 1 || op == 5 then 0.25 * low + 0.75 * high else high
  {
  }

  lemma SplitEnds(l: real, h: real)
    ensures l + 0.0 * (h - l) == l && l + 1.0 * (h - l) == h && l + 0.375 * (h - l) == 0.625 * l + 0.375 * h
  {
  }

  lemma ShownIsReached(arc: Arc, q: Piece, op: nat, k: nat, degree: int, t: real)
    requires Placed(arc, q.low, q.high, op, k, degree)
    ensures Shown(q.low, q.high, op, k, t) == ReachedAt(arc, q, op, t)
  {
    var (l, h) := Trimmed(q.low, q.high, op);
    var (u, v) := ArcRange(op, k);
    TrimmedSum(q.low, q.high, op);
    hide Times, Trimmed, ArcRange;
    PlaceArithmetic(l, h, u, v, t, arc.lo, arc.hi);
  }

  lemma TrimmedSum(low: real, high: real, op: nat)
    ensures Trimmed(low, high, op).0 + Trimmed(low, high, op).1 == low + high
  {
  }

  lemma LocalBack(s: real, a: real, w: real)
    requires w > 0.0
    ensures Times(w, Local(s, a, w)) == s - a
  {
  }

  lemma ValueFromPoles(v: Curve, flat: seq<real>, span: nat, c: nat, offset: real, s: real)
    requires Shaped(v) && v.degree <= span && span + v.degree + 1 < |flat| && c < 4 && Span(flat, span)
    ensures Eval(SpanCurve(v, flat, span)[c], Local(s, flat[span] + offset, flat[span + 1] - flat[span]))
         == PoleSum(v, flat, span, c, s - offset, v.degree + 1)
  {
    hide Times, Eval, SpanCurve, PoleSum, Local, Cox;
    var a, w := flat[span] + offset, flat[span + 1] - flat[span];
    SpanCurveIs(v, flat, span, c, Local(s, a, w));
    LocalBack(s, a, w);
  }

  /** From the curve's degree up the arc traces the weighted poles. */
  lemma ArcTraces(arc: Arc, v: Curve, flat: seq<real>, period: real, q: Piece, op: nat, elevation: int, k: nat)
    requires GoodCurve(v) && v.degree <= q.span && q.span + v.degree + 1 < |flat| && Span(flat, q.span)
    requires Placed(arc, q.low, q.high, op, k, ArcDegree(v.degree, op, elevation)) && arc.degree >= 0
    requires Shows(arc, SpanCurve(v, flat, q.span), flat[q.span] + Offset(q.turn, period),
                   flat[q.span + 1] - flat[q.span], q.low, q.high, op, k)
    ensures Traces(arc, v, flat, period, q, op)
  {
    hide SpanCurve, Eval, BEval, PoleSum, Shown, Local, Times, Placed, ReachedAt, Offset, Span;
    var a, w := flat[q.span] + Offset(q.turn, period), flat[q.span + 1] - flat[q.span];
    var h := SpanCurve(v, flat, q.span);
    forall c, t: real | 0 <= c < 4
      ensures BEval(Column(arc.controls, c), t)
        == PoleSum(v, flat, q.span, c, ReachedAt(arc, q, op, t) - Offset(q.turn, period), v.degree + 1)
    {
      var s := Shown(q.low, q.high, op, k, t);
      ShownIsReached(arc, q, op, k, ArcDegree(v.degree, op, elevation), t);
      ValueFromPoles(v, flat, q.span, c, Offset(q.turn, period), s);
      assert BEval(Column(arc.controls, c), t) == Eval(h[c], Local(s, a, w));
    }
  }

  /** The arc has the degree asked for, stands in its place and, from the curve's degree up, traces the weighted
      poles. */
  ghost predicate EditShown(arc: Arc, v: Curve, flat: seq<real>, period: real, q: Piece, op: nat, elevation: int,
                            k: nat)
    requires Shaped(v) && v.degree <= q.span && q.span + v.degree + 1 < |flat|
  {
    && arc.degree == (if op == 4 || op == 5 then elevation else v.degree)
    && Stands(arc, q.low, q.high, op, k)
    && (arc.degree >= v.degree ==> Traces(arc, v, flat, period, q, op))
  }

  lemma ArcShown(arc: Arc, v: Curve, flat: seq<real>, period: real, q: Piece, op: nat, elevation: int, k: nat)
    requires GoodCurve(v) && v.degree <= q.span && q.span + v.degree + 1 < |flat| && Span(flat, q.span)
    requires EditedArc(arc, v, flat, period, q, op, elevation, k)
    ensures EditShown(arc, v, flat, period, q, op, elevation, k)
  {
    hide Shows, Traces, Stands, Placed, ArcFrom, Fits, SpanCurve, Offset, PositiveArc;
    StandsThere(arc, q, op, k, ArcDegree(v.degree, op, elevation));
    if arc.degree >= v.degree {
      ElevatedShows(arc, v, flat, period, q, op, elevation, k);
      ArcTraces(arc, v, flat, period, q, op, elevation, k);
    }
  }

  lemma InSpanMeans(pieces: seq<Piece>, flat: seq<real>, p: nat, first: real, last: real, period: real)
    requires Tiles(pieces, first, last) && InSpans(pieces, flat, p, period) && Nondecreasing(flat)
    ensures forall i :: 0 <= i < |pieces| ==>
      p <= pieces[i].span && pieces[i].span + p + 1 < |flat| && Span(flat, pieces[i].span)
  {
    forall i | 0 <= i < |pieces|
      ensures p <= pieces[i].span && pieces[i].span + p + 1 < |flat| && Span(flat, pieces[i].span)
    {
      PieceInSpan(pieces, flat, p, first, last, period, i);
    }
  }

  /** Every piece becomes one arc, or two where the operation splits, of the degree asked for, each in its place; from
      the curve's degree up each traces the weighted poles under Cox's basis. */
  lemma EditTraces(arcs: seq<Arc>, pieces: seq<Piece>, v: Curve, flat: seq<real>, period: real, op: nat, elevation: int,
                   first: real, last: real)
    requires EditOf(arcs, pieces, v, flat, period, op, elevation) && Nondecreasing(flat)
    requires Tiles(pieces, first, last)
    ensures forall q :: q in pieces ==> v.degree <= q.span && q.span + v.degree + 1 < |flat|
    ensures var n := if op == 2 || op == 5 then 2 else 1;
      && |arcs| == |pieces| * n
      && forall j :: 0 <= j < |arcs| ==>
        j / n < |pieces| && EditShown(arcs[j], v, flat, period, pieces[j / n], op, elevation, j % n)
  {
    hide EditedArc, Traces, EditShown, Offset, Nondecreasing, Tiles, Span;
    var n := if op == 2 || op == 5 then 2 else 1;
    InSpanMeans(pieces, flat, v.degree, first, last, period);
    assert n == ArcCount(op);
    forall j | 0 <= j < |arcs|
      ensures j / n < |pieces| && EditShown(arcs[j], v, flat, period, pieces[j / n], op, elevation, j % n)
    {
      var i, k := j / n, j % n;
      assert ArcIndex(i, k, op) == j;
      assert EditedArc(arcs[j], v, flat, period, pieces[i], op, elevation, k);
      ArcShown(arcs[j], v, flat, period, pieces[i], op, elevation, k);
    }
  }

  // ------------------------------------------------------------------ affine maps

  /** One row of an affine map on homogeneous coordinates. */
  ghost function Mix(m: seq<real>, x: real, y: real, z: real, w: real): real
    requires |m| == 4
  {
    Times(m[0], x) + Times(m[1], y) + Times(m[2], z) + Times(m[3], w)
  }

  /** The row applied to four lists. */
  ghost function Combination(m: seq<real>, h: seq<seq<real>>, n: nat): (r: seq<real>)
    requires |m| == 4 && FourLists(h, n)
    ensures |r| == n
  {
    RawAdd(RawAdd(Scale(m[0], h[0]), Scale(m[1], h[1])), RawAdd(Scale(m[2], h[2]), Scale(m[3], h[3])))
  }

  lemma CombinationAt(m: seq<real>, h: seq<seq<real>>, n: nat, i: nat)
    requires |m| == 4 && FourLists(h, n) && i < n
    ensures Combination(m, h, n)[i] == Mix(m, h[0][i], h[1][i], h[2][i], h[3][i])
  {
    hide Times, RawAdd, Scale;
    var a, b := RawAdd(Scale(m[0], h[0]), Scale(m[1], h[1])), RawAdd(Scale(m[2], h[2]), Scale(m[3], h[3]));
    RawAddAt(a, b, i);
    RawAddAt(Scale(m[0], h[0]), Scale(m[1], h[1]), i);
    RawAddAt(Scale(m[2], h[2]), Scale(m[3], h[3]), i);
    ScaleAt(m[0], h[0], i);
    ScaleAt(m[1], h[1], i);
    ScaleAt(m[2], h[2], i);
    ScaleAt(m[3], h[3], i);
  }

  lemma CombinationEval(m: seq<real>, h: seq<seq<real>>, n: nat, t: real)
    requires |m| == 4 && FourLists(h, n)
    ensures Eval(Combination(m, h, n), t) == Mix(m, Eval(h[0], t), Eval(h[1], t), Eval(h[2], t), Eval(h[3], t))
  {
    hide Times, RawAdd, Scale, Eval;
    var a, b := RawAdd(Scale(m[0], h[0]), Scale(m[1], h[1])), RawAdd(Scale(m[2], h[2]), Scale(m[3], h[3]));
    EvalRawAdd(a, b, t);
    EvalRawAdd(Scale(m[0], h[0]), Scale(m[1], h[1]), t);
    EvalRawAdd(Scale(m[2], h[2]), Scale(m[3], h[3]), t);
    EvalScale(m[0], h[0], t);
    EvalScale(m[1], h[1], t);
    EvalScale(m[2], h[2], t);
    EvalScale(m[3], h[3], t);
  }

  lemma MixZero(m: seq<real>)
    requires |m| == 4
    ensures Mix(m, 0.0, 0.0, 0.0, 0.0) == 0.0
  {
  }

  /** The row commutes with adding a multiple. */
  lemma MixStep(m: seq<real>, x: real, y: real, z: real, w: real, a: real, b: real, c: real, d: real, k: real)
    requires |m| == 4
    ensures Mix(m, x + Times(a, k), y + Times(b, k), z + Times(c, k), w + Times(d, k))
         == Mix(m, x, y, z, w) + Times(Mix(m, a, b, c, d), k)
  {
    StepArithmetic(m[0], x, a, k);
    StepArithmetic(m[1], y, b, k);
    StepArithmetic(m[2], z, c, k);
    StepArithmetic(m[3], w, d, k);
    hide Times;
    SumTimes(Times(m[0], a), Times(m[1], b), Times(m[2], c), Times(m[3], d), k);
  }

  lemma StepArithmetic(m: real, x: real, a: real, k: real)
    ensures Times(m, x + Times(a, k)) == Times(m, x) + Times(Times(m, a), k)
  {
  }

  lemma SumTimes(a: real, b: real, c: real, d: real, k: real)
    ensures Times(a + b + c + d, k) == Times(a, k) + Times(b, k) + Times(c, k) + Times(d, k)
  {
  }

  /** The span's sum of mixed values is the mix of the sums. */
  lemma {:induction false} WeightedMixes(m: seq<real>, h: seq<seq<real>>, n: nat, flat: seq<real>, span: nat, p: nat,
                                         j: nat, t: real)
    requires |m| == 4 && FourLists(h, n) && n >= 1 && p <= span && span + p + 1 < |flat| && j <= p + 1
    ensures Eval(Weighted(flat, span, p, Combination(m, h, n), j), t)
         == Mix(m, Eval(Weighted(flat, span, p, h[0], j), t), Eval(Weighted(flat, span, p, h[1], j), t),
                Eval(Weighted(flat, span, p, h[2], j), t), Eval(Weighted(flat, span, p, h[3], j), t))
    decreases j
  {
    hide Times, Eval, Basis, Combination, Mix, Weighted;
    if j == 0 {
      NothingWeighted(flat, span, p, Combination(m, h, n), t);
      NothingWeighted(flat, span, p, h[0], t);
      NothingWeighted(flat, span, p, h[1], t);
      NothingWeighted(flat, span, p, h[2], t);
      NothingWeighted(flat, span, p, h[3], t);
      MixZero(m);
    } else {
      WeightedMixes(m, h, n, flat, span, p, j - 1, t);
      var i := (span - p + j - 1) % n;
      var k := Eval(Basis(flat, span, span - p + j - 1, p), t);
      WeightedUnfold(flat, span, p, Combination(m, h, n), j, t);
      WeightedUnfold(flat, span, p, h[0], j, t);
      WeightedUnfold(flat, span, p, h[1], j, t);
      WeightedUnfold(flat, span, p, h[2], j, t);
      WeightedUnfold(flat, span, p, h[3], j, t);
      CombinationAt(m, h, n, i);
      MixStep(m, Eval(Weighted(flat, span, p, h[0], j - 1), t), Eval(Weighted(flat, span, p, h[1], j - 1), t),
              Eval(Weighted(flat, span, p, h[2], j - 1), t), Eval(Weighted(flat, span, p, h[3], j - 1), t),
              h[0][i], h[1][i], h[2][i], h[3][i], k);
    }
  }

  lemma NothingWeighted(flat: seq<real>, span: nat, p: nat, v: seq<real>, t: real)
    requires p <= span && span + p + 1 < |flat| && |v| >= 1
    ensures Eval(Weighted(flat, span, p, v, 0), t) == 0.0
  {
    hide Eval;
    EvalZeros(p + 1, t);
  }

  lemma WeightedUnfold(flat: seq<real>, span: nat, p: nat, v: seq<real>, j: nat, t: real)
    requires p <= span && span + p + 1 < |flat| && |v| >= 1 && 1 <= j <= p + 1
    ensures var i := span - p + j - 1;
      Eval(Weighted(flat, span, p, v, j), t) == Eval(Weighted(flat, span, p, v, j - 1), t)
        + Times(v[i % |v|], Eval(Basis(flat, span, i, p), t))
  {
    hide Times, Eval, Basis, RawAdd, Scale;
    var i := span - p + j - 1;
    EvalRawAdd(Weighted(flat, span, p, v, j - 1), Scale(v[i % |v|], Basis(flat, span, i, p)), t);
    EvalScale(v[i % |v|], Basis(flat, span, i, p), t);
  }

  /** So is the list itself. */
  lemma WeightedCombines(m: seq<real>, h: seq<seq<real>>, n: nat, flat: seq<real>, span: nat, p: nat,
                         g: seq<seq<real>>)
    requires |m| == 4 && FourLists(h, n) && n >= 1 && p <= span && span + p + 1 < |flat| && FourLists(g, p + 1)
    requires forall c :: 0 <= c < 4 ==> g[c] == Weighted(flat, span, p, h[c], p + 1)
    ensures Weighted(flat, span, p, Combination(m, h, n), p + 1) == Combination(m, g, p + 1)
  {
    hide Eval, Weighted, Combination, Mix, Basis;
    var x, y := Weighted(flat, span, p, Combination(m, h, n), p + 1), Combination(m, g, p + 1);
    forall t: real
      ensures Eval(x, t) == Eval(y, t)
    {
      WeightedMixes(m, h, n, flat, span, p, p + 1, t);
      CombinationEval(m, g, p + 1, t);
    }
    SameValuesSameList(x, y);
  }

  /** Substitution commutes with the row. */
  lemma ComposeCombines(m: seq<real>, h: seq<seq<real>>, n: nat, a: real, b: real, g: seq<seq<real>>)
    requires |m| == 4 && FourLists(h, n) && n >= 1 && FourLists(g, n)
    requires forall c :: 0 <= c < 4 ==> g[c] == Compose(h[c], a, b)
    ensures Compose(Combination(m, h, n), a, b) == Combination(m, g, n)
  {
    hide Eval, Compose, Combination, Mix, Times;
    var x, y := Compose(Combination(m, h, n), a, b), Combination(m, g, n);
    forall t: real
      ensures Eval(x, t) == Eval(y, t)
    {
      EvalCompose(Combination(m, h, n), a, b, t);
      CombinationEval(m, h, n, a + Times(b, t));
      CombinationEval(m, g, n, t);
      EvalCompose(h[0], a, b, t);
      EvalCompose(h[1], a, b, t);
      EvalCompose(h[2], a, b, t);
      EvalCompose(h[3], a, b, t);
    }
    SameValuesSameList(x, y);
  }

  lemma {:induction false} ControlSumMixes(m: seq<real>, h: seq<seq<real>>, n: nat, i: nat, degree: nat, j: nat)
    requires |m| == 4 && FourLists(h, n) && j <= n && j <= degree + 1
    ensures ControlSum(Combination(m, h, n), i, degree, j)
         == Mix(m, ControlSum(h[0], i, degree, j), ControlSum(h[1], i, degree, j), ControlSum(h[2], i, degree, j),
                ControlSum(h[3], i, degree, j))
    decreases j
  {
    hide Times, Combination, Mix, Choose;
    if j == 0 {
      MixZero(m);
    } else {
      ControlSumMixes(m, h, n, i, degree, j - 1);
      ChooseBounds(degree, j - 1);
      var k := Choose(i, j - 1) as real / Choose(degree, j - 1) as real;
      CombinationAt(m, h, n, j - 1);
      TimesCommutes(k, Combination(m, h, n)[j - 1]);
      TimesCommutes(k, h[0][j - 1]);
      TimesCommutes(k, h[1][j - 1]);
      TimesCommutes(k, h[2][j - 1]);
      TimesCommutes(k, h[3][j - 1]);
      MixStep(m, ControlSum(h[0], i, degree, j - 1), ControlSum(h[1], i, degree, j - 1),
              ControlSum(h[2], i, degree, j - 1), ControlSum(h[3], i, degree, j - 1),
              h[0][j - 1], h[1][j - 1], h[2][j - 1], h[3][j - 1], k);
    }
  }

  /** So does the change to controls, at any degree. */
  lemma ControlsMix(m: seq<real>, h: seq<seq<real>>, n: nat, degree: int, i: nat)
    requires |m| == 4 && FourLists(h, n) && n >= 1 && i < Count(degree)
    ensures Controls(Combination(m, h, n), degree)[i]
         == Mix(m, Controls(h[0], degree)[i], Controls(h[1], degree)[i], Controls(h[2], degree)[i],
                Controls(h[3], degree)[i])
  {
    hide Combination, Mix, ControlSum;
    ControlSumMixes(m, h, n, i, degree, (if i < n - 1 then i else n - 1) + 1);
  }

  /** w is v with its poles moved by an affine map of three rows, the weights kept. */
  ghost predicate Moved(v: Curve, w: Curve, rows: seq<seq<real>>) {
    && Shaped(v) && Shaped(w) && w.degree == v.degree && w.weights == v.weights
    && |rows| == 3 && (forall c :: 0 <= c < 3 ==> |rows[c]| == 4)
    && forall i, c :: 0 <= i < |v.poles| && 0 <= c < 3 ==>
      w.poles[i][c] == Mix(rows[c], v.poles[i][0], v.poles[i][1], v.poles[i][2], 1.0)
  }

  ghost function Coordinates(v: Curve): (r: seq<seq<real>>)
    requires Shaped(v)
    ensures FourLists(r, |v.weights|)
  {
    [Coordinate(v, 0), Coordinate(v, 1), Coordinate(v, 2), Coordinate(v, 3)]
  }

  lemma MixWeighted(m: seq<real>, k: real, x: real, y: real, z: real)
    requires |m| == 4
    ensures Times(k, Mix(m, x, y, z, 1.0)) == Mix(m, Times(k, x), Times(k, y), Times(k, z), k)
  {
    MixZero(m);
    TimesUnits(k);
    hide Mix;
    TimesCommutes(k, x);
    TimesCommutes(k, y);
    TimesCommutes(k, z);
    TimesCommutes(k, 1.0);
    TimesCommutes(k, Mix(m, x, y, z, 1.0));
    hide Times;
    MixStep(m, 0.0, 0.0, 0.0, 0.0, x, y, z, 1.0, k);
  }

  lemma CoordinateMoves(v: Curve, w: Curve, rows: seq<seq<real>>, c: nat)
    requires Moved(v, w, rows) && c < 3
    ensures Coordinate(w, c) == Combination(rows[c], Coordinates(v), |v.weights|)
    ensures Coordinate(w, 3) == Coordinate(v, 3)
  {
    hide Times, Mix, Combination;
    forall i | 0 <= i < |v.weights|
      ensures Coordinate(w, c)[i] == Combination(rows[c], Coordinates(v), |v.weights|)[i]
    {
      CombinationAt(rows[c], Coordinates(v), |v.weights|, i);
      MixWeighted(rows[c], v.weights[i], v.poles[i][0], v.poles[i][1], v.poles[i][2]);
      assert w.poles[i][c] == Mix(rows[c], v.poles[i][0], v.poles[i][1], v.poles[i][2], 1.0);
    }
  }

  lemma SpanMoves(v: Curve, w: Curve, rows: seq<seq<real>>, flat: seq<real>, span: nat, c: nat)
    requires Moved(v, w, rows) && c < 3 && v.degree <= span && span + v.degree + 1 < |flat|
    ensures SpanCurve(w, flat, span)[c] == Combination(rows[c], SpanCurve(v, flat, span), v.degree + 1)
    ensures SpanCurve(w, flat, span)[3] == SpanCurve(v, flat, span)[3]
  {
    hide Coordinate, Combination, Weighted, Mix;
    CoordinateMoves(v, w, rows, c);
    WeightedCombines(rows[c], Coordinates(v), |v.weights|, flat, span, v.degree, SpanCurve(v, flat, span));
  }

  /** One arc is the affine image of the other: the same place and weights, each control point moved. */
  ghost predicate ImageArc(a: Arc, b: Arc, rows: seq<seq<real>>) {
    && a.degree == b.degree && a.lo == b.lo && a.hi == b.hi && |a.controls| == |b.controls|
    && forall i :: 0 <= i < |a.controls| ==> ImagePoint(a.controls[i], b.controls[i], rows)
  }

  ghost predicate ImagePoint(x: seq<real>, y: seq<real>, rows: seq<seq<real>>) {
    && |x| == 4 && |y| == 4 && |rows| == 3 && y[3] == x[3]
    && forall c :: 0 <= c < 3 ==> |rows[c]| == 4 && y[c] == Mix(rows[c], x[0], x[1], x[2], x[3])
  }

  lemma ArcControl(arc: Arc, h: seq<seq<real>>, x: real, y: real, i: nat, c: nat)
    requires ArcOf(arc, h, x, y) && i < |arc.controls| && c < 4
    ensures |h[c]| >= 1 && i < Count(arc.degree) && |arc.controls[i]| == 4
    ensures arc.controls[i][c] == Controls(Compose(h[c], x, y), arc.degree)[i]
  {
    hide Controls, Compose;
    assert Column(arc.controls, c)[i] == arc.controls[i][c];
  }

  lemma ControlMoves(a: Arc, b: Arc, g: seq<seq<real>>, h: seq<seq<real>>, n: nat, m: seq<real>, x: real, y: real,
                     i: nat, c: nat)
    requires ArcOf(a, g, x, y) && ArcOf(b, h, x, y) && a.degree == b.degree && i < |a.controls| && c < 3
    requires |m| == 4 && FourLists(g, n) && n >= 1 && h[c] == Combination(m, g, n)
    ensures |a.controls[i]| == 4 && i < |b.controls| && |b.controls[i]| == 4
    ensures b.controls[i][c] == Mix(m, a.controls[i][0], a.controls[i][1], a.controls[i][2], a.controls[i][3])
  {
    hide Controls, Compose, Combination, Mix, ArcOf, Column, ComposeAll;
    SameCount(a, b, g, h, x, y);
    ArcControl(a, g, x, y, i, 0);
    ArcControl(a, g, x, y, i, 1);
    ArcControl(a, g, x, y, i, 2);
    ArcControl(a, g, x, y, i, 3);
    ArcControl(b, h, x, y, i, c);
    ComposeAllAt(g, n, x, y);
    ComposeCombines(m, g, n, x, y, ComposeAll(g, n, x, y));
    ControlsMix(m, ComposeAll(g, n, x, y), n, a.degree, i);
  }

  lemma ArcMoves(a: Arc, b: Arc, v: Curve, w: Curve, rows: seq<seq<real>>, flat: seq<real>, span: nat, x: real,
                 y: real)
    requires Moved(v, w, rows) && v.degree <= span && span + v.degree + 1 < |flat|
    requires ArcOf(a, SpanCurve(v, flat, span), x, y) && ArcOf(b, SpanCurve(w, flat, span), x, y)
    requires a.degree == b.degree && a.lo == b.lo && a.hi == b.hi
    ensures ImageArc(a, b, rows)
  {
    hide Mix, Combination, SpanCurve, Controls, Compose, ArcOf;
    var g, h := SpanCurve(v, flat, span), SpanCurve(w, flat, span);
    SameCount(a, b, g, h, x, y);
    forall i | 0 <= i < |a.controls|
      ensures ImagePoint(a.controls[i], b.controls[i], rows)
    {
      ArcControl(a, g, x, y, i, 3);
      ArcControl(b, h, x, y, i, 3);
      SpanMoves(v, w, rows, flat, span, 0);
      forall c | 0 <= c < 3
        ensures b.controls[i][c] == Mix(rows[c], a.controls[i][0], a.controls[i][1], a.controls[i][2], a.controls[i][3])
      {
        SpanMoves(v, w, rows, flat, span, c);
        ControlMoves(a, b, g, h, v.degree + 1, rows[c], x, y, i, c);
      }
    }
  }

  lemma SameCount(a: Arc, b: Arc, g: seq<seq<real>>, h: seq<seq<real>>, x: real, y: real)
    requires ArcOf(a, g, x, y) && ArcOf(b, h, x, y) && a.degree == b.degree
    ensures |a.controls| == |b.controls|
  {
    hide Controls, Compose;
  }

  lemma EditedMoves(a: Arc, b: Arc, v: Curve, w: Curve, rows: seq<seq<real>>, flat: seq<real>, period: real, q: Piece,
                    op: nat, elevation: int, k: nat)
    requires Moved(v, w, rows) && GoodCurve(v) && GoodCurve(w)
    requires v.degree <= q.span && q.span + v.degree + 1 < |flat|
    requires EditedArc(a, v, flat, period, q, op, elevation, k) && EditedArc(b, w, flat, period, q, op, elevation, k)
    ensures ImageArc(a, b, rows)
  {
    hide Moved, ImageArc, SpanCurve, Shows, Fits, Part, Local, Offset, ArcOf;
    var start, length := flat[q.span] + Offset(q.turn, period), flat[q.span + 1] - flat[q.span];
    var (x, y) := Part(Local(q.low, start, length), Local(q.high, q.low, length), op, k);
    SameDegree(v, w, rows);
    ArcMoves(a, b, v, w, rows, flat, q.span, x, y);
  }

  lemma SameDegree(v: Curve, w: Curve, rows: seq<seq<real>>)
    requires Moved(v, w, rows)
    ensures v.degree == w.degree
  {
  }

  /** Affine invariance: the arcs of a moved curve are the moved arcs, at every degree. */
  lemma AffineInvariance(arcs: seq<Arc>, moved: seq<Arc>, pieces: seq<Piece>, v: Curve, w: Curve,
                         rows: seq<seq<real>>, flat: seq<real>, period: real, op: nat, elevation: int)
    requires Moved(v, w, rows)
    requires EditOf(arcs, pieces, v, flat, period, op, elevation)
    requires EditOf(moved, pieces, w, flat, period, op, elevation)
    ensures |moved| == |arcs| && forall j :: 0 <= j < |arcs| ==> ImageArc(arcs[j], moved[j], rows)
  {
    hide Moved, ImageArc, EditedArc, Offset;
    var n := ArcCount(op);
    AtLeastOne(op);
    forall j | 0 <= j < |arcs|
      ensures ImageArc(arcs[j], moved[j], rows)
    {
      var i, k := j / n, j % n;
      assert ArcIndex(i, k, op) == j;
      SameDegree(v, w, rows);
      assert EditedArc(arcs[j], v, flat, period, pieces[i], op, elevation, k);
      assert EditedArc(moved[j], w, flat, period, pieces[i], op, elevation, k);
      EditedMoves(arcs[j], moved[j], v, w, rows, flat, period, pieces[i], op, elevation, k);
    }
  }

  /** Nor does the map change which pieces fail the assertion on the weights. */
  lemma MovedFails(v: Curve, w: Curve, rows: seq<seq<real>>, flat: seq<real>, period: real, pieces: seq<Piece>, op: nat,
                   elevation: int)
    requires Moved(v, w, rows) && GoodCurve(v) && GoodCurve(w) && Nondecreasing(flat)
    ensures SomeFails(v, flat, period, pieces, op, elevation) <==> SomeFails(w, flat, period, pieces, op, elevation)
  {
    hide PieceFails, Span, GoodCurve, Moved;
    SameDegree(v, w, rows);
    forall i | 0 <= i < |pieces| && v.degree <= pieces[i].span && pieces[i].span + v.degree + 1 < |flat|
        && Span(flat, pieces[i].span)
      ensures PieceFails(v, flat, period, pieces[i], op, elevation)
        <==> PieceFails(w, flat, period, pieces[i], op, elevation)
    {
      PieceFailsMoves(v, w, rows, flat, period, pieces[i], op, elevation);
    }
  }

  lemma SameWeightsFail(g: seq<seq<real>>, h: seq<seq<real>>, a: real, b: real, op: nat, degree: int)
    requires |g| == |h| == 4 && |g[3]| >= 1 && g[3] == h[3]
    ensures SomeArcFails(g, a, b, op, degree) <==> SomeArcFails(h, a, b, op, degree)
  {
    hide Part, Controls, Compose, ArcCount;
    assert forall k :: 0 <= k < ArcCount(op) ==>
      (ArcFails(g, a, b, op, k, degree) <==> ArcFails(h, a, b, op, k, degree));
  }

  lemma PieceFailsMoves(v: Curve, w: Curve, rows: seq<seq<real>>, flat: seq<real>, period: real, q: Piece, op: nat,
                        elevation: int)
    requires Moved(v, w, rows) && GoodCurve(v) && GoodCurve(w)
    requires v.degree <= q.span && q.span + v.degree + 1 < |flat| && Span(flat, q.span)
    ensures PieceFails(v, flat, period, q, op, elevation) <==> PieceFails(w, flat, period, q, op, elevation)
  {
    hide Mix, Combination, SpanCurve, SomeArcFails, GoodCurve, Offset;
    SpanMoves(v, w, rows, flat, q.span, 0);
    var a, length := flat[q.span] + Offset(q.turn, period), flat[q.span + 1] - flat[q.span];
    SameWeightsFail(SpanCurve(v, flat, q.span), SpanCurve(w, flat, q.span), (q.low - a) / length,
                    (q.high - q.low) / length, op, ArcDegree(v.degree, op, elevation));
  }
}

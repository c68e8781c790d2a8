/** Two inputs of the edits on which an elevation below the curve's degree fails: one where the assertion on the
    weights does, one where the arc is not the curve. */
module CurveLosses {
  import opened Basics
  import opened Reals
  import opened Polynomials
  import opened Bernstein
  import opened SignVariations
  import opened AffineSubstitution
  import opened BernsteinProducts
  import opened CoxBasis
  import opened CurveEdits

  /** The knots of one quadratic Bezier piece. */
  const BEZIER: seq<real> := [0.0, 0.0, 0.0, 1.0, 1.0, 1.0]

  // ------------------------------------------------------------------ its basis

  lemma LinearOfOne(a: real, x: real, y: real)
    ensures TimesLinear([a], x, y) == [Times(x, a), Times(y, a)]
  {
    hide TimesLinear, Times;
    TimesLinearAt([a], x, y, 0);
    TimesLinearAt([a], x, y, 1);
  }

  lemma LinearOfTwo(a: real, b: real, x: real, y: real)
    ensures TimesLinear([a, b], x, y) == [Times(x, a), Times(x, b) + Times(y, a), Times(y, b)]
  {
    hide TimesLinear, Times;
    TimesLinearAt([a, b], x, y, 0);
    TimesLinearAt([a, b], x, y, 1);
    TimesLinearAt([a, b], x, y, 2);
  }

  lemma NoSummand(a: seq<real>)
    ensures RawAdd(a, []) == a == RawAdd([], a)
  {
  }

  lemma AddOfThree(a: seq<real>, b: seq<real>)
    requires |a| == 3 == |b|
    ensures RawAdd(a, b) == [a[0] + b[0], a[1] + b[1], a[2] + b[2]]
  {
    RawAddAt(a, b, 0);
    RawAddAt(a, b, 1);
    RawAddAt(a, b, 2);
  }

  lemma ScaleOfThree(k: real, a: seq<real>)
    requires |a| == 3
    ensures Scale(k, a) == [Times(k, a[0]), Times(k, a[1]), Times(k, a[2])]
  {
    hide Scale, Times;
    ScaleAt(k, a, 0);
    ScaleAt(k, a, 1);
    ScaleAt(k, a, 2);
  }

  lemma BezierLines()
    ensures Basis(BEZIER, 2, 1, 1) == [1.0, -1.0] && Basis(BEZIER, 2, 2, 1) == [0.0, 1.0]
  {
    hide TimesLinear, RawAdd;
    LinearOfOne(1.0, 1.0, -1.0);
    LinearOfOne(1.0, 0.0, 1.0);
    NoSummand([1.0, -1.0]);
    NoSummand([0.0, 1.0]);
    assert Basis(BEZIER, 2, 2, 0) == [1.0];
    assert FallingTerm(BEZIER, 2, 1, 1, [1.0]) == [1.0, -1.0];
    assert RisingTerm(BEZIER, 2, 2, 1, [1.0]) == [0.0, 1.0];
  }

  lemma BezierParabolas()
    ensures Basis(BEZIER, 2, 0, 2) == [1.0, -2.0, 1.0] && Basis(BEZIER, 2, 1, 2) == [0.0, 2.0, -2.0]
    ensures Basis(BEZIER, 2, 2, 2) == [0.0, 0.0, 1.0]
  {
    hide TimesLinear, RawAdd;
    BezierLines();
    var down, up := [1.0, -1.0], [0.0, 1.0];
    LinearOfTwo(1.0, -1.0, 1.0, -1.0);
    LinearOfTwo(1.0, -1.0, 0.0, 1.0);
    LinearOfTwo(0.0, 1.0, 1.0, -1.0);
    LinearOfTwo(0.0, 1.0, 0.0, 1.0);
    assert FallingTerm(BEZIER, 2, 0, 2, down) == [1.0, -2.0, 1.0];
    assert RisingTerm(BEZIER, 2, 1, 2, down) == [0.0, 1.0, -1.0];
    assert FallingTerm(BEZIER, 2, 1, 2, up) == [0.0, 1.0, -1.0];
    assert RisingTerm(BEZIER, 2, 2, 2, up) == [0.0, 0.0, 1.0];
    NoSummand([1.0, -2.0, 1.0]);
    NoSummand([0.0, 0.0, 1.0]);
    AddOfThree([0.0, 1.0, -1.0], [0.0, 1.0, -1.0]);
  }

  /** The power form of the polynomial with Bernstein coefficients x, y, z. */
  lemma BezierWeighted(x: real, y: real, z: real)
    ensures Weighted(BEZIER, 2, 2, [x, y, z], 3) == [x, 2.0 * y - 2.0 * x, x - 2.0 * y + z]
  {
    hide Basis, RawAdd, Scale;
    BezierParabolas();
    ScaleOfThree(x, [1.0, -2.0, 1.0]);
    ScaleOfThree(y, [0.0, 2.0, -2.0]);
    ScaleOfThree(z, [0.0, 0.0, 1.0]);
    var none, v := Zeros(3), [x, y, z];
    AddOfThree(none, [x, -2.0 * x, x]);
    AddOfThree([x, -2.0 * x, x], [0.0, 2.0 * y, -2.0 * y]);
    AddOfThree([x, 2.0 * y - 2.0 * x, x - 2.0 * y], [0.0, 0.0, z]);
    assert Weighted(BEZIER, 2, 2, v, 0) == none;
    assert Weighted(BEZIER, 2, 2, v, 1) == [x, -2.0 * x, x];
    assert Weighted(BEZIER, 2, 2, v, 2) == [x, 2.0 * y - 2.0 * x, x - 2.0 * y];
  }

  // ------------------------------------------------------------------ lines for parabolas

  lemma ComposeWhole(c: seq<real>)
    requires |c| >= 1
    ensures Compose(c, 0.0, 1.0) == c
  {
    hide Times, Eval, Compose;
    forall t: real
      ensures Eval(Compose(c, 0.0, 1.0), t) == Eval(c, t)
    {
      EvalCompose(c, 0.0, 1.0, t);
      TimesUnits(t);
    }
    SameValuesSameList(Compose(c, 0.0, 1.0), c);
  }

  /** The controls of degree 1 drop the square. */
  lemma LineControls(a: real, b: real, c: real)
    ensures Controls([a, b, c], 1) == [a, a + b]
  {
    var p := [a, b, c];
    assert ControlSum(p, 0, 1, 0) == 0.0 == ControlSum(p, 1, 1, 0);
    assert ControlSum(p, 0, 1, 1) == a && ControlSum(p, 1, 1, 1) == a;
    assert ControlSum(p, 1, 1, 2) == a + b;
  }

  // ------------------------------------------------------------------ one piece

  const WHOLE: Piece := Piece(0, 2, 0.0, 1.0)

  lemma BezierAxis()
    ensures Axis(BEZIER, 2, 0.0, 1.0) && Span(BEZIER, 2) && Nondecreasing(BEZIER)
  {
  }

  /** [0, 1] is one piece. */
  lemma OnePiece(pieces: seq<Piece>)
    requires CutInto(pieces, BEZIER, 2, 0.0, 1.0, 0.0, 1.0)
    ensures pieces == [WHOLE]
  {
    BezierAxis();
    assert CutInto([WHOLE], BEZIER, 2, 0.0, 1.0, 0.0, 1.0);
    CutUnique(BEZIER, 2, 0.0, 1.0, 0.0, 1.0, pieces, [WHOLE]);
  }

  /** A quadratic piece whose weights are w. */
  ghost predicate Quadratic(v: Curve, w: seq<real>) {
    v.degree == 2 && v.weights == w && |w| == 3 && GoodCurve(v)
  }

  /** The assertion on the piece's one line, of degree 1. */
  lemma FailsNamed(v: Curve)
    requires v.degree == 2 && GoodCurve(v)
    ensures FailsOn(v, BEZIER, 1.0, WHOLE, 4, 1) <==>
      !AllPositive(Controls(Compose(SpanCurve(v, BEZIER, 2)[3], 0.0, 1.0), 1))
  {
    BezierAxis();
    var h := SpanCurve(v, BEZIER, 2);
    hide SpanCurve, Compose, Controls, AllPositive, Nondecreasing, Axis;
    assert BEZIER[2] + Offset(0, 1.0) == 0.0 && BEZIER[3] - BEZIER[2] == 1.0;
    assert Part(0.0, 1.0, 4, 0) == (0.0, 1.0);
    assert SomeArcFails(h, 0.0, 1.0, 4, 1) <==> ArcFails(h, 0.0, 1.0, 4, 0, 1);
  }

  lemma WeightPolynomial(v: Curve, x: real, y: real, z: real)
    requires Quadratic(v, [x, y, z])
    ensures SpanCurve(v, BEZIER, 2)[3] == [x, 2.0 * y - 2.0 * x, x - 2.0 * y + z]
  {
    WeightCoordinate(v);
    BezierWeighted(x, y, z);
    hide Weighted, Coordinate;
  }

  lemma LinePositive(x: real, y: real)
    requires x > 0.0
    ensures AllPositive([x, 2.0 * y - x]) <==> 2.0 * y > x
  {
    var line := [x, 2.0 * y - x];
    assert line[0] == x && line[1] == 2.0 * y - x;
  }

  /** The assertion fails on its line exactly if the middle weight is at most half the first. */
  lemma LineFails(v: Curve, x: real, y: real, z: real)
    requires Quadratic(v, [x, y, z])
    ensures FailsOn(v, BEZIER, 1.0, WHOLE, 4, 1) <==> 2.0 * y <= x
  {
    assert v.weights[0] == x;
    hide SpanCurve, FailsOn, Compose, Controls, AllPositive;
    FailsNamed(v);
    WeightPolynomial(v, x, y, z);
    ComposeWhole(SpanCurve(v, BEZIER, 2)[3]);
    LineControls(x, 2.0 * y - 2.0 * x, x - 2.0 * y + z);
    LinePositive(x, y);
  }

  /** A quadratic piece elevated to degree 1: the assertion fails exactly if the middle weight is at most half the
      first; otherwise there is one arc, which is the curve exactly if the curve has no square terms. */
  method ElevateToLine(v: Curve) returns (r: Outcome)
    requires Quadratic(v, v.weights)
    ensures r.NotPositive? <==> 2.0 * v.weights[1] <= v.weights[0]
    ensures !r.NotPositive? ==> r.Arcs? && |r.arcs| == 1
    ensures r.Arcs? && |r.arcs| == 1 ==>
      (Shows(r.arcs[0], SpanCurve(v, BEZIER, 2), 0.0, 1.0, 0.0, 1.0, 4, 0) <==> Fits(SpanCurve(v, BEZIER, 2), 1))
  {
    hide *;
    BezierAxis();
    QuadraticIs(v);
    r := Expected(v, BEZIER, 0.0, 1.0, 0.0, 1.0, false, 4, 1);
    if r.NotPositive? {
      ghost var pieces :| CutInto(pieces, BEZIER, 2, 0.0, 1.0, 0.0, 1.0) && SomeFails(v, BEZIER, 1.0, pieces, 4, 1);
      FailedMeans(v, pieces);
    } else {
      ghost var pieces :| CutInto(pieces, BEZIER, 2, 0.0, 1.0, 0.0, 1.0) &&
        !SomeFails(v, BEZIER, 1.0, pieces, 4, 1) && EditOf(r.arcs, pieces, v, BEZIER, 1.0, 4, 1);
      ArcsMean(v, pieces, r.arcs);
    }
  }

  lemma QuadraticIs(v: Curve)
    requires Quadratic(v, v.weights)
    ensures v.degree == 2 && GoodCurve(v) && |v.weights| == 3
  {
  }

  lemma FailedMeans(v: Curve, pieces: seq<Piece>)
    requires Quadratic(v, v.weights) && GoodCurve(v) && Nondecreasing(BEZIER)
    requires CutInto(pieces, BEZIER, 2, 0.0, 1.0, 0.0, 1.0) && SomeFails(v, BEZIER, 1.0, pieces, 4, 1)
    ensures |v.weights| == 3 && 2.0 * v.weights[1] <= v.weights[0]
  {
    hide *;
    QuadraticParts(v);
    OnePiece(pieces);
  }

  lemma ArcsMean(v: Curve, pieces: seq<Piece>, arcs: seq<Arc>)
    requires Quadratic(v, v.weights) && GoodCurve(v) && Nondecreasing(BEZIER)
    requires CutInto(pieces, BEZIER, 2, 0.0, 1.0, 0.0, 1.0) && !SomeFails(v, BEZIER, 1.0, pieces, 4, 1)
    requires EditOf(arcs, pieces, v, BEZIER, 1.0, 4, 1)
    ensures |v.weights| == 3 && 2.0 * v.weights[1] > v.weights[0] && |arcs| == 1
    ensures Shows(arcs[0], SpanCurve(v, BEZIER, 2), 0.0, 1.0, 0.0, 1.0, 4, 0) <==> Fits(SpanCurve(v, BEZIER, 2), 1)
  {
    QuadraticParts(v);
    hide *;
    OnePiece(pieces);
    OneArc(arcs, v);
  }

  lemma QuadraticParts(v: Curve)
    requires Quadratic(v, v.weights)
    ensures v.degree == 2 && GoodCurve(v) && |v.weights| == 3 && Nondecreasing(BEZIER)
    ensures SomeFails(v, BEZIER, 1.0, [WHOLE], 4, 1) <==> 2.0 * v.weights[1] <= v.weights[0]
  {
    BezierAxis();
    var w := v.weights;
    assert w == [w[0], w[1], w[2]];
    LineFails(v, w[0], w[1], w[2]);
    hide FailsOn, SomeFails;
    OneFails(v);
  }

  lemma OneFails(v: Curve)
    requires GoodCurve(v) && Nondecreasing(BEZIER)
    ensures SomeFails(v, BEZIER, 1.0, [WHOLE], 4, 1) <==> FailsOn(v, BEZIER, 1.0, WHOLE, 4, 1)
  {
    hide FailsOn;
    assert [WHOLE][0] == WHOLE;
  }

  lemma OneArc(arcs: seq<Arc>, v: Curve)
    requires v.degree == 2 && EditOf(arcs, [WHOLE], v, BEZIER, 1.0, 4, 1)
    ensures GoodCurve(v) && |arcs| == 1
    ensures Shows(arcs[0], SpanCurve(v, BEZIER, 2), 0.0, 1.0, 0.0, 1.0, 4, 0) <==> Fits(SpanCurve(v, BEZIER, 2), 1)
  {
    FirstArc(arcs, v);
    EditedShows(arcs[0], v);
  }

  lemma FirstArc(arcs: seq<Arc>, v: Curve)
    requires v.degree == 2 && EditOf(arcs, [WHOLE], v, BEZIER, 1.0, 4, 1)
    ensures GoodCurve(v) && |arcs| == 1 && EditedArc(arcs[0], v, BEZIER, 1.0, WHOLE, 4, 1, 0)
  {
    hide EditedArc, GoodCurve, InSpans;
    var pieces, at := [WHOLE], ArcIndex(0, 0, 4);
    assert at == 0 && |pieces| == 1 && pieces[0] == WHOLE;
    assert EditedArc(arcs[at], v, BEZIER, 1.0, pieces[0], 4, 1, 0);
  }

  lemma EditedShows(arc: Arc, v: Curve)
    requires v.degree == 2 && GoodCurve(v) && EditedArc(arc, v, BEZIER, 1.0, WHOLE, 4, 1, 0)
    ensures Shows(arc, SpanCurve(v, BEZIER, 2), 0.0, 1.0, 0.0, 1.0, 4, 0) <==> Fits(SpanCurve(v, BEZIER, 2), 1)
  {
    hide Shows, SpanCurve, Fits, ArcFrom, GoodCurve, PositiveArc;
    assert BEZIER[2] + Offset(0, 1.0) == 0.0 && BEZIER[3] - BEZIER[2] == 1.0;
  }

  const CORNERS: seq<seq<real>> := [[0.0, 0.0, 0.0], [1.0, 1.0, 0.0], [2.0, 0.0, 0.0]]

  lemma PositiveThree(x: real, y: real, z: real)
    requires x > 0.0 && y > 0.0 && z > 0.0
    ensures Quadratic(Curve(2, CORNERS, [x, y, z]), [x, y, z])
  {
  }

  /** An input on which the assertion on the weights fails: they are 4, 1, 4, and the line's are 4 and -2. */
  method WeightsFail() returns (r: Outcome)
    ensures r.NotPositive?
  {
    PositiveThree(4.0, 1.0, 4.0);
    r := ElevateToLine(Curve(2, CORNERS, [4.0, 1.0, 4.0]));
  }

  /** An input that loses its curve: a parabola with equal weights, for which the one arc is a line. */
  method ParabolaLost() returns (r: Outcome)
    ensures r.Arcs? && |r.arcs| == 1
    ensures !Shows(r.arcs[0], SpanCurve(Curve(2, CORNERS, [1.0, 1.0, 1.0]), BEZIER, 2), 0.0, 1.0, 0.0, 1.0, 4, 0)
  {
    var v := Curve(2, CORNERS, [1.0, 1.0, 1.0]);
    hide *;
    PositiveThree(1.0, 1.0, 1.0);
    ParabolaBends();
    r := ElevateToLine(v);
  }

  lemma ParabolaBends()
    ensures !Fits(SpanCurve(Curve(2, CORNERS, [1.0, 1.0, 1.0]), BEZIER, 2), 1)
  {
    var v := Curve(2, CORNERS, [1.0, 1.0, 1.0]);
    BezierWeighted(0.0, 1.0, 0.0);
    assert Coordinate(v, 1) == [0.0, 1.0, 0.0];
    hide Weighted, Coordinate;
    var h := SpanCurve(v, BEZIER, 2);
    assert h[1] == [0.0, 2.0, -2.0];
    hide SpanCurve;
    assert h[1][2] == -2.0;
  }
}

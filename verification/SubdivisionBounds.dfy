/** Why subdivision ends: on a short enough interval the coefficients of a square-free polynomial either all
    have one sign or are strictly monotone. */
module SubdivisionBounds {
  import opened Reals
  import opened Polynomials
  import opened Divisibility
  import opened PolynomialDivision
  import opened Irreducibles
  import opened SquareFreeFactorization
  import opened Bernstein
  import opened SignVariations
  import opened AffineSubstitution

  // ------------------------------------------------------------------ bounds

  ghost predicate Bounded(p: seq<real>, m: real) {
    forall i :: 0 <= i < |p| ==> -m <= p[i] <= m
  }

  function Abs(x: real): real {
    if x >= 0.0 then x else -x
  }

  function AbsSum(p: seq<real>): (s: real)
    ensures s >= 0.0
  {
    if p == [] then 0.0 else Abs(p[0]) + AbsSum(p[1..])
  }

  lemma {:induction false} AbsSumBounds(p: seq<real>)
    ensures Bounded(p, AbsSum(p))
  {
    if p != [] {
      AbsSumBounds(p[1..]);
      forall i | 0 <= i < |p|
        ensures -AbsSum(p) <= p[i] <= AbsSum(p)
      {
        if i > 0 {
          assert p[i] == p[1..][i - 1];
        }
      }
    }
  }

  lemma AbsTimes(x: real, y: real)
    ensures Abs(Times(x, y)) == Times(Abs(x), Abs(y))
    ensures 0.0 <= Abs(x) <= 1.0 ==> Times(Abs(x), Abs(y)) <= Abs(y)
  {
    if Abs(x) <= 1.0 {
      ScaleDown(Abs(x), Abs(y));
    }
  }

  lemma ScaleDown(x: real, y: real)
    requires 0.0 <= x <= 1.0 && y >= 0.0
    ensures Times(x, y) <= y
  {
    assert (1.0 - x) * y >= 0.0;
  }

  lemma {:induction false} EvalBounded(p: seq<real>, x: real)
    requires 0.0 <= x <= 1.0
    ensures Abs(Eval(p, x)) <= AbsSum(p)
  {
    hide Times;
    if p != [] {
      EvalBounded(p[1..], x);
      AbsTimes(x, Eval(p[1..], x));
    }
  }

  lemma BlendBounded(u: real, x: real, y: real, m: real)
    requires 0.0 <= u <= 1.0 && -m <= x <= m && -m <= y <= m
    ensures -m <= Blend(u, x, y) <= m
  {
    var v := 1.0 - u;
    NonnegativeProduct(v, m - x);
    NonnegativeProduct(v, m + x);
    NonnegativeProduct(u, m - y);
    NonnegativeProduct(u, m + y);
    assert Blend(u, x, y) == v * x + u * y;
  }

  lemma NonnegativeProduct(x: real, y: real)
    requires x >= 0.0 && y >= 0.0
    ensures x * y >= 0.0
  {
  }

  lemma RowBounded(u: real, b: seq<real>, m: real)
    requires |b| >= 1 && 0.0 <= u <= 1.0 && Bounded(b, m)
    ensures Bounded(Row(u, b), m)
  {
    hide Blend, Blends;
    var n := |b| - 1;
    forall i | 0 <= i < n
      ensures -m <= Row(u, b)[i] <= m
    {
      BlendsAt(u, b[..n], b[1..], i);
      BlendBounded(u, b[i], b[i + 1], m);
    }
  }

  lemma {:induction false} EdgesBounded(u: real, b: seq<real>, m: real)
    requires |b| >= 1 && 0.0 <= u <= 1.0 && Bounded(b, m)
    ensures Bounded(Left(u, b), m) && Bounded(Right(u, b), m)
    decreases |b|
  {
    if |b| >= 2 {
      hide Row;
      RowBounded(u, b, m);
      EdgesBounded(u, Row(u, b), m);
    }
  }

  // ------------------------------------------------------------------ differences of the edges

  lemma BlendDifference(u: real, x: real, y: real, z: real)
    ensures Blend(u, x, y) - x == Times(u, y - x)
    ensures y - Blend(u, x, y) == Times(1.0 - u, y - x)
    ensures Blend(u, y, z) - Blend(u, x, y) == Blend(u, y - x, z - y)
  {
  }

  lemma DiffRow(u: real, b: seq<real>)
    requires |b| >= 2
    ensures Diff(Row(u, b)) == Row(u, Diff(b))
  {
    hide Blend, Blends;
    var n := |b| - 1;
    var d := Diff(b);
    forall i | 0 <= i < n - 1
      ensures Diff(Row(u, b))[i] == Row(u, d)[i]
    {
      BlendsAt(u, b[..n], b[1..], i);
      BlendsAt(u, b[..n], b[1..], i + 1);
      BlendsAt(u, d[..n - 1], d[1..], i);
      BlendDifference(u, b[i], b[i + 1], b[i + 2]);
    }
  }

  lemma DiffPrepend(x: real, b: seq<real>)
    requires |b| >= 1
    ensures Diff([x] + b) == [b[0] - x] + Diff(b)
  {
  }

  lemma DiffAppend(b: seq<real>, x: real)
    requires |b| >= 1
    ensures Diff(b + [x]) == Diff(b) + [x - b[|b| - 1]]
  {
  }

  lemma {:induction false} ScaleAppend(k: real, b: seq<real>, x: real)
    ensures Scale(k, b + [x]) == Scale(k, b) + [Times(k, x)]
  {
    hide Times;
    if b != [] {
      ScaleAppend(k, b[1..], x);
      assert (b + [x])[1..] == b[1..] + [x];
    }
  }

  lemma RowEnds(u: real, b: seq<real>)
    requires |b| >= 2
    ensures Row(u, b)[0] == Blend(u, b[0], b[1])
    ensures Row(u, b)[|b| - 2] == Blend(u, b[|b| - 2], b[|b| - 1])
  {
    hide Blend, Blends;
    var n := |b| - 1;
    BlendsAt(u, b[..n], b[1..], 0);
    BlendsAt(u, b[..n], b[1..], n - 1);
  }

  lemma ScalePrepend(k: real, x: real, b: seq<real>)
    ensures Scale(k, [x] + b) == [Times(k, x)] + Scale(k, b)
  {
    hide Times;
    assert ([x] + b)[1..] == b;
  }

  lemma ScaleSingle(k: real, x: real)
    ensures Scale(k, [x]) == [Times(k, x)]
  {
    hide Times;
    assert [x][1..] == [];
  }

  lemma {:induction false} DiffLeft(u: real, b: seq<real>)
    requires |b| >= 2
    ensures Diff(Left(u, b)) == Scale(u, Left(u, Diff(b)))
    decreases |b|
  {
    hide Blend, Times, Row, Scale, Diff;
    var r, d := Row(u, b), Diff(b);
    RowEnds(u, b);
    BlendDifference(u, b[0], b[1], b[1]);
    DiffPrepend(b[0], Left(u, r));
    assert d[0] == b[1] - b[0];
    if |b| == 2 {
      assert d == [d[0]];
      ScaleSingle(u, d[0]);
    } else {
      DiffRow(u, b);
      DiffLeft(u, r);
      ScalePrepend(u, d[0], Left(u, Row(u, d)));
    }
  }

  lemma {:induction false} DiffRight(u: real, b: seq<real>)
    requires |b| >= 2
    ensures Diff(Right(u, b)) == Scale(1.0 - u, Right(u, Diff(b)))
    decreases |b|
  {
    hide Blend, Times, Row, Scale, Diff;
    var n := |b| - 1;
    var r, d := Row(u, b), Diff(b);
    RowEnds(u, b);
    BlendDifference(u, b[n - 1], b[n], b[n]);
    DiffAppend(Right(u, r), b[n]);
    assert d[n - 1] == b[n] - b[n - 1];
    if |b| == 2 {
      assert d == [d[0]];
      ScaleSingle(1.0 - u, d[0]);
    } else {
      DiffRow(u, b);
      DiffRight(u, r);
      ScaleAppend(1.0 - u, Right(u, Row(u, d)), d[n - 1]);
    }
  }

  lemma DiffScale(k: real, b: seq<real>)
    ensures Diff(Scale(k, b)) == Scale(k, Diff(b))
  {
    hide Times, Scale, Diff;
    forall i | 0 <= i < |b| - 1
      ensures Diff(Scale(k, b))[i] == Scale(k, Diff(b))[i]
    {
      ScaleAt(k, b, i);
      ScaleAt(k, b, i + 1);
      ScaleAt(k, Diff(b), i);
      TimesDifference(k, b[i + 1], b[i]);
    }
  }

  lemma HalfBounded(b: seq<real>, m: real)
    requires Bounded(b, m)
    ensures Bounded(Scale(0.5, b), 0.5 * m)
  {
    forall i | 0 <= i < |b|
      ensures -(0.5 * m) <= Scale(0.5, b)[i] <= 0.5 * m
    {
      ScaleAt(0.5, b, i);
    }
  }

  /** First differences within w d, second ones within w^2 e. */
  ghost predicate SmallSteps(b: seq<real>, w: real, d: real, e: real) {
    Bounded(Diff(b), w * d) && Bounded(Diff(Diff(b)), w * w * e)
  }

  lemma HalvingQuarters(w: real, d: real, e: real)
    ensures 0.5 * (w * d) == (w * 0.5) * d
    ensures 0.5 * (0.5 * (w * w * e)) == (w * 0.5) * (w * 0.5) * e
  {
  }

  /** Halving the interval halves the first differences and quarters the second. */
  lemma HalvesSmallSteps(b: seq<real>, w: real, d: real, e: real)
    requires |b| >= 2 && SmallSteps(b, w, d, e)
    ensures SmallSteps(Left(0.5, b), w * 0.5, d, e) && SmallSteps(Right(0.5, b), w * 0.5, d, e)
  {
    hide Times, Left, Right, Bounded, Diff, Scale;
    DiffLeft(0.5, b);
    DiffRight(0.5, b);
    var p := Diff(b);
    EdgesBounded(0.5, p, w * d);
    HalfBounded(Left(0.5, p), w * d);
    HalfBounded(Right(0.5, p), w * d);
    HalvingQuarters(w, d, e);
    var l, r := Left(0.5, p), Right(0.5, p);
    DiffScale(0.5, l);
    DiffScale(0.5, r);
    if |p| >= 2 {
      DiffLeft(0.5, p);
      DiffRight(0.5, p);
      EdgesBounded(0.5, Diff(p), w * w * e);
      HalfBounded(Left(0.5, Diff(p)), w * w * e);
      HalfBounded(Right(0.5, Diff(p)), w * w * e);
      HalfBounded(Diff(l), 0.5 * (w * w * e));
      HalfBounded(Diff(r), 0.5 * (w * w * e));
    } else {
      EmptyBounded(Scale(0.5, Diff(l)), (w * 0.5) * (w * 0.5) * e);
      EmptyBounded(Scale(0.5, Diff(r)), (w * 0.5) * (w * 0.5) * e);
    }
  }

  lemma EmptyBounded(p: seq<real>, m: real)
    requires p == []
    ensures Bounded(p, m)
  {
  }

  // ------------------------------------------------------------------ short intervals

  lemma {:induction false} Drift(p: seq<real>, m: real, i: nat)
    requires i < |p| && Bounded(Diff(p), m)
    ensures Abs(p[i] - p[0]) <= Times(i as real, m)
    decreases i
  {
    hide Times;
    TimesUnits(m);
    if i > 0 {
      Drift(p, m, i - 1);
      assert -m <= Diff(p)[i - 1] <= m;
      TimesSum(m, (i - 1) as real, 1.0);
    }
  }

  /** All entries closer to the first than it is to zero. */
  ghost predicate NearFirst(p: seq<real>) {
    forall i :: 0 <= i < |p| ==> Abs(p[i] - p[0]) < Abs(p[0])
  }

  lemma NearFirstSigns(p: seq<real>)
    requires NearFirst(p)
    ensures forall i :: 0 <= i < |p| ==> p[i] != 0.0 && (p[i] > 0.0) == (p[0] > 0.0)
  {
    forall i | 0 <= i < |p|
      ensures p[i] != 0.0 && (p[i] > 0.0) == (p[0] > 0.0)
    {
      assert Abs(p[i] - p[0]) < Abs(p[0]);
    }
  }

  lemma {:induction false} SameSigns(b: seq<real>, positive: bool)
    requires forall i :: 0 <= i < |b| ==> b[i] != 0.0 && (b[i] > 0.0) == positive
    ensures Variations(b) == 0
    ensures |Signs(b)| == |b| && forall i :: 0 <= i < |b| ==> Signs(b)[i] == positive
  {
    if b != [] {
      SameSigns(b[1..], positive);
      assert Signs(b)[1..] == Signs(b[1..]);
    }
  }

  lemma {:induction false} IncreasingFromNonnegative(b: seq<real>)
    requires |b| >= 1 && b[0] >= 0.0 && forall i :: 0 <= i < |b| - 1 ==> Diff(b)[i] > 0.0
    ensures Variations(b) == 0
  {
    forall i | 0 <= i < |b|
      ensures b[i] >= b[0] && (i > 0 ==> b[i] > 0.0)
    {
      IncreasingAbove(b, i);
    }
    if b[0] > 0.0 {
      SameSigns(b, true);
    } else {
      SameSigns(b[1..], true);
    }
  }

  lemma {:induction false} IncreasingAbove(b: seq<real>, i: nat)
    requires i < |b| && forall i :: 0 <= i < |b| - 1 ==> Diff(b)[i] > 0.0
    ensures b[i] >= b[0] && (i > 0 ==> b[i] > b[0])
    decreases i
  {
    if i > 0 {
      IncreasingAbove(b, i - 1);
      assert Diff(b)[i - 1] > 0.0;
    }
  }

  /** Increasing coefficients: no variation, or one between nonzero ends. */
  lemma {:induction false} IncreasingDecided(b: seq<real>)
    requires |b| >= 1 && forall i :: 0 <= i < |b| - 1 ==> Diff(b)[i] > 0.0
    ensures Variations(b) == 0 || (Variations(b) == 1 && b[0] < 0.0 < b[|b| - 1])
    ensures b[0] < 0.0 ==> Signs(b) != [] && !Signs(b)[0]
    decreases |b|
  {
    if b[0] >= 0.0 {
      IncreasingFromNonnegative(b);
    } else if |b| == 1 {
      SignsOne(b[0]);
      assert b == [b[0]];
    } else {
      var c := b[1..];
      assert Diff(c) == Diff(b)[1..];
      IncreasingDecided(c);
      var t := Signs(c);
      assert Signs(b) == [false] + t;
      ChangesConcat([false], t);
      if c[0] >= 0.0 {
        IncreasingFromNonnegative(c);
        IncreasingAbove(c, |c| - 1);
        if c[|c| - 1] == 0.0 {
          assert c == [c[0]];
          SignsOne(c[0]);
        }
      }
    }
  }

  /** Strictly monotone coefficients: no variation, or one between nonzero ends. */
  lemma MonotoneDecided(b: seq<real>)
    requires |b| >= 2 && NearFirst(Diff(b))
    ensures Variations(b) == 0 || (Variations(b) == 1 && b[0] != 0.0 && b[|b| - 1] != 0.0)
  {
    NearFirstSigns(Diff(b));
    if Diff(b)[0] > 0.0 {
      IncreasingDecided(b);
    } else {
      var m := Scale(-1.0, b);
      NegatedSigns(b);
      NegatedChanges(Signs(b), Signs(m));
      hide Signs, Changes;
      DiffScale(-1.0, b);
      forall i | 0 <= i < |b| - 1
        ensures Diff(m)[i] > 0.0
      {
        ScaleAt(-1.0, Diff(b), i);
        TimesUnits(Diff(b)[i]);
        assert Diff(b)[i] < 0.0;
      }
      ScaleAt(-1.0, b, 0);
      ScaleAt(-1.0, b, |b| - 1);
      TimesUnits(b[0]);
      TimesUnits(b[|b| - 1]);
      IncreasingDecided(m);
    }
  }

  /** Bezout at a point: the value or the derivative is not small. */
  lemma ValueOrDerivative(f: Poly, s: Poly, t: Poly, a: real)
    requires Add(Mul(s, f), Mul(t, Der(f))) == ONE && 0.0 <= a <= 1.0
    ensures 2.0 * AbsSum(s) * Abs(Eval(f, a)) >= 1.0 || 2.0 * AbsSum(t) * Abs(DEval(f, a)) >= 1.0
  {
    hide Eval, Mul, Add, Der, DEval, AbsSum;
    EvalMul(s, f, a);
    EvalMul(t, Der(f), a);
    EvalDer(f, a);
    EvalAdd(Mul(s, f), Mul(t, Der(f)), a);
    EvalUnits(a);
    EvalBounded(s, a);
    EvalBounded(t, a);
    OneOfTwo(Eval(s, a), Eval(f, a), Eval(t, a), DEval(f, a), AbsSum(s), AbsSum(t));
  }

  lemma OneOfTwo(s: real, f: real, t: real, d: real, sm: real, tm: real)
    requires Times(s, f) + Times(t, d) == 1.0 && Abs(s) <= sm && Abs(t) <= tm
    ensures 2.0 * sm * Abs(f) >= 1.0 || 2.0 * tm * Abs(d) >= 1.0
  {
    hide Times;
    AbsTimes(s, f);
    AbsTimes(t, d);
    AbsMonotone(Abs(s), sm, Abs(f));
    AbsMonotone(Abs(t), tm, Abs(d));
  }

  lemma AbsMonotone(x: real, y: real, z: real)
    requires x <= y && z >= 0.0
    ensures 2.0 * Times(x, z) <= 2.0 * y * z
  {
  }

  /** Large enough: intervals of width below 1 / k are decided. */
  ghost predicate DecidesBelow(k: real, n: nat, sm: real, tm: real, d: real, e: real) {
    k > 0.0 && 2.0 * sm * (n as real * d) <= k && 2.0 * tm * (n as real * n as real * e) <= k
  }

  lemma TwiceTimes(x: real, y: real)
    ensures 2.0 * x * y == 2.0 * Times(x, y)
  {
  }

  lemma PlainTimes(x: real, y: real)
    ensures x * y == Times(x, y)
  {
  }

  lemma Dominates(w: real, k: real, sm: real, x: real, q: real, v: real, drift: real)
    requires w > 0.0 && w * k < 1.0 && sm >= 0.0 && drift <= q
    requires 2.0 * sm * x <= k && q == w * x && 2.0 * sm * v >= 1.0
    ensures drift < v
  {
    hide Times;
    PlainTimes(w, k);
    PlainTimes(w, x);
    TwiceTimes(sm, x);
    TwiceTimes(sm, v);
    var t := Times(sm, x);
    TimesSign(w, k - 2.0 * t);
    TimesDifference(w, k, 2.0 * t);
    TimesSum(w, t, t);
    TimesAssociates(sm, w, x);
    TimesSign(sm, q - v);
    TimesDifference(sm, q, v);
  }

  lemma FewSteps(i: real, n: real, m: real)
    requires i <= n && m >= 0.0
    ensures Times(i, m) <= n * m
  {
    assert (n - i) * m >= 0.0;
  }

  lemma Regrouped(w: real, n: real, d: real)
    ensures n * (w * d) == w * (n * d)
    ensures n * (n * (w * w * d)) == w * (w * (n * n * d))
  {
  }

  lemma ValueDominates(w: real, k: real, sm: real, v: real, n: real, i: real, d: real, drift: real)
    requires w > 0.0 && w * k < 1.0 && sm >= 0.0 && d >= 0.0 && i <= n
    requires 2.0 * sm * (n * d) <= k && 2.0 * sm * v >= 1.0 && drift <= Times(i, w * d)
    ensures drift < v
  {
    var m := w * d;
    assert m >= 0.0;
    FewSteps(i, n, m);
    Regrouped(w, n, d);
    var x := n * d;
    Dominates(w, k, sm, x, w * x, v, drift);
  }

  lemma SlopeDominates(w: real, k: real, tm: real, v: real, n: real, i: real, e: real, drift: real, d0: real)
    requires w > 0.0 && w * k < 1.0 && tm >= 0.0 && e >= 0.0 && i <= n
    requires 2.0 * tm * (n * n * e) <= k && 2.0 * tm * v >= 1.0 && drift <= Times(i, w * w * e)
    requires Times(n, d0) == Times(w, v) && d0 >= 0.0 && n > 0.0
    ensures drift < d0
  {
    var m := w * w * e;
    assert m >= 0.0;
    FewSteps(i, n, m);
    var x := n * n * e;
    var q := w * x;
    Dominates(w, k, tm, x, q, v, q);
    SlopeCompare(w, n, e, v, drift, d0, q);
  }

  lemma SlopeCompare(w: real, n: real, e: real, v: real, drift: real, d0: real, q: real)
    requires w > 0.0 && n > 0.0 && drift <= n * (w * w * e) && q == w * (n * n * e) && q < v
    requires Times(n, d0) == Times(w, v)
    ensures drift < d0
  {
    var m := n * (w * w * e);
    Regrouped(w, n, e);
    assert n * m == w * q;
    assert n * (m - drift) >= 0.0;
    assert w * (v - q) > 0.0;
    assert n * (d0 - drift) > 0.0;
  }

  lemma DecidedByValue(b: seq<real>, w: real, k: real, sm: real, d: real, e: real)
    requires |b| >= 2 && w > 0.0 && w * k < 1.0 && sm >= 0.0 && d >= 0.0 && SmallSteps(b, w, d, e)
    requires 2.0 * sm * ((|b| - 1) as real * d) <= k && 2.0 * sm * Abs(b[0]) >= 1.0
    ensures Variations(b) == 0
  {
    hide Variations, Times, Diff;
    forall i | 0 <= i < |b|
      ensures Abs(b[i] - b[0]) < Abs(b[0])
    {
      Drift(b, w * d, i);
      ValueDominates(w, k, sm, Abs(b[0]), (|b| - 1) as real, i as real, d, Abs(b[i] - b[0]));
    }
    NearFirstSigns(b);
    SameSigns(b, b[0] > 0.0);
  }

  lemma DecidedBySlope(b: seq<real>, w: real, k: real, tm: real, d: real, e: real, slope: real)
    requires |b| >= 2 && w > 0.0 && w * k < 1.0 && tm >= 0.0 && e >= 0.0 && SmallSteps(b, w, d, e)
    requires 2.0 * tm * ((|b| - 1) as real * (|b| - 1) as real * e) <= k && 2.0 * tm * Abs(slope) >= 1.0
    requires Times((|b| - 1) as real, b[1] - b[0]) == Times(w, slope)
    ensures Variations(b) == 0 || (Variations(b) == 1 && b[0] != 0.0 && b[|b| - 1] != 0.0)
  {
    hide Variations, Times, Diff;
    var n := (|b| - 1) as real;
    var p := Diff(b);
    AbsTimes(n, p[0]);
    AbsTimes(w, slope);
    forall i | 0 <= i < |p|
      ensures Abs(p[i] - p[0]) < Abs(p[0])
    {
      Drift(p, w * w * e, i);
      SlopeDominates(w, k, tm, Abs(slope), n, i as real, e, Abs(p[i] - p[0]), Abs(p[0]));
    }
    MonotoneDecided(b);
  }

  /** A cell narrower than 1 / k is decided. */
  lemma ShortIntervalDecided(f: Poly, s: Poly, t: Poly, a: real, w: real, b: seq<real>, d: real, e: real, k: real)
    requires Add(Mul(s, f), Mul(t, Der(f))) == ONE && 0.0 <= a <= 1.0 && 0.0 < w
    requires |b| >= 2 && OnInterval(f, a, w, b) && SmallSteps(b, w, d, e) && d >= 0.0 && e >= 0.0
    requires DecidesBelow(k, |b| - 1, AbsSum(s), AbsSum(t), d, e) && w * k < 1.0
    ensures Variations(b) == 0 || (Variations(b) == 1 && b[0] != 0.0 && b[|b| - 1] != 0.0)
  {
    hide Eval, DEval, Mul, Add, Der, AbsSum, OnInterval, SmallSteps, Variations, Times;
    ValueOrDerivative(f, s, t, a);
    EndValues(f, a, w, b);
    EndDerivative(f, a, w, b);
    if 2.0 * AbsSum(s) * Abs(Eval(f, a)) >= 1.0 {
      DecidedByValue(b, w, k, AbsSum(s), d, e);
    } else {
      DecidedBySlope(b, w, k, AbsSum(t), d, e, DEval(f, a));
    }
  }

  // ------------------------------------------------------------------ the bound

  /** A square-free polynomial and its derivative are coprime, so Bezout holds with 1. */
  lemma SquareFreeBezout(f: Poly) returns (s: Poly, t: Poly)
    requires Deg(f) >= 1 && SquareFree(f)
    ensures Add(Mul(s, f), Mul(t, Der(f))) == ONE
  {
    hide Mul, Add, Der, Divides;
    var g := GcdExists(f, Der(f));
    if Deg(g) >= 1 {
      var p := IrreducibleDivisor(g);
      DividesTransitive(p, g, f);
      DividesTransitive(p, g, Der(f));
      RepeatedIrreducible(f, p);
    }
    assert g == ONE;
    var s': Poly, t': Poly :| Add(Mul(s', f), Mul(t', Der(f))) == g;
    s, t := s', t';
  }

  /** An irreducible common divisor of f and f' divides f twice. */
  lemma RepeatedIrreducible(f: Poly, p: Poly)
    requires Irreducible(p) && !IsZero(f) && Divides(p, f) && Divides(p, Der(f))
    ensures Divides(Mul(p, p), f)
  {
    hide Mul, Add, Der;
    var q: Poly :| Mul(q, p) == f;
    DerMul(q, p);
    DividesItself(p);
    DividesMultiple(p, p, Der(q));
    DividesOther(p, Mul(Der(q), p), Mul(q, Der(p)));
    assert Divides(p, q) by {
      if !Divides(p, q) {
        PrimeDivides(p, q, Der(p));
        DerDegree(p);
        DivisorDegree(p, Der(p));
      }
    }
    DividesProducts(p, q, p);
  }

  lemma BoundExists(n: nat, sm: real, tm: real, d: real, e: real) returns (k: real)
    requires sm >= 0.0 && tm >= 0.0 && d >= 0.0 && e >= 0.0
    ensures DecidesBelow(k, n, sm, tm, d, e)
  {
    var x, y := 2.0 * sm * (n as real * d), 2.0 * tm * (n as real * n as real * e);
    k := Abs(x) + Abs(y) + 1.0;
  }
}

/** Sign variations of Bernstein coefficients: subdivision does not create any, none means no root inside,
    one means at most one root inside. */
module SignVariations {
  import opened Reals
  import opened Polynomials
  import opened Bernstein

  /** Whether each nonzero entry is positive. */
  function Signs(b: seq<real>): seq<bool> {
    if b == [] then [] else if b[0] == 0.0 then Signs(b[1..]) else [b[0] > 0.0] + Signs(b[1..])
  }

  /** Neighbours that differ. */
  function Changes(s: seq<bool>): nat {
    if |s| < 2 then 0 else (if s[0] != s[1] then 1 else 0) + Changes(s[1..])
  }

  /** `variations` */
  function Variations(b: seq<real>): nat {
    Changes(Signs(b))
  }

  lemma {:induction false} SignsConcat(p: seq<real>, q: seq<real>)
    ensures Signs(p + q) == Signs(p) + Signs(q)
  {
    if p == [] {
      assert p + q == q;
    } else {
      assert (p + q)[1..] == p[1..] + q;
      SignsConcat(p[1..], q);
    }
  }

  /** Changes of a concatenation: those of the parts and the joint. */
  lemma {:induction false} ChangesConcat(s: seq<bool>, t: seq<bool>)
    ensures Changes(s + t)
         == Changes(s) + Changes(t) + (if s != [] && t != [] && s[|s| - 1] != t[0] then 1 else 0)
  {
    if s == [] {
      assert s + t == t;
    } else if t == [] {
      assert s + t == s;
    } else if |s| == 1 {
      assert (s + t)[1..] == t;
    } else {
      assert (s + t)[1..] == s[1..] + t;
      ChangesConcat(s[1..], t);
    }
  }

  lemma SignsOne(x: real)
    ensures Signs([x]) == if x == 0.0 then [] else [x > 0.0]
  {
    assert [x][1..] == [];
  }

  /** Removing an entry never adds a variation. */
  lemma RemoveEntry(p: seq<real>, x: real, q: seq<real>)
    ensures Variations(p + q) <= Variations(p + [x] + q)
  {
    hide Changes, Signs;
    SignsConcat(p, q);
    SignsConcat(p + [x], q);
    SignsConcat(p, [x]);
    SignsOne(x);
    var s, m, t := Signs(p), Signs([x]), Signs(q);
    ChangesConcat(s, t);
    ChangesConcat(s + m, t);
    ChangesConcat(s, m);
    if x == 0.0 {
      assert s + m == s;
    } else {
      ChangesOne(m);
    }
  }

  lemma ChangesOne(s: seq<bool>)
    requires |s| <= 1
    ensures Changes(s) == 0
  {
  }

  lemma BlendSign(u: real, a: real, c: real)
    requires 0.0 <= u <= 1.0
    ensures Blend(u, a, c) > 0.0 ==> a > 0.0 || c > 0.0
    ensures Blend(u, a, c) < 0.0 ==> a < 0.0 || c < 0.0
  {
    hide Times;
    TimesSign(1.0 - u, a);
    TimesSign(u, c);
  }

  /** Inserting a blend between its two ends changes nothing. */
  lemma InsertBlend(u: real, p: seq<real>, a: real, c: real, q: seq<real>)
    requires 0.0 <= u <= 1.0
    ensures Variations(p + [a, Blend(u, a, c), c] + q) == Variations(p + [a, c] + q)
  {
    hide Changes, Signs, Blend;
    var x := Blend(u, a, c);
    BlendSign(u, a, c);
    assert p + [a, x, c] + q == p + ([a] + [x] + [c]) + q;
    assert p + [a, c] + q == p + ([a] + [c]) + q;
    SignsConcat(p + ([a] + [x] + [c]), q);
    SignsConcat(p, [a] + [x] + [c]);
    SignsConcat([a] + [x], [c]);
    SignsConcat([a], [x]);
    SignsConcat(p + ([a] + [c]), q);
    SignsConcat(p, [a] + [c]);
    SignsConcat([a], [c]);
    SignsOne(a);
    SignsOne(x);
    SignsOne(c);
    SameJoints(Signs(p), Signs([a] + [x] + [c]), Signs([a] + [c]), Signs(q));
  }

  /** A middle part with the same ends and changes may be exchanged: [s], [s, s], [s, t, t] for [s], [s, t]. */
  lemma SameJoints(s: seq<bool>, m: seq<bool>, n: seq<bool>, t: seq<bool>)
    requires |m| <= 3 && |n| <= 2 && (m == [] <==> n == [])
    requires m != [] ==> m[0] == n[0] && m[|m| - 1] == n[|n| - 1]
    requires |m| == 3 ==> m[1] == m[0] || m[1] == m[2]
    ensures Changes(s + m + t) == Changes(s + n + t)
  {
    SmallChanges(m);
    SmallChanges(n);
    hide Changes;
    ChangesConcat(s + m, t);
    ChangesConcat(s, m);
    ChangesConcat(s + n, t);
    ChangesConcat(s, n);
    if m == [] {
      assert s + m == s && s + n == s;
    }
  }

  lemma SmallChanges(m: seq<bool>)
    requires |m| <= 3 && (|m| == 3 ==> m[1] == m[0] || m[1] == m[2])
    ensures Changes(m) == if m != [] && m[0] != m[|m| - 1] then 1 else 0
  {
    if |m| == 3 {
      assert m[1..][1..] == [m[2]];
    }
  }

  // ------------------------------------------------------------------ variation diminishing

  /** One row of de Casteljau's scheme between the ends of the row before. */
  lemma {:induction false} RowDiminishes(u: real, p: seq<real>, b: seq<real>, q: seq<real>)
    requires 0.0 <= u <= 1.0 && |b| >= 2
    ensures Variations(p + ([b[0]] + Row(u, b) + [b[|b| - 1]]) + q) <= Variations(p + b + q)
    decreases |b|
  {
    hide Variations, Blend, Blends;
    var n := |b| - 1;
    var x := Row(u, b)[0];
    BlendsAt(u, b[..n], b[1..], 0);
    assert x == Blend(u, b[0], b[1]);
    if n == 1 {
      assert [b[0]] + Row(u, b) + [b[1]] == [b[0], x, b[1]] && b == [b[0], b[1]];
      InsertBlend(u, p, b[0], b[1], q);
    } else {
      var c := b[1..];
      RowSlices(u, b);
      var r := Row(u, c);
      assert Row(u, b) == [x] + r;
      hide Row;
      RowDiminishes(u, p + [b[0], x], c, q);
      RemoveEntry(p + [b[0], x], b[1], r + [b[n]] + q);
      assert p + ([b[0]] + Row(u, b) + [b[n]]) + q == (p + [b[0], x]) + (r + [b[n]] + q);
      assert (p + [b[0], x]) + ([c[0]] + r + [c[|c| - 1]]) + q == (p + [b[0], x]) + [b[1]] + (r + [b[n]] + q);
      var d := c[1..] + q;
      assert (p + [b[0], x]) + c + q == p + [b[0], x, b[1]] + d;
      assert p + b + q == p + [b[0], b[1]] + d;
      InsertBlend(u, p, b[0], b[1], d);
    }
  }

  /** The two edges, their common entry once. */
  ghost function Edges(u: real, b: seq<real>): seq<real>
    requires |b| >= 1
  {
    Left(u, b) + Right(u, b)[1..]
  }

  lemma EdgesUnfold(u: real, b: seq<real>)
    requires |b| >= 2
    ensures Edges(u, b) == [b[0]] + Edges(u, Row(u, b)) + [b[|b| - 1]]
  {
    hide Row;
    var r := Row(u, b);
    assert Right(u, b)[1..] == Right(u, r)[1..] + [b[|b| - 1]];
  }

  lemma Regroup(p: seq<real>, x: real, m: seq<real>, y: real, q: seq<real>)
    ensures p + ([x] + m + [y]) + q == (p + [x]) + m + ([y] + q)
  {
  }

  lemma {:induction false} EdgesDiminish(u: real, p: seq<real>, b: seq<real>, q: seq<real>)
    requires 0.0 <= u <= 1.0 && |b| >= 1
    ensures Variations(p + Edges(u, b) + q) <= Variations(p + b + q)
    decreases |b|
  {
    if |b| == 1 {
      assert Edges(u, b) == b;
    } else {
      hide *;
      var r := Row(u, b);
      var n := |b| - 1;
      EdgesUnfold(u, b);
      EdgesDiminish(u, p + [b[0]], r, [b[n]] + q);
      Regroup(p, b[0], Edges(u, r), b[n], q);
      Regroup(p, b[0], r, b[n], q);
      RowDiminishes(u, p, b, q);
    }
  }

  lemma JoinedVariations(p: seq<real>, q: seq<real>)
    requires |p| >= 1 && |q| >= 1 && p[|p| - 1] == q[0]
    ensures Variations(p) + Variations(q) <= Variations(p + q[1..])
  {
    hide Changes, Signs;
    var m, n := |p| - 1, q[1..];
    assert p == p[..m] + [p[m]] && q == [q[0]] + n;
    SignsConcat(p[..m], [p[m]]);
    SignsConcat([q[0]], n);
    SignsConcat(p, n);
    SignsOne(q[0]);
    ChangesConcat(Signs(p), Signs(n));
    ChangesConcat(Signs([q[0]]), Signs(n));
    ChangesOne(Signs([q[0]]));
    if q[0] == 0.0 {
      assert Signs(q) == Signs(n);
    }
  }

  /** Variation diminishing: the two parts together have no more variations than the whole. */
  lemma SubdivisionDiminishes(u: real, b: seq<real>)
    requires 0.0 <= u <= 1.0 && |b| >= 1
    ensures Variations(Left(u, b)) + Variations(Right(u, b)) <= Variations(b)
  {
    EdgesMeet(u, b);
    JoinedVariations(Left(u, b), Right(u, b));
    EdgesDiminish(u, [], b, []);
    assert [] + Edges(u, b) + [] == Edges(u, b) && [] + b + [] == b;
  }

  // ------------------------------------------------------------------ no variation, no root

  ghost predicate AllNonnegative(b: seq<real>) {
    forall i :: 0 <= i < |b| ==> b[i] >= 0.0
  }

  lemma {:induction false} NonnegativeValue(b: seq<real>, t: real)
    requires |b| >= 1 && 0.0 <= t <= 1.0 && AllNonnegative(b)
    ensures BEval(b, t) >= 0.0
    decreases |b|
  {
    if |b| >= 2 {
      hide Times;
      var n := |b| - 1;
      NonnegativeValue(b[..n], t);
      NonnegativeValue(b[1..], t);
      TimesSign(1.0 - t, BEval(b[..n], t));
      TimesSign(t, BEval(b[1..], t));
    }
  }

  lemma {:induction false} PositiveValue(b: seq<real>, t: real, i: nat)
    requires i < |b| && 0.0 < t < 1.0 && AllNonnegative(b) && b[i] > 0.0
    ensures BEval(b, t) > 0.0
    decreases |b|
  {
    if |b| >= 2 {
      hide Times;
      var n := |b| - 1;
      NonnegativeValue(b[..n], t);
      NonnegativeValue(b[1..], t);
      if i < n {
        PositiveValue(b[..n], t, i);
      } else {
        PositiveValue(b[1..], t, i - 1);
      }
      TimesSign(1.0 - t, BEval(b[..n], t));
      TimesSign(t, BEval(b[1..], t));
    }
  }

  lemma {:induction false} BEvalScale(k: real, b: seq<real>, t: real)
    requires |b| >= 1
    ensures BEval(Scale(k, b), t) == Times(k, BEval(b, t))
    decreases |b|
  {
    hide Times;
    if |b| >= 2 {
      var n := |b| - 1;
      assert Scale(k, b)[1..] == Scale(k, b[1..]);
      ScalePrefix(k, b, n);
      BEvalScale(k, b[..n], t);
      BEvalScale(k, b[1..], t);
      TimesAssociates(1.0 - t, k, BEval(b[..n], t));
      TimesAssociates(t, k, BEval(b[1..], t));
      TimesSum(k, Times(1.0 - t, BEval(b[..n], t)), Times(t, BEval(b[1..], t)));
    }
  }

  lemma ScalePrefix(k: real, b: seq<real>, n: nat)
    requires n <= |b|
    ensures Scale(k, b)[..n] == Scale(k, b[..n])
  {
    hide Times;
    forall i | 0 <= i < n
      ensures Scale(k, b)[i] == Scale(k, b[..n])[i]
    {
      ScaleAt(k, b, i);
      ScaleAt(k, b[..n], i);
    }
  }

  /** Without changes all nonzero entries have the first one's sign. */
  lemma {:induction false} NoChange(b: seq<real>, positive: bool)
    requires Signs(b) != [] && Changes(Signs(b)) == 0 && Signs(b)[0] == positive
    ensures forall i :: 0 <= i < |b| ==> b[i] == 0.0 || (b[i] > 0.0) == positive
  {
    if b[0] == 0.0 {
      NoChange(b[1..], positive);
    } else {
      var t := Signs(b[1..]);
      assert Signs(b)[1..] == t;
      if t == [] {
        NoSigns(b[1..]);
      } else {
        assert t[0] == Signs(b)[1];
        NoChange(b[1..], positive);
      }
    }
  }

  lemma {:induction false} NoSigns(b: seq<real>)
    requires Signs(b) == []
    ensures forall i :: 0 <= i < |b| ==> b[i] == 0.0
  {
    if b != [] {
      NoSigns(b[1..]);
    }
  }

  lemma {:induction false} SomeSign(b: seq<real>, i: nat)
    requires i < |b| && b[i] != 0.0
    ensures Signs(b) != []
  {
    if b[0] == 0.0 {
      SomeSign(b[1..], i - 1);
    }
  }

  /** No variation and some nonzero coefficient: no root strictly inside. */
  lemma NoVariationNoRoot(b: seq<real>, i: nat, t: real)
    requires i < |b| && b[i] != 0.0 && Variations(b) == 0 && 0.0 < t < 1.0
    ensures BEval(b, t) != 0.0
  {
    SomeSign(b, i);
    NoChange(b, Signs(b)[0]);
    hide Signs, Changes;
    if b[i] > 0.0 {
      PositiveValue(b, t, i);
    } else {
      var m := Scale(-1.0, b);
      forall j | 0 <= j < |b|
        ensures m[j] == -b[j]
      {
        ScaleAt(-1.0, b, j);
        TimesUnits(b[j]);
      }
      PositiveValue(m, t, i);
      BEvalScale(-1.0, b, t);
      TimesUnits(BEval(b, t));
    }
  }

  // ------------------------------------------------------------------ one variation, one root

  /** The binomials times the coefficients: power coefficients in t / (1 - t). */
  function Scaled(b: seq<real>): (w: seq<real>)
    ensures |w| == |b|
  {
    seq(|b|, i requires 0 <= i < |b| => Times(Choose(|b| - 1, i) as real, b[i]))
  }

  lemma ScaledSplits(b: seq<real>)
    requires |b| >= 2
    ensures Scaled(b) == RawAdd(Scaled(b[..|b| - 1]), [0.0] + Scaled(b[1..]))
  {
    hide Times;
    var n := |b| - 1;
    var p, q := Scaled(b[..n]), [0.0] + Scaled(b[1..]);
    forall i | 0 <= i <= n
      ensures Scaled(b)[i] == RawAdd(p, q)[i]
    {
      RawAddAt(p, q, i);
      if i > 0 {
        PowerStep(n, i, b[i]);
        assert q[i] == Times(Choose(n - 1, i - 1) as real, b[i]);
        if i == n {
          ChooseBounds(n - 1, n);
          TimesUnits(b[n]);
        }
      }
    }
  }

  lemma ScaledArithmetic(s: real, t: real, x: real, r: real, u: real, v: real)
    requires t == Times(s, x)
    ensures Times(s, Times(r, u)) + Times(t, Times(r, v)) == Times(Times(s, r), u + Times(x, v))
  {
  }

  /** The value at t, in x = t / (1 - t). */
  lemma {:induction false} BEvalScaled(b: seq<real>, t: real, x: real)
    requires |b| >= 1 && t == Times(1.0 - t, x)
    ensures BEval(b, t) == Times(Power(1.0 - t, |b| - 1), Eval(Scaled(b), x))
    decreases |b|
  {
    hide Times, Eval;
    if |b| == 1 {
      assert Choose(0, 0) == 1;
      TimesUnits(b[0]);
      assert Scaled(b) == [b[0]] + [];
      EvalCons(b[0], [], x);
      EvalZeros(0, x);
      assert Zeros(0) == [];
      TimesUnits(x);
    } else {
      hide Scaled, RawAdd;
      var n := |b| - 1;
      BEvalScaled(b[..n], t, x);
      BEvalScaled(b[1..], t, x);
      ScaledSplits(b);
      EvalRawAdd(Scaled(b[..n]), [0.0] + Scaled(b[1..]), x);
      EvalCons(0.0, Scaled(b[1..]), x);
      ScaledArithmetic(1.0 - t, t, x, Power(1.0 - t, n - 1), Eval(Scaled(b[..n]), x), Eval(Scaled(b[1..]), x));
    }
  }

  lemma {:induction false} PowerPositive(x: real, n: nat)
    requires x > 0.0
    ensures Power(x, n) > 0.0
  {
    hide Times;
    if n > 0 {
      PowerPositive(x, n - 1);
      TimesSign(x, Power(x, n - 1));
    }
  }

  lemma {:induction false} PowerMonotone(x: real, y: real, n: nat)
    requires 0.0 < x < y
    ensures Power(x, n) <= Power(y, n)
    ensures n >= 1 ==> Power(x, n) < Power(y, n)
  {
    hide Times;
    if n > 0 {
      PowerMonotone(x, y, n - 1);
      PowerPositive(x, n - 1);
      PowerPositive(y, n - 1);
      ProductMonotone(x, y, Power(x, n - 1), Power(y, n - 1));
    }
  }

  lemma ProductMonotone(x: real, y: real, p: real, q: real)
    requires 0.0 < x < y && 0.0 < p <= q
    ensures Times(x, p) < Times(y, q)
  {
    assert x * p < y * p;
    assert y * p <= y * q;
  }

  /** The entries before j are not negative, those from j on not positive. */
  ghost predicate TurnsAt(w: seq<real>, j: nat) {
    forall i :: 0 <= i < |w| ==> (i < j ==> w[i] >= 0.0) && (i >= j ==> w[i] <= 0.0)
  }

  lemma TurnStep(x: real, y: real, a: real, qx: real, qy: real, xj: real, yj: real)
    requires 0.0 < x < y && a >= 0.0 && 0.0 < xj <= yj
    requires Times(qy, xj) <= Times(qx, yj)
    ensures Times(a + Times(y, qy), Times(x, xj)) <= Times(a +
      Times(x, qx), Times(y, yj)) - Times(a, Times(y, yj) - Times(x, xj))
  {
    hide Times;
    var px, py := Times(x, xj), Times(y, yj);
    TimesSum(px, a, Times(y, qy));
    TimesSum(py, a, Times(x, qx));
    TimesDifference(a, py, px);
    CrossProducts(x, y, qy, xj);
    CrossProducts(y, x, qx, yj);
    TimesCommutes(x, y);
    TimesDifference(Times(x, y), Times(qx, yj), Times(qy, xj));
    TimesSign(x, y);
    TimesSign(Times(x, y), Times(qx, yj) - Times(qy, xj));
  }

  lemma CrossProducts(x: real, y: real, q: real, p: real)
    ensures Times(Times(y, q), Times(x, p)) == Times(Times(x, y), Times(q, p))
  {
  }

  /** Below the turn the polynomial divided by x^j decreases. */
  lemma {:induction false} Decreasing(w: seq<real>, j: nat, x: real, y: real)
    requires 0.0 < x < y && TurnsAt(w, j)
    ensures Times(Eval(w, y), Power(x, j)) <= Times(Eval(w, x), Power(y, j))
    decreases |w|
  {
    hide Times;
    PowerPositive(x, j);
    PowerPositive(y, j);
    if w == [] {
      TimesUnits(Power(x, j));
      TimesUnits(Power(y, j));
    } else if j == 0 {
      NonpositiveDecreasing(w[1..], x, y);
      TimesUnits(Eval(w, x));
      TimesUnits(Eval(w, y));
    } else {
      Decreasing(w[1..], j - 1, x, y);
      PowerPositive(x, j - 1);
      PowerMonotone(x, y, j - 1);
      PowerMonotone(x, y, j);
      TurnStep(x, y, w[0], Eval(w[1..], x), Eval(w[1..], y), Power(x, j - 1), Power(y, j - 1));
      TimesSign(w[0], Power(y, j) - Power(x, j));
    }
  }

  lemma NonpositiveStep(x: real, y: real, p: real, q: real)
    requires 0.0 < x < y && q <= p <= 0.0
    ensures Times(y, q) <= Times(x, p) <= 0.0
  {
    assert y * q <= x * q <= x * p;
  }

  lemma {:induction false} NonpositiveDecreasing(w: seq<real>, x: real, y: real)
    requires 0.0 < x < y && forall i :: 0 <= i < |w| ==> w[i] <= 0.0
    ensures Times(y, Eval(w, y)) <= Times(x, Eval(w, x)) <= 0.0
    ensures Eval(w, y) <= Eval(w, x) <= 0.0
  {
    hide Times;
    if w == [] {
      TimesUnits(x);
      TimesUnits(y);
    } else {
      NonpositiveDecreasing(w[1..], x, y);
      NonpositiveStep(x, y, Eval(w, x), Eval(w, y));
    }
  }

  lemma StrictArithmetic(x: real, y: real, a: real, qx: real, qy: real, xj: real, yj: real)
    requires 0.0 < x < y && a > 0.0 && 0.0 < xj <= yj
    requires Times(qy, xj) <= Times(qx, yj) && a + Times(x, qx) <= 0.0
    ensures a + Times(y, qy) < 0.0
  {
    hide Times;
    TurnStep(x, y, a, qx, qy, xj, yj);
    ProductMonotone(x, y, xj, yj);
    var px, py := Times(x, xj), Times(y, yj);
    TimesSign(x, xj);
    TimesSign(y, yj);
    TimesSign(a, py - px);
    TimesSign(py, a + Times(x, qx));
    TimesCommutes(py, a + Times(x, qx));
    TimesSign(px, a + Times(y, qy));
    TimesCommutes(px, a + Times(y, qy));
  }

  /** Once not positive, negative from there on. */
  lemma StaysNegative(w: seq<real>, j: nat, x: real, y: real)
    requires |w| >= 1 && w[0] > 0.0 && TurnsAt(w, j) && 0.0 < x < y && Eval(w, x) <= 0.0
    ensures Eval(w, y) < 0.0
  {
    hide Times;
    assert j >= 1;
    Decreasing(w[1..], j - 1, x, y);
    PowerPositive(x, j - 1);
    PowerMonotone(x, y, j - 1);
    StrictArithmetic(x, y, w[0], Eval(w[1..], x), Eval(w[1..], y), Power(x, j - 1), Power(y, j - 1));
  }

  /** One change: the place where the sign turns. */
  lemma {:induction false} OneChange(b: seq<real>) returns (j: nat)
    requires Signs(b) != [] && Changes(Signs(b)) == 1
    ensures j <= |b|
    ensures forall i :: 0 <= i < |b| ==> (b[i] == 0.0 || (b[i] > 0.0) == (Signs(b)[0] == (i < j)))
  {
    var t := Signs(b[1..]);
    if b[0] == 0.0 {
      var k := OneChange(b[1..]);
      j := k + 1;
    } else {
      assert Signs(b)[1..] == t && t[0] == Signs(b)[1];
      if t[0] != (b[0] > 0.0) {
        NoChange(b[1..], t[0]);
        j := 1;
      } else {
        var k := OneChange(b[1..]);
        j := k + 1;
      }
    }
  }

  lemma Inside(t: real) returns (x: real)
    requires 0.0 < t < 1.0
    ensures x > 0.0 && t == Times(1.0 - t, x)
  {
    x := t / (1.0 - t);
  }

  lemma InsideMonotone(s: real, t: real, x: real, y: real)
    requires 0.0 < s < t < 1.0 && s == Times(1.0 - s, x) && t == Times(1.0 - t, y) && x > 0.0 && y > 0.0
    ensures x < y
  {
    assert (1.0 - t) * y < (1.0 - s) * y;
    assert (1.0 - s) * (y - x) > 0.0;
  }

  /** One variation, a positive first coefficient: from the first point inside where the value is not positive
      it is negative. */
  lemma OneVariationDescends(b: seq<real>, s: real, t: real)
    requires |b| >= 1 && b[0] > 0.0 && Variations(b) == 1 && 0.0 < s < t < 1.0 && BEval(b, s) <= 0.0
    ensures BEval(b, t) < 0.0
  {
    assert Signs(b)[0];
    var j := OneChange(b);
    hide Signs, Changes, Times, BEval, Eval;
    var w := Scaled(b);
    forall i | 0 <= i < |b|
      ensures (i < j ==> w[i] >= 0.0) && (i >= j ==> w[i] <= 0.0)
    {
      ChooseBounds(|b| - 1, i);
      TimesSign(Choose(|b| - 1, i) as real, b[i]);
      TimesUnits(Choose(|b| - 1, i) as real);
    }
    assert Choose(|b| - 1, 0) == 1;
    TimesUnits(b[0]);
    hide Scaled;
    var x := Inside(s);
    var y := Inside(t);
    InsideMonotone(s, t, x, y);
    BEvalScaled(b, s, x);
    BEvalScaled(b, t, y);
    PowerPositive(1.0 - s, |b| - 1);
    PowerPositive(1.0 - t, |b| - 1);
    TimesSign(Power(1.0 - s, |b| - 1), Eval(w, x));
    StaysNegative(w, j, x, y);
    TimesSign(Power(1.0 - t, |b| - 1), Eval(w, y));
  }

  lemma {:induction false} NegatedSigns(b: seq<real>)
    ensures |Signs(Scale(-1.0, b))| == |Signs(b)|
    ensures forall i :: 0 <= i < |Signs(b)| ==> Signs(Scale(-1.0, b))[i] == !Signs(b)[i]
  {
    if b != [] {
      NegatedSigns(b[1..]);
      assert Scale(-1.0, b)[1..] == Scale(-1.0, b[1..]);
    }
  }

  lemma {:induction false} NegatedChanges(s: seq<bool>, t: seq<bool>)
    requires |s| == |t| && forall i :: 0 <= i < |s| ==> t[i] == !s[i]
    ensures Changes(s) == Changes(t)
  {
    if |s| >= 2 {
      NegatedChanges(s[1..], t[1..]);
    }
  }

  /** One variation, seen from either sign of the first coefficient. */
  lemma OneVariationTurns(b: seq<real>, s: real, t: real)
    requires |b| >= 1 && b[0] != 0.0 && Variations(b) == 1 && 0.0 < s < t < 1.0
    ensures b[0] > 0.0 && BEval(b, s) <= 0.0 ==> BEval(b, t) < 0.0
    ensures b[0] < 0.0 && BEval(b, s) >= 0.0 ==> BEval(b, t) > 0.0
  {
    if b[0] > 0.0 && BEval(b, s) <= 0.0 {
      OneVariationDescends(b, s, t);
    }
    if b[0] < 0.0 && BEval(b, s) >= 0.0 {
      var m := Scale(-1.0, b);
      NegatedSigns(b);
      NegatedChanges(Signs(b), Signs(m));
      hide Signs, Changes, BEval;
      ScaleAt(-1.0, b, 0);
      BEvalScale(-1.0, b, s);
      BEvalScale(-1.0, b, t);
      TimesUnits(b[0]);
      TimesUnits(BEval(b, s));
      TimesUnits(BEval(b, t));
      OneVariationDescends(m, s, t);
    }
  }

  /** One variation and nonzero ends: at most one root inside. */
  lemma OneVariationOneRoot(b: seq<real>, s: real, t: real)
    requires |b| >= 1 && b[0] != 0.0 && Variations(b) == 1 && 0.0 < s < t < 1.0
    ensures !(BEval(b, s) == 0.0 && BEval(b, t) == 0.0)
  {
    OneVariationTurns(b, s, t);
  }

  /** One variation and nonzero ends: the ends have opposite signs. */
  lemma OneVariationEnds(b: seq<real>)
    requires |b| >= 1 && b[0] != 0.0 && b[|b| - 1] != 0.0 && Variations(b) == 1
    ensures (b[0] > 0.0) != (b[|b| - 1] > 0.0)
  {
    var n := |b| - 1;
    assert Signs(b)[0] == (b[0] > 0.0);
    var first := [b[0]];
    SignsOne(b[0]);
    assert n == 0 ==> b == first;
    var s := Signs(b[..n]);
    assert b == b[..n] + [b[n]];
    SignsConcat(b[..n], [b[n]]);
    SignsOne(b[n]);
    EvenChanges(Signs(b));
  }

  /** Equal ends mean an even number of changes. */
  lemma {:induction false} EvenChanges(s: seq<bool>)
    requires |s| >= 1
    ensures (s[0] == s[|s| - 1]) == (Changes(s) % 2 == 0)
  {
    if |s| >= 2 {
      EvenChanges(s[1..]);
    }
  }
}

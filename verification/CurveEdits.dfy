/** Edits of rational spline curves as affine substitutions in power coefficients, their Bernstein controls,
    and the arcs a parameter interval is cut into. */
module CurveEdits {
  import opened Basics
  import opened Reals
  import opened Polynomials
  import opened Bernstein
  import opened SignVariations
  import opened AffineSubstitution
  import opened BernsteinProducts
  import opened CoxBasis

  // ------------------------------------------------------------------ the matrix form

  /** The matrix entry of `affine_matrix`: C(j, i) a^(j-i) b^i. */
  function Entry(j: nat, i: nat, a: real, b: real): real {
    if j >= i then Times(Choose(j, i) as real, Times(Power(a, j - i), Power(b, i))) else 0.0
  }

  /** The first m terms of row i applied to p. */
  function RowSum(p: seq<real>, a: real, b: real, i: nat, m: nat): real
    requires m <= |p|
  {
    if m == 0 then 0.0 else RowSum(p, a, b, i, m - 1) + Times(Entry(m - 1, i, a, b), p[m - 1])
  }

  lemma EntryArithmetic(p: real, q: real, a: real, b: real, x: real, y: real)
    ensures Times(p + q, Times(Times(a, x), Times(b, y)))
         == Times(a, Times(p, Times(x, Times(b, y)))) + Times(b, Times(q, Times(Times(a, x), y)))
  {
  }

  /** Pascal's rule for the entries. */
  lemma EntryStep(j: nat, i: nat, a: real, b: real)
    ensures Entry(j + 1, i, a, b) == Times(a, Entry(j, i, a, b)) + if i > 0 then Times(b, Entry(j, i - 1, a, b))
      else 0.0
  {
    if i == 0 {
      FirstColumn(j, a, b);
    } else if j >= i {
      var p, q := Choose(j, i) as real, Choose(j, i - 1) as real;
      assert Choose(j + 1, i) as real == p + q;
      hide Choose;
      PowerUnfold(a, j + 1 - i);
      PowerUnfold(b, i);
      EntryArithmetic(p, q, a, b, Power(a, j - i), Power(b, i - 1));
    } else if j + 1 == i {
      ChooseBounds(j, i);
      hide Choose;
      DiagonalEntry(i, a, b);
      DiagonalEntry(j, a, b);
      PowerUnfold(b, i);
      TimesUnits(a);
    } else {
      TimesUnits(a);
      TimesUnits(b);
    }
  }

  lemma PowerUnfold(x: real, n: nat)
    requires n >= 1
    ensures Power(x, n) == Times(x, Power(x, n - 1))
  {
  }

  lemma FirstColumn(j: nat, a: real, b: real)
    ensures Entry(j + 1, 0, a, b) == Times(a, Entry(j, 0, a, b))
  {
    hide Times;
    TimesUnits(Power(a, j));
    TimesUnits(Power(a, j + 1));
    assert Choose(j, 0) == 1 && Choose(j + 1, 0) == 1;
  }

  lemma DiagonalEntry(i: nat, a: real, b: real)
    ensures Entry(i, i, a, b) == Power(b, i)
  {
    hide Times;
    ChooseBounds(i, i);
    TimesUnits(Power(b, i));
  }

  lemma {:induction false} RowSumShift(p: seq<real>, a: real, b: real, i: nat, m: nat)
    requires m + 1 <= |p|
    ensures RowSum(p, a, b, i, m + 1) == (if i == 0 then p[0] else 0.0) + Times(a, RowSum(p[1..], a, b, i, m))
      + if i > 0 then Times(b, RowSum(p[1..], a, b, i - 1, m)) else 0.0
    decreases m
  {
    hide Times, Entry;
    if m == 0 {
      RowSumStart(p, a, b, i);
      TimesUnits(a);
      TimesUnits(b);
    } else {
      var x, q := p[m], p[1..];
      RowSumShift(p, a, b, i, m - 1);
      EntryStep(m - 1, i, a, b);
      var e := Entry(m - 1, i, a, b);
      TimesAssociates(a, e, x);
      TimesSum(a, RowSum(q, a, b, i, m - 1), Times(e, x));
      if i > 0 {
        var d := Entry(m - 1, i - 1, a, b);
        TimesSum(x, Times(a, e), Times(b, d));
        TimesAssociates(b, d, x);
        TimesSum(b, RowSum(q, a, b, i - 1, m - 1), Times(d, x));
      }
    }
  }

  lemma RowSumStart(p: seq<real>, a: real, b: real, i: nat)
    requires |p| >= 1
    ensures RowSum(p, a, b, i, 1) == if i == 0 then p[0] else 0.0
  {
    hide Times;
    assert RowSum(p, a, b, i, 0) == 0.0;
    TimesUnits(p[0]);
    TimesUnits(1.0);
    assert Choose(0, 0) == 1;
  }

  lemma ComposeAt(p: seq<real>, a: real, b: real, i: nat)
    requires |p| >= 2 && i < |p|
    ensures var c := Compose(p[1..], a, b);
      Compose(p, a, b)[i] == (if i == 0 then p[0] else 0.0)
        + (if i < |c| then Times(a, c[i]) else 0.0) + (if i > 0 then Times(b, c[i - 1]) else 0.0)
  {
    hide Times, RawAdd, Scale;
    var c := Compose(p[1..], a, b);
    var r := RawMul([a, b], c);
    assert Compose(p, a, b) == RawAdd([p[0]], r);
    RawAddAt([p[0]], r, i);
    LinearTimesList(a, b, c, i);
  }

  lemma LinearTimesList(a: real, b: real, c: seq<real>, i: nat)
    requires |c| >= 1 && i <= |c|
    ensures |RawMul([a, b], c)| == |c| + 1
    ensures RawMul([a, b], c)[i] == (if i < |c| then Times(a, c[i]) else 0.0) + if i > 0 then Times(b, c[i - 1])
      else 0.0
  {
    hide Times, RawAdd, Scale;
    var s := RawMul([b], c);
    assert [a, b][1..] == [b] && [b][1..] == [];
    var z := [0.0] + Zeros(|c| - 1);
    assert RawMul([], c) == Zeros(|c| - 1);
    assert [b][0] == b;
    assert s == RawAdd(Scale(b, c), z);
    var q := [0.0] + s;
    assert RawMul([a, b], c) == RawAdd(Scale(a, c), q);
    RawAddAt(Scale(a, c), q, i);
    if i < |c| {
      ScaleAt(a, c, i);
    }
    if i > 0 {
      RawAddAt(Scale(b, c), z, i - 1);
      ScaleAt(b, c, i - 1);
      assert q[i] == s[i - 1];
    }
  }

  /** The matrix rows applied to p are the coefficients of p(a + b t). */
  lemma {:induction false} MatrixIsSubstitution(p: seq<real>, a: real, b: real, i: nat)
    requires |p| >= 1 && i < |p|
    ensures RowSum(p, a, b, i, |p|) == Compose(p, a, b)[i]
    decreases |p|
  {
    hide Times, RowSum;
    if |p| == 1 {
      RowSumStart(p, a, b, i);
    } else {
      var m := |p| - 1;
      RowSumShift(p, a, b, i, m);
      ComposeAt(p, a, b, i);
      hide Compose;
      if i < m {
        MatrixIsSubstitution(p[1..], a, b, i);
      } else {
        AboveDiagonal(p[1..], a, b, i, m);
        TimesUnits(a);
      }
      if i > 0 {
        MatrixIsSubstitution(p[1..], a, b, i - 1);
      }
    }
  }

  lemma {:induction false} AboveDiagonal(p: seq<real>, a: real, b: real, i: nat, m: nat)
    requires m <= |p| && m <= i
    ensures RowSum(p, a, b, i, m) == 0.0
    decreases m
  {
    hide Times;
    if m > 0 {
      AboveDiagonal(p, a, b, i, m - 1);
      TimesUnits(p[m - 1]);
    }
  }

  lemma Cleared(s: real, d: real, e: real, x: real, y: real)
    ensures Times(d, e) * s + (x * d) * (y * e) == Times(d, e) * (s + Times(y, x))
  {
  }

  lemma ClearedQuotient(d: real, e: real, s: real)
    requires d != 0.0 && e != 0.0
    ensures Times(d, e) != 0.0 && (Times(d, e) * s) / Times(d, e) == s
  {
  }

  /** `substitute`: the coefficients and each matrix row with their denominators cleared, integer products
      summed, one division at the end. dp and dr are the denominators; any nonzero ones give p(a + b t). */
  method Substitute(p: seq<real>, a: real, b: real, dp: real, dr: seq<real>) returns (r: seq<real>)
    requires |p| >= 1 && |dr| == |p| && dp != 0.0 && forall i :: 0 <= i < |dr| ==> dr[i] != 0.0
    ensures r == Compose(p, a, b)
  {
    hide Times, Compose, Entry;
    r := [];
    for i := 0 to |p|
      invariant |r| == i
      invariant forall k :: 0 <= k < i ==> r[k] == Compose(p, a, b)[k]
    {
      var sum := 0.0;
      for j := 0 to |p|
        invariant sum == Times(dp, dr[i]) * RowSum(p, a, b, i, j)
      {
        Cleared(RowSum(p, a, b, i, j), dp, dr[i], p[j], Entry(j, i, a, b));
        sum := sum + (p[j] * dp) * (Entry(j, i, a, b) * dr[i]);
      }
      ClearedQuotient(dp, dr[i], RowSum(p, a, b, i, |p|));
      MatrixIsSubstitution(p, a, b, i);
      r := r + [sum / Times(dp, dr[i])];
    }
  }

  // ------------------------------------------------------------------ controls

  /** The first m terms of the sum of C(i, k) / C(degree, k) c[k]. */
  function ControlSum(c: seq<real>, i: nat, degree: nat, m: nat): real
    requires m <= |c| && m <= degree + 1
  {
    if m == 0 then 0.0
    else
      ChooseBounds(degree, m - 1);
      ControlSum(c, i, degree, m - 1) + Times(Choose(i, m - 1) as real / Choose(degree, m - 1) as real, c[m - 1])
  }

  /** How many controls a degree has. */
  function Count(degree: int): nat {
    if degree < 0 then 0 else degree + 1
  }

  /** One coordinate of the controls in `expected`, at any degree, even below the list's own. */
  function Controls(c: seq<real>, degree: int): (b: seq<real>)
    requires |c| >= 1
    ensures |b| == Count(degree)
  {
    seq(Count(degree), i requires 0 <= i < Count(degree) =>
      ControlSum(c, i, degree, (if i < |c| - 1 then i else |c| - 1) + 1))
  }

  lemma {:induction false} ControlSumPrefix(c: seq<real>, i: nat, degree: nat, m: nat, n: nat)
    requires m <= n <= |c| && m <= degree + 1
    ensures ControlSum(c[..n], i, degree, m) == ControlSum(c, i, degree, m)
    decreases m
  {
    if m > 0 {
      ControlSumPrefix(c, i, degree, m - 1, n);
    }
  }

  /** Below the list's degree, the coefficients above the degree go unread. */
  lemma ControlsTruncate(c: seq<real>, degree: nat)
    requires |c| >= degree + 1
    ensures Controls(c, degree) == Controls(c[..degree + 1], degree)
  {
    hide ControlSum;
    forall i | 0 <= i <= degree
      ensures Controls(c, degree)[i] == Controls(c[..degree + 1], degree)[i]
    {
      ControlSumPrefix(c, i, degree, i + 1, degree + 1);
    }
  }

  lemma {:induction false} ControlSumPads(c: seq<real>, i: nat, degree: nat, m: nat)
    requires 1 <= |c| <= degree + 1 && m <= degree + 1
    ensures BernsteinSum(c + Zeros(degree + 1 - |c|), i, m) == ControlSum(c, i, degree, if m <= |c| then m else |c|)
    decreases m
  {
    hide Times;
    if m > 0 {
      ControlSumPads(c, i, degree, m - 1);
      ChooseBounds(degree, m - 1);
      var q := Choose(i, m - 1) as real / Choose(degree, m - 1) as real;
      TimesUnits(q);
    }
  }

  /** The controls are the Bernstein coefficients of the list padded to the degree. */
  lemma ControlsArePadded(c: seq<real>, degree: nat)
    requires 1 <= |c| <= degree + 1
    ensures Controls(c, degree) == BernsteinOf(c + Zeros(degree + 1 - |c|))
  {
    hide BernsteinSum, ControlSum, Zeros;
    var q := c + Zeros(degree + 1 - |c|);
    forall i | 0 <= i <= degree
      ensures Controls(c, degree)[i] == BernsteinOf(q)[i]
    {
      ControlSumPads(c, i, degree, i + 1);
    }
  }

  /** Elevated controls take the same values. */
  lemma BEvalControls(c: seq<real>, degree: nat, t: real)
    requires 1 <= |c| <= degree + 1
    ensures BEval(Controls(c, degree), t) == Eval(c, t)
  {
    hide BEval, Eval, BernsteinOf, Controls;
    ControlsArePadded(c, degree);
    BEvalBernsteinOf(c + Zeros(degree + 1 - |c|), t);
    EvalPadded(c, degree + 1 - |c|, t);
  }

  /** No coefficient above the degree. */
  ghost predicate NoTail(c: seq<real>, degree: int) {
    forall k :: 0 <= k < |c| && k > degree ==> c[k] == 0.0
  }

  lemma TailZeros(c: seq<real>, degree: nat)
    requires |c| >= degree + 1
    ensures NoTail(c, degree) <==> c == c[..degree + 1] + Zeros(|c| - degree - 1)
  {
    var n := |c| - degree - 1;
    ZerosAre(n);
    assert c == c[..degree + 1] + c[degree + 1..];
    if c == c[..degree + 1] + Zeros(n) {
      forall k | 0 <= k < |c| && k > degree
        ensures c[k] == 0.0
      {
        assert c[k] == Zeros(n)[k - degree - 1];
      }
    }
  }

  lemma {:induction false} ZerosAre(n: nat)
    ensures |Zeros(n)| == n && forall k :: 0 <= k < n ==> Zeros(n)[k] == 0.0
  {
    if n > 0 {
      ZerosAre(n - 1);
    }
  }

  /** The degree does not grow under a substitution. */
  lemma ComposeNoTail(c: seq<real>, degree: nat, a: real, b: real)
    requires |c| >= degree + 1 && NoTail(c, degree)
    ensures NoTail(Compose(c, a, b), degree)
  {
    hide Compose, Eval, NoTail, Times, Zeros;
    var low, n := c[..degree + 1], |c| - degree - 1;
    ZerosAre(n);
    TailZeros(c, degree);
    var g := Compose(low, a, b) + Zeros(n);
    forall t: real
      ensures Eval(Compose(c, a, b), t) == Eval(g, t)
    {
      EvalCompose(c, a, b, t);
      EvalPadded(low, n, a + Times(b, t));
      EvalPadded(Compose(low, a, b), n, t);
      EvalCompose(low, a, b, t);
    }
    SameValuesSameList(Compose(c, a, b), g);
    assert g[..degree + 1] == Compose(low, a, b);
    TailZeros(g, degree);
  }

  lemma ComposeBack(c: seq<real>, a: real, b: real)
    requires |c| >= 1 && b != 0.0
    ensures Compose(Compose(c, a, b), -a / b, 1.0 / b) == c
  {
    hide Compose, Eval, Times;
    ComposeCompose(c, a, b, -a / b, 1.0 / b);
    BackArithmetic(a, b);
    forall t: real
      ensures Eval(Compose(c, 0.0, 1.0), t) == Eval(c, t)
    {
      EvalCompose(c, 0.0, 1.0, t);
      TimesUnits(t);
    }
    SameValuesSameList(Compose(c, 0.0, 1.0), c);
  }

  lemma BackArithmetic(a: real, b: real)
    requires b != 0.0
    ensures a + Times(b, -a / b) == 0.0 && Times(b, 1.0 / b) == 1.0
  {
  }

  lemma ComposeNoTailIff(c: seq<real>, degree: nat, a: real, b: real)
    requires |c| >= degree + 1 && b != 0.0
    ensures NoTail(Compose(c, a, b), degree) <==> NoTail(c, degree)
  {
    hide Compose, NoTail;
    if NoTail(Compose(c, a, b), degree) {
      ComposeNoTail(Compose(c, a, b), degree, -a / b, 1.0 / b);
      ComposeBack(c, a, b);
    }
    if NoTail(c, degree) {
      ComposeNoTail(c, degree, a, b);
    }
  }

  /** The controls below the list's degree take the values of what they read. */
  lemma BEvalTruncated(c: seq<real>, degree: nat, t: real)
    requires |c| >= degree + 1
    ensures BEval(Controls(c, degree), t) == Eval(c[..degree + 1] + Zeros(|c| - degree - 1), t)
  {
    hide Controls, BEval, Eval, Zeros;
    ControlsTruncate(c, degree);
    BEvalControls(c[..degree + 1], degree, t);
    EvalPadded(c[..degree + 1], |c| - degree - 1, t);
  }

  ghost predicate TakesValues(b: seq<real>, c: seq<real>)
    requires |b| >= 1
  {
    forall t: real :: BEval(b, t) == Eval(c, t)
  }

  lemma TruncatedExact(c: seq<real>, degree: nat)
    requires |c| >= degree + 1
    ensures TakesValues(Controls(c, degree), c) <==> NoTail(c, degree)
  {
    hide Controls, BEval, Eval, Zeros, NoTail;
    var q := c[..degree + 1] + Zeros(|c| - degree - 1);
    ZerosAre(|c| - degree - 1);
    TailZeros(c, degree);
    forall t: real
      ensures BEval(Controls(c, degree), t) == Eval(q, t)
    {
      BEvalTruncated(c, degree, t);
    }
    if TakesValues(Controls(c, degree), c) {
      forall t: real
        ensures Eval(c, t) == Eval(q, t)
      {
        assert BEval(Controls(c, degree), t) == Eval(c, t);
      }
      SameValuesSameList(c, q);
    }
  }

  /** Controls of any degree take the polynomial's values exactly if it has no coefficient above that degree. */
  lemma ControlsExact(c: seq<real>, degree: nat)
    requires |c| >= 1
    ensures TakesValues(Controls(c, degree), c) <==> NoTail(c, degree)
  {
    hide Controls, BEval, Eval, NoTail;
    if |c| <= degree + 1 {
      ShortNoTail(c, degree);
      forall t: real
        ensures BEval(Controls(c, degree), t) == Eval(c, t)
      {
        BEvalControls(c, degree, t);
      }
    } else {
      TruncatedExact(c, degree);
    }
  }

  /** And after a substitution exactly if the polynomial itself has none. */
  lemma ElevationExact(c: seq<real>, a: real, b: real, degree: nat)
    requires |c| >= 1 && b != 0.0
    ensures (forall t: real :: BEval(Controls(Compose(c, a, b), degree), t) == Eval(c, a + Times(b, t)))
      <==> NoTail(c, degree)
  {
    hide Controls, Compose, BEval, Eval, Times, NoTail;
    var g := Compose(c, a, b);
    ControlsExact(g, degree);
    forall t: real
      ensures Eval(g, t) == Eval(c, a + Times(b, t))
    {
      EvalCompose(c, a, b, t);
    }
    if |c| >= degree + 1 {
      ComposeNoTailIff(c, degree, a, b);
    } else {
      ShortNoTail(c, degree);
      ShortNoTail(g, degree);
    }
  }

  lemma ShortNoTail(c: seq<real>, degree: nat)
    requires |c| <= degree + 1
    ensures NoTail(c, degree)
  {
  }

  lemma {:induction false} PaddedPositive(c: seq<real>, n: nat)
    requires |c| >= 1 && AllPositive(BernsteinOf(c))
    ensures AllPositive(BernsteinOf(c + Zeros(n)))
    decreases n
  {
    hide BernsteinOf, Elevated;
    if n == 0 {
      assert c + Zeros(0) == c;
    } else {
      PaddedPositive(c, n - 1);
      ElevatedPositive(BernsteinOf(c + Zeros(n - 1)));
      ElevatedIsPadded(c + Zeros(n - 1));
      assert c + Zeros(n - 1) + [0.0] == c + Zeros(n);
    }
  }

  /** A part of [0, 1], forwards or backwards. */
  predicate PartOfUnit(a: real, b: real) {
    (b > 0.0 && a >= 0.0 && a + b <= 1.0) || (b < 0.0 && a <= 1.0 && a + b >= 0.0)
  }

  lemma ForwardPart(x: real, y: real) returns (s: real, u: real)
    requires y > 0.0 && x >= 0.0 && x + y <= 1.0
    ensures s == x + y && 0.0 <= s <= 1.0 && 0.0 <= u <= 1.0
    ensures 1.0 * s == s && s * u == x && s - s * u == y
  {
    s := x + y;
    u := x / s;
    QuotientSign(x, s);
    QuotientTimes(x, s);
    QuotientUpToOne(x, s);
  }

  lemma QuotientTimes(x: real, s: real)
    requires s > 0.0
    ensures s * (x / s) == x
  {
  }

  lemma QuotientUpToOne(x: real, s: real)
    requires s > 0.0 && x <= s
    ensures x / s <= 1.0
  {
    QuotientTimes(x, s);
    UpToOne(x / s, s);
  }

  lemma UpToOne(u: real, s: real)
    requires s > 0.0 && s * u <= s
    ensures u <= 1.0
  {
  }

  /** The two parts, their widths named. */
  lemma OnPartsOf(p: seq<real>, a: real, w: real, u: real, b: seq<real>, left: real, right: real)
    requires OnInterval(p, a, w, b) && w * u == left && w - left == right
    ensures OnInterval(p, a, left, Left(u, b)) && OnInterval(p, a + left, right, Right(u, b))
  {
    hide OnInterval, Left, Right;
    OnParts(p, a, w, u, b);
  }

  /** Positive coefficients stay positive on a part. */
  lemma ForwardPositive(c: seq<real>, x: real, y: real)
    requires |c| >= 1 && AllPositive(BernsteinOf(c)) && y > 0.0 && x >= 0.0 && x + y <= 1.0
    ensures AllPositive(BernsteinOf(Compose(c, x, y)))
  {
    hide BernsteinOf, Compose, Left, Right, OnInterval;
    var b := BernsteinOf(c);
    var s, u := ForwardPart(x, y);
    OnWholeInterval(c);
    OnPartsOf(c, 0.0, 1.0, s, b, s, 1.0 - s);
    EdgesPositive(s, b);
    OnPartsOf(c, 0.0, s, u, Left(s, b), x, y);
    EdgesPositive(u, Left(s, b));
    OnIntervalUnique(c, x, y, Right(u, Left(s, b)));
  }

  lemma ReversalValue(c: seq<real>, t: real)
    requires |c| >= 1
    ensures BEval(BernsteinOf(Compose(c, 1.0, -1.0)), t) == BEval(Reversed(BernsteinOf(c)), t)
  {
    hide *;
    BEvalBernsteinOf(Compose(c, 1.0, -1.0), t);
    EvalCompose(c, 1.0, -1.0, t);
    TimesUnits(t);
    BEvalReversed(BernsteinOf(c), t);
    BEvalBernsteinOf(c, 1.0 - t);
  }

  /** Substituting 1 - t reverses the coefficients. */
  lemma ReversalReverses(c: seq<real>)
    requires |c| >= 1
    ensures BernsteinOf(Compose(c, 1.0, -1.0)) == Reversed(BernsteinOf(c))
  {
    hide *;
    forall t: real
      ensures BEval(BernsteinOf(Compose(c, 1.0, -1.0)), t) == BEval(Reversed(BernsteinOf(c)), t)
    {
      ReversalValue(c, t);
    }
    SameValuesSameCoefficients(BernsteinOf(Compose(c, 1.0, -1.0)), Reversed(BernsteinOf(c)));
  }

  lemma PartPositive(c: seq<real>, a: real, b: real)
    requires |c| >= 1 && AllPositive(BernsteinOf(c)) && PartOfUnit(a, b)
    ensures AllPositive(BernsteinOf(Compose(c, a, b)))
  {
    hide BernsteinOf, Compose;
    if b > 0.0 {
      ForwardPositive(c, a, b);
    } else {
      var d := Compose(c, a + b, -b);
      ForwardPositive(c, a + b, -b);
      ReversalReverses(d);
      ReversedPositive(BernsteinOf(d));
      ComposeCompose(c, a + b, -b, 1.0, -1.0);
      TimesUnits(-b);
    }
  }

  /** Whatever part, and from the list's own degree up: the weight controls of a curve with positive weights are
      positive. */
  lemma ControlsPositive(c: seq<real>, a: real, b: real, degree: nat)
    requires 1 <= |c| <= degree + 1 && AllPositive(BernsteinOf(c)) && PartOfUnit(a, b)
    ensures AllPositive(Controls(Compose(c, a, b), degree))
  {
    hide BernsteinOf, Compose, Controls;
    PartPositive(c, a, b);
    ControlsArePadded(Compose(c, a, b), degree);
    PaddedPositive(Compose(c, a, b), degree + 1 - |c|);
  }

  // ------------------------------------------------------------------ the edits of one piece

  datatype Arc = Arc(degree: int, lo: real, hi: real, controls: seq<seq<real>>)

  /** Coordinate c of the control points. */
  function Column(controls: seq<seq<real>>, c: nat): (b: seq<real>)
    requires forall i :: 0 <= i < |controls| ==> |controls[i]| == 4
    requires c < 4
    ensures |b| == |controls|
  {
    seq(|controls|, i requires 0 <= i < |controls| => controls[i][c])
  }

  predicate FourLists(h: seq<seq<real>>, n: nat) {
    |h| == 4 && forall c :: 0 <= c < 4 ==> |h[c]| == n
  }

  /** The arc's controls are those of the curve h run from parameter a to a + b of the span, with positive weights. */
  ghost predicate ArcOf(arc: Arc, h: seq<seq<real>>, a: real, b: real) {
    && |arc.controls| == Count(arc.degree)
    && (forall i :: 0 <= i < |arc.controls| ==> |arc.controls[i]| == 4)
    && (forall i :: 0 <= i < |arc.controls| ==> arc.controls[i][3] > 0.0)
    && |h| == 4
    && forall c :: 0 <= c < 4 ==> |h[c]| >= 1 && Column(arc.controls, c) == Controls(Compose(h[c], a, b), arc.degree)
  }

  /** The curve h has no coefficient above the degree. */
  ghost predicate Fits(h: seq<seq<real>>, degree: int)
    requires |h| == 4
  {
    degree >= 0 && forall c :: 0 <= c < 4 ==> NoTail(h[c], degree)
  }

  /** The substitution an edit makes after restricting to a piece: trimmed to the middle half by operations 1
      and 5, run backwards by 3 and 5. */
  function Edited(a: real, b: real, op: nat): (real, real) {
    var (a1, b1) := if op == 1 || op == 5 then (a + b * 0.25, b * 0.5) else (a, b);
    if op == 3 || op == 5 then (a1 + b1, -b1) else (a1, b1)
  }

  /** The part of the span the k-th arc shows. */
  function Part(a: real, b: real, op: nat, k: nat): (real, real) {
    var (x, y) := Edited(a, b, op);
    var (u, v) := ArcRange(op, k);
    (x + Times(y, u), Times(y, v - u))
  }

  lemma PartInside(a: real, b: real, op: nat, k: nat)
    requires PartOfUnit(a, b)
    ensures PartOfUnit(Part(a, b, op, k).0, Part(a, b, op, k).1)
  {
    var (x, y) := Edited(a, b, op);
    assert PartOfUnit(x, y);
    PartArithmetic(x, y);
  }

  /** The lists of coordinate curves after one more substitution. */
  function ComposeAll(h: seq<seq<real>>, n: nat, a: real, b: real): (r: seq<seq<real>>)
    requires FourLists(h, n) && n >= 1
    ensures FourLists(r, n)
  {
    [Compose(h[0], a, b), Compose(h[1], a, b), Compose(h[2], a, b), Compose(h[3], a, b)]
  }

  lemma ComposeAllAt(h: seq<seq<real>>, n: nat, a: real, b: real)
    requires FourLists(h, n) && n >= 1
    ensures forall c :: 0 <= c < 4 ==> ComposeAll(h, n, a, b)[c] == Compose(h[c], a, b)
  {
  }

  lemma ComposeAllTwice(h: seq<seq<real>>, n: nat, a: real, b: real, c: real, d: real)
    requires FourLists(h, n) && n >= 1
    ensures ComposeAll(ComposeAll(h, n, a, b), n, c, d) == ComposeAll(h, n, a + Times(b, c), Times(b, d))
  {
    hide Compose;
    ComposeCompose(h[0], a, b, c, d);
    ComposeCompose(h[1], a, b, c, d);
    ComposeCompose(h[2], a, b, c, d);
    ComposeCompose(h[3], a, b, c, d);
  }

  /** Control points from coordinate lists, as `expected` builds them. */
  method ControlPoints(coefficients: seq<seq<real>>, n: nat, degree: int) returns (controls: seq<seq<real>>)
    requires FourLists(coefficients, n) && n >= 1
    ensures |controls| == Count(degree)
    ensures forall i :: 0 <= i < |controls| ==> |controls[i]| == 4
    ensures forall c :: 0 <= c < 4 ==> Column(controls, c) == Controls(coefficients[c], degree)
  {
    hide Controls;
    controls := [];
    for i := 0 to Count(degree)
      invariant |controls| == i
      invariant forall k :: 0 <= k < i ==> |controls[k]| == 4
      invariant forall k, c :: 0 <= k < i && 0 <= c < 4 ==> controls[k][c] == Controls(coefficients[c], degree)[k]
    {
      var point := [Controls(coefficients[0], degree)[i], Controls(coefficients[1], degree)[i],
                    Controls(coefficients[2], degree)[i], Controls(coefficients[3], degree)[i]];
      controls := controls + [point];
    }
  }

  lemma PartArithmetic(a: real, b: real)
    ensures a + Times(b, 0.25) == a + b * 0.25 && Times(b, 0.5) == b * 0.5
    ensures a + Times(b, 1.0) == a + b && Times(b, -1.0) == -b
    ensures a + Times(b, 0.0) == a && Times(b, 0.375) == b * 0.375
    ensures a + Times(b, 0.375) == a + b * 0.375 && Times(b, 0.625) == b * 0.625
  {
  }

  /** The middle half for a trimming operation, else the whole. */
  function Trimmed(low: real, high: real, op: nat): (real, real) {
    if op == 1 || op == 5 then (low + (high - low) / 4.0, low + 3.0 * (high - low) / 4.0) else (low, high)
  }

  /** How many arcs a piece becomes, and the part of the edited piece the k-th one covers. */
  function ArcCount(op: nat): nat {
    if op == 2 || op == 5 then 2 else 1
  }

  function ArcRange(op: nat, k: nat): (real, real) {
    if op == 2 || op == 5 then if k == 0 then (0.0, 0.375) else (0.375, 1.0) else (0.0, 1.0)
  }

  function ArcDegree(p: nat, op: nat, elevation: int): int {
    if op == 4 || op == 5 then elevation else p
  }

  /** The arc's degree and parameter interval, for the k-th arc of the piece from low to high. */
  predicate Placed(arc: Arc, low: real, high: real, op: nat, k: nat, degree: int) {
    var (l, h) := Trimmed(low, high, op);
    var (u, v) := ArcRange(op, k);
    arc.degree == degree && arc.lo == l + u * (h - l) && arc.hi == l + v * (h - l)
  }

  /** The curve parameter the k-th arc shows at t: its own interval run through by t, mirrored in the edited
      piece by a reversal. */
  function Shown(low: real, high: real, op: nat, k: nat, t: real): real {
    var (l, h) := Trimmed(low, high, op);
    var (u, v) := ArcRange(op, k);
    var s := l + Times(h - l, u + Times(v - u, t));
    if op == 3 || op == 5 then l + h - s else s
  }

  /** Trimming, reversal and the two parts of a split as one substitution each. */
  method EditLists(h: seq<seq<real>>, n: nat, a: real, b: real, op: nat) returns (g: seq<seq<real>>)
    requires FourLists(h, n) && n >= 1
    ensures FourLists(g, n)
    ensures var (x, y) := Edited(a, b, op); g == ComposeAll(h, n, x, y)
  {
    hide ComposeAll, Times;
    g := ComposeAll(h, n, a, b);
    ghost var x, y := a, b;
    if op == 1 || op == 5 {
      g := ComposeAll(g, n, 0.25, 0.5);
      ComposeAllTwice(h, n, x, y, 0.25, 0.5);
      PartArithmetic(x, y);
      x, y := x + y * 0.25, y * 0.5;
    }
    if op == 3 || op == 5 {
      g := ComposeAll(g, n, 1.0, -1.0);
      ComposeAllTwice(h, n, x, y, 1.0, -1.0);
      PartArithmetic(x, y);
    }
  }

  /** The assertion on the weights fails for the part of the curve from a to a + b. */
  ghost predicate BadWeights(h: seq<seq<real>>, a: real, b: real, degree: int)
    requires |h| == 4 && |h[3]| >= 1
  {
    !AllPositive(Controls(Compose(h[3], a, b), degree))
  }

  /** It fails for the k-th arc. */
  ghost predicate ArcFails(h: seq<seq<real>>, a: real, b: real, op: nat, k: nat, degree: int)
    requires |h| == 4 && |h[3]| >= 1
  {
    BadWeights(h, Part(a, b, op, k).0, Part(a, b, op, k).1, degree)
  }

  ghost predicate SomeArcFails(h: seq<seq<real>>, a: real, b: real, op: nat, degree: int)
    requires |h| == 4 && |h[3]| >= 1
  {
    exists k :: 0 <= k < ArcCount(op) && ArcFails(h, a, b, op, k, degree)
  }

  /** It cannot at the curve's degree or above. */
  lemma GoodWeights(h: seq<seq<real>>, a: real, b: real, degree: int)
    requires |h| == 4 && 1 <= |h[3]| <= degree + 1 && AllPositive(BernsteinOf(h[3])) && PartOfUnit(a, b)
    ensures !BadWeights(h, a, b, degree)
  {
    hide BernsteinOf, Compose, Controls;
    ControlsPositive(h[3], a, b, degree);
  }

  /** The body of `expected` for one piece: the span's coordinate lists restricted to it, edited, converted. None is
      its assertion on the weights, which can fail only for an elevation below the curve's degree. */
  method EditPiece(h: seq<seq<real>>, p: nat, a: real, b: real, low0: real, high0: real, op: nat, elevation: int)
    returns (r: Option<seq<Arc>>)
    requires FourLists(h, p + 1) && AllPositive(BernsteinOf(h[3]))
    requires PartOfUnit(a, b) && low0 < high0
    ensures r.None? <==> SomeArcFails(h, a, b, op, ArcDegree(p, op, elevation))
    ensures ArcDegree(p, op, elevation) >= p ==> r.Some?
    ensures r.Some? ==> |r.value| == ArcCount(op)
    ensures r.Some? ==> forall k :: 0 <= k < |r.value| ==>
      && ArcOf(r.value[k], h, Part(a, b, op, k).0, Part(a, b, op, k).1)
      && Placed(r.value[k], low0, high0, op, k, ArcDegree(p, op, elevation))
  {
    hide BernsteinOf, ComposeAll, Times, ArcOf, PartOfUnit, BadWeights;
    var n := p + 1;
    var low, high := low0, high0;
    if op == 1 || op == 5 {
      low, high := low + (high - low) / 4.0, low + 3.0 * (high - low) / 4.0;
    }
    var g := EditLists(h, n, a, b, op);
    ghost var (x, y) := Edited(a, b, op);
    PartArithmetic(x, y);
    var arcs: seq<Arc> := [];
    var ranges := if op == 2 || op == 5 then [(0.0, 0.375), (0.375, 1.0)] else [(0.0, 1.0)];
    var degree := ArcDegree(p, op, elevation);
    for k := 0 to |ranges|
      invariant |arcs| == k
      invariant forall j :: 0 <= j < k ==> ArcOf(arcs[j], h, Part(a, b, op, j).0, Part(a, b, op, j).1)
      invariant forall j :: 0 <= j < k ==> !ArcFails(h, a, b, op, j, degree)
      invariant forall j :: 0 <= j < k ==> Placed(arcs[j], low0, high0, op, j, degree)
    {
      var (u, v) := ranges[k];
      PartInside(a, b, op, k);
      ComposeAllTwice(h, n, x, y, u, v - u);
      var arc := FinishArc(h, n, g, x, y, u, v, low, high, degree);
      if degree >= p {
        GoodWeights(h, Part(a, b, op, k).0, Part(a, b, op, k).1, degree);
      }
      if arc.None? {
        assert ArcFails(h, a, b, op, k, degree);
        return None;
      }
      arcs := arcs + [arc.value];
    }
    return Some(arcs);
  }

  lemma FinishPositions(low: real, high: real, u: real, v: real)
    requires low < high && u < v
    ensures low + u * (high - low) < low + v * (high - low)
  {
    assert (v - u) * (high - low) > 0.0;
  }

  /** The assertion of `expected`. */
  method CheckWeights(controls: seq<seq<real>>) returns (ok: bool)
    requires forall i :: 0 <= i < |controls| ==> |controls[i]| == 4
    ensures ok <==> AllPositive(Column(controls, 3))
  {
    for i := 0 to |controls|
      invariant forall k :: 0 <= k < i ==> controls[k][3] > 0.0
    {
      if controls[i][3] <= 0.0 {
        assert Column(controls, 3)[i] <= 0.0;
        return false;
      }
    }
    return true;
  }

  /** One range of the innermost loop: substitute, convert, append. */
  method FinishArc(ghost h: seq<seq<real>>, n: nat, g: seq<seq<real>>, ghost x: real, ghost y: real,
                   u: real, v: real, low: real, high: real, degree: int) returns (r: Option<Arc>)
    requires FourLists(h, n) && FourLists(g, n) && n >= 1
    requires u < v && low < high
    requires ComposeAll(g, n, u, v - u) == ComposeAll(h, n, x + Times(y, u), Times(y, v - u))
    ensures r.None? <==> BadWeights(h, x + Times(y, u), Times(y, v - u), degree)
    ensures r.Some? ==> ArcOf(r.value, h, x + Times(y, u), Times(y, v - u)) && r.value.degree == degree
    ensures r.Some? ==> r.value.lo == low + u * (high - low) < r.value.hi == low + v * (high - low)
  {
    hide Compose, ComposeAll, Controls, Times;
    var coefficients := ComposeAll(g, n, u, v - u);
    ComposeAllAt(h, n, x + Times(y, u), Times(y, v - u));
    var controls := ControlPoints(coefficients, n, degree);
    var ok := CheckWeights(controls);
    if !ok {
      return None;
    }
    FinishPositions(low, high, u, v);
    forall i | 0 <= i < |controls|
      ensures controls[i][3] > 0.0
    {
      assert Column(controls, 3)[i] > 0.0;
    }
    return Some(Arc(degree, low + u * (high - low), low + v * (high - low), controls));
  }

  // ------------------------------------------------------------------ tiling

  /** A piece of one span in one turn of the period. */
  datatype Piece = Piece(turn: int, span: nat, low: real, high: real)

  /** The pieces follow one another from first to last. */
  ghost predicate Tiles(pieces: seq<Piece>, first: real, last: real) {
    && (pieces == [] ==> first == last)
    && (pieces != [] ==> pieces[0].low == first && pieces[|pieces| - 1].high == last)
    && (forall k :: 0 <= k < |pieces| ==> pieces[k].low < pieces[k].high)
    && (forall k :: 0 <= k < |pieces| - 1 ==> pieces[k].high == pieces[k + 1].low)
  }

  /** How far a turn shifts the knots. */
  function Offset(turn: int, period: real): real {
    turn as real * period
  }

  predicate InSpan(q: Piece, flat: seq<real>, p: nat, period: real) {
    && p <= q.span && q.span + p + 1 < |flat|
    && flat[q.span] + Offset(q.turn, period) <= q.low && q.high <= flat[q.span + 1] + Offset(q.turn, period)
  }

  /** Each piece lies in its span, shifted by its turn. */
  ghost predicate InSpans(pieces: seq<Piece>, flat: seq<real>, p: nat, period: real) {
    forall k :: 0 <= k < |pieces| ==> InSpan(pieces[k], flat, p, period)
  }

  /** The piece is all of [first, last] that is in its span. */
  predicate Overlap(q: Piece, flat: seq<real>, period: real, first: real, last: real) {
    && q.span + 1 < |flat|
    && q.low == Max(first, flat[q.span] + Offset(q.turn, period))
    && q.high == Min(last, flat[q.span + 1] + Offset(q.turn, period))
  }

  ghost predicate Overlaps(pieces: seq<Piece>, flat: seq<real>, period: real, first: real, last: real) {
    forall k :: 0 <= k < |pieces| ==> Overlap(pieces[k], flat, period, first, last)
  }

  /** The pieces of [first, last]. */
  ghost predicate CutInto(pieces: seq<Piece>, flat: seq<real>, p: nat, start: real, end: real, first: real,
                          last: real) {
    && Tiles(pieces, first, last) && InSpans(pieces, flat, p, end - start)
    && Overlaps(pieces, flat, end - start, first, last)
  }

  /** x moved into [first, last]. */
  function Clamp(first: real, last: real, x: real): real {
    Max(first, Min(last, x))
  }

  /** What `axis` provides: a nondecreasing knot list whose inner spans run from start to end. */
  ghost predicate Axis(flat: seq<real>, p: nat, start: real, end: real) {
    Nondecreasing(flat) && |flat| >= 2 * p + 2 && flat[p] == start < end == flat[|flat| - p - 1]
  }

  lemma NextTurn(start: real, end: real, turn: int)
    ensures end + Offset(turn, end - start) == start + Offset(turn + 1, end - start)
  {
    var p := end - start;
    assert (turn + 1) as real == turn as real + 1.0;
    TimesSum(p, turn as real, 1.0);
  }

  lemma FirstTurns(period: real)
    ensures Offset(0, period) == 0.0 && Offset(1, period) == period
  {
  }

  lemma QuotientBounds(x: real, period: real, k: real)
    requires period > 0.0 && k <= x / period < k + 1.0
    ensures k * period <= x < (k + 1.0) * period
  {
    var q := x / period;
    assert Times(q, period) == x;
    TimesDifference(period, q, k);
    TimesDifference(period, k + 1.0, q);
    TimesSign(period, q - k);
    TimesSign(period, k + 1.0 - q);
    TimesCommutes(period, q);
    TimesCommutes(period, k);
    TimesCommutes(period, k + 1.0);
  }

  /** Python's // on the exact quotient. */
  lemma FloorBounds(x: real, period: real, k: int)
    requires period > 0.0 && k == (x / period).Floor
    ensures Offset(k, period) <= x < Offset(k + 1, period)
  {
    assert (k + 1) as real == k as real + 1.0;
    QuotientBounds(x, period, k as real);
  }

  lemma FloorMonotone(x: real, y: real, period: real)
    requires period > 0.0 && x < y
    ensures (x / period).Floor <= (y / period).Floor
  {
    assert x / period <= y / period;
  }

  /** Moving a knot interval into [first, last]. */
  lemma ClampStep(first: real, last: real, a: real, b: real)
    requires first < last && a <= b
    ensures var low, high := Max(first, a), Min(last, b);
      if low < high then low == Clamp(first, last, a) && high == Clamp(first, last, b) && a <= low && high <= b
      else Clamp(first, last, a) == Clamp(first, last, b)
  {
  }

  lemma AxisSpan(flat: seq<real>, p: nat, start: real, end: real, span: nat)
    requires Axis(flat, p, start, end) && p <= span < |flat| - p - 1
    ensures start <= flat[span] <= flat[span + 1] <= end
  {
  }

  lemma PiecesAppend(pieces: seq<Piece>, flat: seq<real>, p: nat, period: real, first: real, last: real, q: Piece)
    requires Tiles(pieces, first, q.low) && q.low < q.high
    requires InSpans(pieces, flat, p, period) && InSpan(q, flat, p, period)
    requires Overlaps(pieces, flat, period, first, last) && Overlap(q, flat, period, first, last)
    ensures Tiles(pieces + [q], first, q.high) && InSpans(pieces + [q], flat, p, period)
    ensures Overlaps(pieces + [q], flat, period, first, last)
  {
  }

  /** The spans of one turn, in order. */
  method TurnPieces(flat: seq<real>, p: nat, start: real, end: real, first: real, last: real, turn: int,
                    before: seq<Piece>) returns (pieces: seq<Piece>)
    requires Axis(flat, p, start, end) && |flat| >= 2 * p + 2 && flat[p] == start && end == flat[|flat| - p - 1]
    requires first < last
    requires Tiles(before, first, Clamp(first, last, start + Offset(turn, end - start)))
    requires InSpans(before, flat, p, end - start) && Overlaps(before, flat, end - start, first, last)
    ensures Tiles(pieces, first, Clamp(first, last, end + Offset(turn, end - start)))
    ensures InSpans(pieces, flat, p, end - start) && Overlaps(pieces, flat, end - start, first, last)
  {
    hide Tiles, InSpans, Overlaps, Axis, Clamp, Max, Min, Offset, Nondecreasing;
    pieces := before;
    var offset := Offset(turn, end - start);
    for span := p to |flat| - p - 1
      invariant Tiles(pieces, first, Clamp(first, last, flat[span] + offset))
      invariant InSpans(pieces, flat, p, end - start) && Overlaps(pieces, flat, end - start, first, last)
    {
      var a, b := flat[span], flat[span + 1];
      AxisSpan(flat, p, start, end, span);
      if a >= b || a < start || b > end {
        continue;
      }
      var low, high := Max(first, a + offset), Min(last, b + offset);
      ClampStep(first, last, a + offset, b + offset);
      if low >= high {
        continue;
      }
      var q := Piece(turn, span, low, high);
      PiecesAppend(pieces, flat, p, end - start, first, last, q);
      pieces := pieces + [q];
    }
  }

  /** The range of turns reaches over [first, last]. */
  method Turns(start: real, end: real, first: real, last: real, periodic: bool) returns (from: int, to: int)
    requires start < end && first < last && (periodic || (start <= first && last <= end))
    ensures from < to
    ensures start + Offset(from, end - start) <= first && last <= start + Offset(to, end - start)
    ensures !periodic ==> from == 0 && to == 1
    ensures periodic ==> first < start + Offset(from + 1, end - start) && start + Offset(to - 1, end - start) <= last
  {
    hide Offset;
    var period := end - start;
    if periodic {
      from, to := ((first - start) / period).Floor, ((last - start) / period).Floor + 1;
      FloorBounds(first - start, period, from);
      FloorBounds(last - start, period, to - 1);
      FloorMonotone(first - start, last - start, period);
    } else {
      from, to := 0, 1;
      FirstTurns(period);
    }
  }

  lemma ClampEnds(first: real, last: real, x: real, y: real)
    requires first < last && x <= first && last <= y
    ensures Clamp(first, last, x) == first && Clamp(first, last, y) == last
  {
  }

  /** The pieces of [first, last] in `expected`, over as many periods as it spans. None is its ValueError. */
  method Pieces(flat: seq<real>, p: nat, start: real, end: real, first: real, last: real, periodic: bool)
    returns (r: Option<seq<Piece>>)
    requires Axis(flat, p, start, end)
    ensures r.None? <==> first >= last || (!periodic && !(start <= first && last <= end))
    ensures r.Some? ==> CutInto(r.value, flat, p, start, end, first, last)
  {
    if !(first < last) || (!periodic && !(start <= first < last <= end)) {
      return None;
    }
    var pieces := AllTurns(flat, p, start, end, first, last, periodic);
    return Some(pieces);
  }

  method AllTurns(flat: seq<real>, p: nat, start: real, end: real, first: real, last: real, periodic: bool)
    returns (pieces: seq<Piece>)
    requires Axis(flat, p, start, end) && |flat| >= 2 * p + 2 && flat[p] == start < end == flat[|flat| - p - 1]
    requires first < last && (periodic || (start <= first && last <= end))
    ensures CutInto(pieces, flat, p, start, end, first, last)
  {
    hide Tiles, InSpans, Overlaps, Axis, Clamp, Offset;
    var from, to := Turns(start, end, first, last, periodic);
    ClampEnds(first, last, start + Offset(from, end - start), start + Offset(to, end - start));
    NoPieces(flat, p, first, last, end - start);
    pieces := [];
    for turn := from to to
      invariant Tiles(pieces, first, Clamp(first, last, start + Offset(turn, end - start)))
      invariant InSpans(pieces, flat, p, end - start) && Overlaps(pieces, flat, end - start, first, last)
    {
      pieces := TurnPieces(flat, p, start, end, first, last, turn, pieces);
      NextTurn(start, end, turn);
    }
  }

  lemma NoPieces(flat: seq<real>, p: nat, first: real, last: real, period: real)
    ensures Tiles([], first, first) && InSpans([], flat, p, period) && Overlaps([], flat, period, first, last)
  {
  }

  lemma OffsetsRise(period: real, turn: int, later: int)
    requires period > 0.0 && turn < later
    ensures Offset(turn + 1, period) <= Offset(later, period)
  {
    assert (turn + 1) as real <= later as real;
    TimesDifference(period, later as real, (turn + 1) as real);
    TimesSign(period, later as real - (turn + 1) as real);
    TimesCommutes(period, later as real);
    TimesCommutes(period, (turn + 1) as real);
  }

  /** A piece of an earlier span or turn ends before the other begins. */
  lemma EarlierEnds(flat: seq<real>, p: nat, start: real, end: real, q: Piece, r: Piece)
    requires Axis(flat, p, start, end) && InSpan(q, flat, p, end - start) && InSpan(r, flat, p, end - start)
    requires q.turn < r.turn || (q.turn == r.turn && q.span < r.span)
    ensures q.high <= r.low
  {
    hide Offset;
    if q.turn < r.turn {
      NextTurn(start, end, q.turn);
      OffsetsRise(end - start, q.turn, r.turn);
    }
  }

  lemma SamePiece(flat: seq<real>, p: nat, start: real, end: real, first: real, last: real, q: Piece, r: Piece)
    requires Axis(flat, p, start, end) && InSpan(q, flat, p, end - start) && InSpan(r, flat, p, end - start)
    requires Overlap(q, flat, end - start, first, last) && Overlap(r, flat, end - start, first, last)
    requires q.low < q.high && r.low < r.high && q.low == r.low
    ensures q == r
  {
    hide Axis, Max, Min, Offset;
    if q.turn < r.turn || (q.turn == r.turn && q.span < r.span) {
      EarlierEnds(flat, p, start, end, q, r);
    } else if q.turn != r.turn || q.span != r.span {
      EarlierEnds(flat, p, start, end, r, q);
    }
  }

  lemma {:induction false} SamePrefix(flat: seq<real>, p: nat, start: real, end: real, first: real, last: real,
                                      x: seq<Piece>, y: seq<Piece>, k: nat)
    requires Axis(flat, p, start, end) && k <= |x| && k <= |y|
    requires CutInto(x, flat, p, start, end, first, last) && CutInto(y, flat, p, start, end, first, last)
    ensures x[..k] == y[..k]
  {
    hide Axis, InSpan, Overlap;
    if k > 0 {
      SamePrefix(flat, p, start, end, first, last, x, y, k - 1);
      if k > 1 {
        assert x[..k - 1][k - 2] == y[..k - 1][k - 2];
        assert x[k - 2].high == x[k - 2 + 1].low && y[k - 2].high == y[k - 2 + 1].low;
      }
      SamePiece(flat, p, start, end, first, last, x[k - 1], y[k - 1]);
      assert x[..k] == x[..k - 1] + [x[k - 1]] && y[..k] == y[..k - 1] + [y[k - 1]];
    }
  }

  /** Where the next piece would begin. */
  function Reached(pieces: seq<Piece>, first: real): real {
    if pieces == [] then first else pieces[|pieces| - 1].high
  }

  lemma CutEnds(flat: seq<real>, p: nat, start: real, end: real, first: real, last: real, x: seq<Piece>, k: nat)
    requires CutInto(x, flat, p, start, end, first, last) && k <= |x|
    ensures k == |x| ==> Reached(x[..k], first) == last
    ensures k < |x| ==> Reached(x[..k], first) < last
  {
    hide InSpan, Offset;
    if 0 < k < |x| {
      assert x[k - 1].high == x[k - 1 + 1].low;
    }
    if k < |x| {
      assert Overlap(x[k], flat, end - start, first, last);
    } else {
      assert x[..k] == x;
    }
  }

  /** They are determined: the interval is cut in one way. */
  lemma CutUnique(flat: seq<real>, p: nat, start: real, end: real, first: real, last: real, x: seq<Piece>,
                  y: seq<Piece>)
    requires Axis(flat, p, start, end)
    requires CutInto(x, flat, p, start, end, first, last) && CutInto(y, flat, p, start, end, first, last)
    ensures x == y
  {
    hide *;
    var k := if |x| <= |y| then |x| else |y|;
    SamePrefix(flat, p, start, end, first, last, x, y, k);
    CutEnds(flat, p, start, end, first, last, x, k);
    CutEnds(flat, p, start, end, first, last, y, k);
    assert x[..|x|] == x && y[..|y|] == y;
  }

  // ------------------------------------------------------------------ the whole edit

  /** An edit's input: degree, poles (cyclic), weights, operation and elevated degree. */
  datatype Curve = Curve(degree: nat, poles: seq<seq<real>>, weights: seq<real>)

  ghost predicate GoodCurve(v: Curve) {
    && |v.poles| == |v.weights| >= 1
    && (forall i :: 0 <= i < |v.poles| ==> |v.poles[i]| == 3)
    && AllPositive(v.weights)
  }

  /** A pole coordinate times its weight, or the weight itself. */
  function Coordinate(v: Curve, c: nat): (r: seq<real>)
    requires |v.poles| == |v.weights| && c < 4 && forall i :: 0 <= i < |v.poles| ==> |v.poles[i]| == 3
    ensures |r| == |v.weights|
  {
    seq(|v.weights|, i requires 0 <= i < |v.weights| => if c < 3 then Times(v.weights[i], v.poles[i][c])
      else v.weights[i])
  }

  lemma LocalPart(a: real, w: real, low: real, high: real)
    requires w > 0.0 && a <= low < high <= a + w
    ensures PartOfUnit((low - a) / w, (high - low) / w)
  {
    QuotientSign(low - a, w);
    QuotientSign(high - low, w);
    QuotientSum(low - a, high - low, w);
  }

  lemma QuotientSum(x: real, y: real, w: real)
    requires w > 0.0 && x + y <= w
    ensures x / w + y / w <= 1.0
  {
    assert x / w + y / w == (x + y) / w;
    UpToOne((x + y) / w, w);
  }

  /** The homogeneous coordinates of the curve on a span, as polynomials over [0, 1]. */
  function SpanCurve(v: Curve, flat: seq<real>, span: nat): (h: seq<seq<real>>)
    requires |v.poles| == |v.weights| >= 1 && forall i :: 0 <= i < |v.poles| ==> |v.poles[i]| == 3
    requires v.degree <= span && span + v.degree + 1 < |flat|
    ensures FourLists(h, v.degree + 1)
  {
    [Weighted(flat, span, v.degree, Coordinate(v, 0), v.degree + 1),
     Weighted(flat, span, v.degree, Coordinate(v, 1), v.degree + 1),
     Weighted(flat, span, v.degree, Coordinate(v, 2), v.degree + 1),
     Weighted(flat, span, v.degree, Coordinate(v, 3), v.degree + 1)]
  }

  /** The arc's control polynomials take, at every t, the values of h at the shown curve parameter, measured in
      the knot interval from a of length w. */
  ghost predicate Shows(arc: Arc, h: seq<seq<real>>, a: real, w: real, low: real, high: real, op: nat, k: nat) {
    && PositiveArc(arc) && arc.degree >= 0 && |h| == 4
    && forall c, t: real :: 0 <= c < 4 ==>
      BEval(Column(arc.controls, c), t) == Eval(h[c], Local(Shown(low, high, op, k, t), a, w))
  }

  /** A parameter measured in a knot interval from a of length w. */
  function Local(s: real, a: real, w: real): real {
    if w == 0.0 then 0.0 else (s - a) / w
  }

  lemma LocalOf(w: real, z: real, s: real, a: real)
    requires w > 0.0 && Times(w, z) == s - a
    ensures z == Local(s, a, w)
  {
  }

  lemma ShownArithmetic(w: real, x: real, y: real, low: real, high: real, a: real, u: real, d: real, t: real)
    requires Times(w, x) == low - a && Times(w, y) == high - low
    ensures Times(w, (x + Times(y, u)) + Times(Times(y, d), t)) == low + Times(high - low, u + Times(d, t)) - a
  {
  }

  lemma EditedArithmetic(w: real, x: real, y: real, low: real, high: real, a: real, op: nat)
    requires Times(w, x) == low - a && Times(w, y) == high - low
    ensures var (e, f) := Edited(x, y, op); var (l, h) := Trimmed(low, high, op);
      if op == 3 || op == 5 then Times(w, e) == h - a && Times(w, f) == l - h
      else Times(w, e) == l - a && Times(w, f) == h - l
  {
    assert Times(w, x + y * 0.25) == low - a + (high - low) * 0.25;
    assert Times(w, y * 0.5) == (high - low) * 0.5;
  }

  lemma PartShows(w: real, x: real, y: real, low: real, high: real, a: real, op: nat, k: nat, t: real)
    requires w > 0.0 && Times(w, x) == low - a && Times(w, y) == high - low
    ensures Part(x, y, op, k).0 + Times(Part(x, y, op, k).1, t) == Local(Shown(low, high, op, k, t), a, w)
  {
    hide Times, Edited, Trimmed, Local;
    var (e, f) := Edited(x, y, op);
    var (l, h) := Trimmed(low, high, op);
    var (u, v) := ArcRange(op, k);
    EditedArithmetic(w, x, y, low, high, a, op);
    if op == 3 || op == 5 {
      ShownArithmetic(w, e, f, h, l, a, u, v - u, t);
      MirrorArithmetic(l, h, u + Times(v - u, t));
    } else {
      ShownArithmetic(w, e, f, l, h, a, u, v - u, t);
    }
    LocalOf(w, (e + Times(f, u)) + Times(Times(f, v - u), t), Shown(low, high, op, k, t), a);
  }

  lemma MirrorArithmetic(l: real, h: real, s: real)
    ensures h + Times(l - h, s) == l + h - (l + Times(h - l, s))
  {
  }

  lemma LocalScaled(x: real, w: real)
    requires w > 0.0
    ensures Times(w, x / w) == x
  {
  }

  lemma ColumnExact(h: seq<seq<real>>, c: nat, x: real, y: real, column: seq<real>, degree: nat, shown: real -> real)
    requires c < |h| && |h[c]| >= 1 && y != 0.0 && column == Controls(Compose(h[c], x, y), degree)
    requires forall t: real :: x + Times(y, t) == shown(t)
    ensures (forall t: real :: BEval(column, t) == Eval(h[c], shown(t))) <==> NoTail(h[c], degree)
  {
    hide Controls, Compose, BEval, Eval, Times, NoTail;
    ElevationExact(h[c], x, y, degree);
  }

  /** The arc shows the curve exactly if the curve has no coefficient above the arc's degree. */
  lemma ArcShows(arc: Arc, h: seq<seq<real>>, a: real, w: real, low: real, high: real, op: nat, k: nat)
    requires w > 0.0 && PartOfUnit((low - a) / w, (high - low) / w) && |h| == 4
    requires ArcOf(arc, h, Part((low - a) / w, (high - low) / w, op, k).0,
      Part((low - a) / w, (high - low) / w, op, k).1)
    ensures Shows(arc, h, a, w, low, high, op, k) <==> Fits(h, arc.degree)
  {
    var x, y := (low - a) / w, (high - low) / w;
    PartInside(x, y, op, k);
    hide Part, Shown, Local, BEval, Eval, Times, NoTail, Controls, Compose;
    LocalScaled(low - a, w);
    LocalScaled(high - low, w);
    var u, v := Part(x, y, op, k).0, Part(x, y, op, k).1;
    assert v != 0.0;
    var shown: real -> real := t => Local(Shown(low, high, op, k, t), a, w);
    forall t: real
      ensures u + Times(v, t) == shown(t)
    {
      PartShows(w, x, y, low, high, a, op, k, t);
    }
    if arc.degree >= 0 {
      forall c | 0 <= c < 4
        ensures (forall t: real :: BEval(Column(arc.controls, c), t) == Eval(h[c], shown(t))) <==>
          NoTail(h[c], arc.degree)
      {
        ColumnExact(h, c, u, v, Column(arc.controls, c), arc.degree, shown);
      }
    }
  }

  /** Its controls are those of its part of the knot interval from a of length w. */
  ghost predicate ArcFrom(arc: Arc, h: seq<seq<real>>, a: real, w: real, low: real, high: real, op: nat, k: nat) {
    var (x, y) := Part(Local(low, a, w), Local(high, low, w), op, k);
    ArcOf(arc, h, x, y)
  }

  /** Arc k of a piece is what `expected` promises. */
  ghost predicate EditedArc(arc: Arc, v: Curve, flat: seq<real>, period: real, q: Piece, op: nat, elevation: int,
                            k: nat)
    requires GoodCurve(v) && v.degree <= q.span && q.span + v.degree + 1 < |flat|
  {
    && Placed(arc, q.low, q.high, op, k, ArcDegree(v.degree, op, elevation)) && PositiveArc(arc)
    && ArcFrom(arc, SpanCurve(v, flat, q.span), flat[q.span] + Offset(q.turn, period), flat[q.span + 1] - flat[q.span],
               q.low, q.high, op, k)
    && (Shows(arc, SpanCurve(v, flat, q.span), flat[q.span] + Offset(q.turn, period), flat[q.span + 1] - flat[q.span],
              q.low, q.high, op, k)
        <==> Fits(SpanCurve(v, flat, q.span), arc.degree))
  }

  /** From the curve's degree up, it does show it. */
  lemma ElevatedShows(arc: Arc, v: Curve, flat: seq<real>, period: real, q: Piece, op: nat, elevation: int, k: nat)
    requires GoodCurve(v) && v.degree <= q.span && q.span + v.degree + 1 < |flat|
    requires EditedArc(arc, v, flat, period, q, op, elevation, k) && ArcDegree(v.degree, op, elevation) >= v.degree
    ensures Shows(arc, SpanCurve(v, flat, q.span), flat[q.span] +
      Offset(q.turn, period), flat[q.span + 1] - flat[q.span],
                  q.low, q.high, op, k)
  {
    hide Weighted, Coordinate, Shows, Offset;
  }

  /** The arcs are those of pieces that tile [first, last], piece by piece. */
  ghost predicate EditOf(arcs: seq<Arc>, pieces: seq<Piece>, v: Curve, flat: seq<real>, period: real, op: nat,
                         elevation: int) {
    && GoodCurve(v) && InSpans(pieces, flat, v.degree, period)
    && |arcs| == |pieces| * ArcCount(op)
    && forall i, k :: 0 <= i < |pieces| && 0 <= k < ArcCount(op) ==>
      ArcIndex(i, k, op) < |arcs| && EditedArc(arcs[ArcIndex(i, k, op)], v, flat, period, pieces[i], op, elevation, k)
  }

  /** Where the k-th arc of piece i stands. */
  function ArcIndex(i: nat, k: nat, op: nat): nat {
    i * ArcCount(op) + k
  }

  /** The assertion on the weights fails on one of the arcs of a piece. */
  ghost predicate PieceFails(v: Curve, flat: seq<real>, period: real, q: Piece, op: nat, elevation: int)
    requires GoodCurve(v) && v.degree <= q.span && q.span + v.degree + 1 < |flat| && Span(flat, q.span)
  {
    var a, w := flat[q.span] + Offset(q.turn, period), flat[q.span + 1] - flat[q.span];
    SomeArcFails(SpanCurve(v, flat, q.span), (q.low - a) / w, (q.high - q.low) / w, op,
      ArcDegree(v.degree, op, elevation))
  }

  lemma ArcIsFrom(arc: Arc, h: seq<seq<real>>, a: real, w: real, low: real, high: real, op: nat, k: nat)
    requires w > 0.0
    requires ArcOf(arc, h, Part((low - a) / w, (high - low) / w, op, k).0,
                   Part((low - a) / w, (high - low) / w, op, k).1)
    ensures ArcFrom(arc, h, a, w, low, high, op, k)
  {
    hide ArcOf, Part;
  }

  method PieceArcs(v: Curve, flat: seq<real>, start: real, end: real, q: Piece, op: nat, elevation: int)
    returns (r: Option<seq<Arc>>)
    requires GoodCurve(v)
    requires v.degree <= q.span && q.span + v.degree + 1 < |flat| && Span(flat, q.span) && q.low < q.high
    requires InSpan(q, flat, v.degree, end - start)
    ensures r.None? <==> PieceFails(v, flat, end - start, q, op, elevation)
    ensures ArcDegree(v.degree, op, elevation) >= v.degree ==> r.Some?
    ensures r.Some? ==> |r.value| == ArcCount(op)
    ensures r.Some? ==> forall k :: 0 <= k < |r.value| ==>
      EditedArc(r.value[k], v, flat, end - start, q, op, elevation, k)
  {
    hide BernsteinOf, Weighted, Coordinate, Part, Shows, Placed, PartOfUnit, Offset, AllPositive, ArcCount, BadWeights,
         Controls, Compose, Fits;
    var p := v.degree;
    var offset := Offset(q.turn, end - start);
    var a, b := flat[q.span], flat[q.span + 1];
    var h0 := Homogeneous(flat, q.span, p, Coordinate(v, 0));
    var h1 := Homogeneous(flat, q.span, p, Coordinate(v, 1));
    var h2 := Homogeneous(flat, q.span, p, Coordinate(v, 2));
    var h3 := Homogeneous(flat, q.span, p, Coordinate(v, 3));
    WeightCoordinate(v);
    HomogeneousWeightPositive(flat, q.span, p, v.weights);
    LocalPart(a + offset, b - a, q.low, q.high);
    var h := [h0, h1, h2, h3];
    assert h == SpanCurve(v, flat, q.span);
    assert q.low - a - offset == q.low - (a + offset);
    r := EditPiece(h, p, (q.low - a - offset) / (b - a), (q.high - q.low) / (b - a), q.low, q.high, op, elevation);
    if r.Some? {
      forall k | 0 <= k < |r.value|
        ensures EditedArc(r.value[k], v, flat, end - start, q, op, elevation, k)
      {
        ArcShows(r.value[k], h, a + offset, b - a, q.low, q.high, op, k);
        ArcIsFrom(r.value[k], h, a + offset, b - a, q.low, q.high, op, k);
      }
    }
  }

  ghost predicate SomeFails(v: Curve, flat: seq<real>, period: real, pieces: seq<Piece>, op: nat, elevation: int)
    requires GoodCurve(v) && Nondecreasing(flat)
  {
    exists i :: 0 <= i < |pieces| && FailsOn(v, flat, period, pieces[i], op, elevation)
  }

  ghost predicate FailsOn(v: Curve, flat: seq<real>, period: real, q: Piece, op: nat, elevation: int)
    requires GoodCurve(v) && Nondecreasing(flat)
  {
    v.degree <= q.span && q.span + v.degree + 1 < |flat| && Span(flat, q.span) &&
      PieceFails(v, flat, period, q, op, elevation)
  }

  /** What `expected` gives: its ValueError on the interval, its assertion on the weights, or the arcs. */
  datatype Outcome = BadInterval | NotPositive | Arcs(arcs: seq<Arc>)

  /** `expected` without its parsing: the arcs of pieces tiling [first, last], with positive weights. Each shows its
      part of the curve exactly if the curve there has no coefficient above the arc's degree, as it never has unless
      the elevation is below the curve's degree. */
  method Expected(v: Curve, flat: seq<real>, start: real, end: real, first: real, last: real, periodic: bool,
                  op: nat, elevation: int) returns (r: Outcome)
    requires GoodCurve(v) && Axis(flat, v.degree, start, end)
    ensures r.BadInterval? <==> first >= last || (!periodic && !(start <= first && last <= end))
    ensures r.NotPositive? ==> ArcDegree(v.degree, op, elevation) < v.degree
    ensures r.NotPositive? ==> exists pieces: seq<Piece> ::
      && CutInto(pieces, flat, v.degree, start, end, first, last)
      && SomeFails(v, flat, end - start, pieces, op, elevation)
    ensures r.Arcs? ==> exists pieces: seq<Piece> ::
      && CutInto(pieces, flat, v.degree, start, end, first, last)
      && !SomeFails(v, flat, end - start, pieces, op, elevation)
      && EditOf(r.arcs, pieces, v, flat, end - start, op, elevation)
  {
    hide Tiles, InSpan, Overlaps, EditedArc, ArcCount, PieceFails;
    var cut := Pieces(flat, v.degree, start, end, first, last, periodic);
    if cut.None? {
      return BadInterval;
    }
    var pieces, n := cut.value, ArcCount(op);
    AtLeastOne(op);
    var arcs := [];
    for i := 0 to |pieces|
      invariant EditOf(arcs, pieces[..i], v, flat, end - start, op, elevation)
      invariant forall j :: 0 <= j < i ==> !FailsOn(v, flat, end - start, pieces[j], op, elevation)
    {
      PieceInSpan(pieces, flat, v.degree, first, last, end - start, i);
      var more := PieceArcs(v, flat, start, end, pieces[i], op, elevation);
      if more.None? {
        assert FailsOn(v, flat, end - start, pieces[i], op, elevation);
        return NotPositive;
      }
      EditAppend(arcs, pieces[..i], more.value, pieces[i], v, flat, end - start, op, elevation);
      assert pieces[..i + 1] == pieces[..i] + [pieces[i]];
      arcs := arcs + more.value;
    }
    assert pieces[..|pieces|] == pieces;
    return Arcs(arcs);
  }

  /** The assertion of `expected`: one control point more than the degree, every weight positive. */
  ghost predicate PositiveArc(arc: Arc) {
    |arc.controls| == Count(arc.degree) &&
    forall i :: 0 <= i < |arc.controls| ==> |arc.controls[i]| == 4 && arc.controls[i][3] > 0.0
  }

  lemma WeightCoordinate(v: Curve)
    requires |v.poles| == |v.weights| && forall i :: 0 <= i < |v.poles| ==> |v.poles[i]| == 3
    ensures Coordinate(v, 3) == v.weights
  {
  }

  lemma AtLeastOne(op: nat)
    ensures 1 <= ArcCount(op) <= 2
  {
  }

  lemma EditAppend(arcs: seq<Arc>, pieces: seq<Piece>, more: seq<Arc>, q: Piece, v: Curve, flat: seq<real>,
                   period: real, op: nat, elevation: int)
    requires EditOf(arcs, pieces, v, flat, period, op, elevation) && |more| == ArcCount(op)
    requires InSpan(q, flat, v.degree, period)
    requires forall k :: 0 <= k < |more| ==> EditedArc(more[k], v, flat, period, q, op, elevation, k)
    ensures EditOf(arcs + more, pieces + [q], v, flat, period, op, elevation)
  {
    hide EditedArc, ArcCount, GoodCurve, Offset;
    var n, a, p := ArcCount(op), arcs + more, pieces + [q];
    AtLeastOne(op);
    assert |a| == |p| * n;
    forall i, k | 0 <= i < |p| && 0 <= k < n
      ensures ArcIndex(i, k, op) < |a| && EditedArc(a[ArcIndex(i, k, op)], v, flat, period, p[i], op, elevation, k)
    {
      IndexBounds(i, k, n, |pieces|);
      if i < |pieces| {
        assert a[ArcIndex(i, k, op)] == arcs[ArcIndex(i, k, op)];
      } else {
        assert a[ArcIndex(i, k, op)] == more[k];
      }
    }
  }

  lemma IndexBounds(i: nat, k: nat, n: nat, m: nat)
    requires 1 <= n <= 2 && k < n && i <= m
    ensures if i < m then i * n + k < m * n else i * n + k < (m + 1) * n && i * n + k - m * n == k
  {
    if n == 1 {
    } else {
    }
  }

  lemma PlacedEnds(arc: Arc, low: real, high: real, op: nat, k: nat, degree: int)
    requires Placed(arc, low, high, op, k, degree) && op != 1 && op != 5 && low < high && k < ArcCount(op)
    ensures arc.lo < arc.hi && (k == 0 ==> arc.lo == low) && (k == ArcCount(op) - 1 ==> arc.hi == high)
    ensures arc.hi == if k == ArcCount(op) - 1 then high else low + 0.375 * (high - low)
    ensures arc.lo == if k == 0 then low else low + 0.375 * (high - low)
  {
  }

  lemma EditedEnds(arcs: seq<Arc>, pieces: seq<Piece>, v: Curve, flat: seq<real>, period: real, op: nat, elevation: int,
                   first: real, last: real, i: nat, k: nat)
    requires Tiles(pieces, first, last) && EditOf(arcs, pieces, v, flat, period, op, elevation)
    requires op != 1 && op != 5 && i < |pieces| && k < ArcCount(op)
    ensures var low, high := pieces[i].low, pieces[i].high;
      && ArcIndex(i, k, op) < |arcs|
      && var arc := arcs[ArcIndex(i, k, op)];
        && arc.lo < arc.hi
        && arc.lo == (if k == 0 then low else low + 0.375 * (high - low))
        && arc.hi == (if k == ArcCount(op) - 1 then high else low + 0.375 * (high - low))
  {
    hide Shows, GoodCurve, Offset, ArcCount, ArcIndex, Placed;
    var arc := arcs[ArcIndex(i, k, op)];
    assert EditedArc(arc, v, flat, period, pieces[i], op, elevation, k);
    PlacedEnds(arc, pieces[i].low, pieces[i].high, op, k, ArcDegree(v.degree, op, elevation));
  }

  /** Unless the operation trims, the arcs follow one another from first to last: no gap, no overlap. */
  lemma ArcsTile(arcs: seq<Arc>, pieces: seq<Piece>, v: Curve, flat: seq<real>, period: real, op: nat, elevation: int,
                 first: real, last: real)
    requires Tiles(pieces, first, last) && EditOf(arcs, pieces, v, flat, period, op, elevation)
    requires op != 1 && op != 5 && first < last
    ensures arcs != [] && arcs[0].lo == first && arcs[|arcs| - 1].hi == last
    ensures forall j :: 0 <= j < |arcs| ==> arcs[j].lo < arcs[j].hi
    ensures forall j :: 0 <= j < |arcs| - 1 ==> arcs[j].hi == arcs[j + 1].lo
  {
    var n, m := ArcCount(op), |pieces|;
    hide EditOf, ArcCount;
    ArcNumber(arcs, pieces, v, flat, period, op, elevation);
    AtLeastOne(op);
    assert (m - 1) * n + n - 1 == m * n - 1;
    EditedEnds(arcs, pieces, v, flat, period, op, elevation, first, last, 0, 0);
    EditedEnds(arcs, pieces, v, flat, period, op, elevation, first, last, m - 1, n - 1);
    forall j | 0 <= j < |arcs|
      ensures arcs[j].lo < arcs[j].hi && (j + 1 < |arcs| ==> arcs[j].hi == arcs[j + 1].lo)
    {
      var i, k, i1, k1 := NextIndex(j, n, m);
      EditedEnds(arcs, pieces, v, flat, period, op, elevation, first, last, i, k);
      if j + 1 < |arcs| {
        EditedEnds(arcs, pieces, v, flat, period, op, elevation, first, last, i1, k1);
      }
    }
  }

  lemma ArcNumber(arcs: seq<Arc>, pieces: seq<Piece>, v: Curve, flat: seq<real>, period: real, op: nat, elevation: int)
    requires EditOf(arcs, pieces, v, flat, period, op, elevation)
    ensures |arcs| == |pieces| * ArcCount(op)
  {
  }

  lemma NextIndex(j: nat, n: nat, m: nat) returns (i: nat, k: nat, i1: nat, k1: nat)
    requires 1 <= n <= 2 && j < m * n
    ensures j == i * n + k && i < m && k < n
    ensures j + 1 < m * n ==> j + 1 == i1 * n + k1 && i1 < m && k1 < n
    ensures j + 1 < m * n ==> (i1 == i && k == 0 && k1 == 1 && n == 2) || (i1 == i + 1 && k == n - 1 && k1 == 0)
  {
    if n == 1 {
      i, k, i1, k1 := j, 0, j + 1, 0;
    } else {
      i, k, i1, k1 := j / 2, j % 2, (j + 1) / 2, (j + 1) % 2;
    }
  }

  lemma PieceInSpan(pieces: seq<Piece>, flat: seq<real>, p: nat, first: real, last: real, period: real, i: nat)
    requires Tiles(pieces, first, last) && InSpans(pieces, flat, p, period) && Nondecreasing(flat) && i < |pieces|
    ensures var q := pieces[i];
      && p <= q.span && q.span + p + 1 < |flat| && Span(flat, q.span) && q.low < q.high && InSpan(q, flat, p, period)
      && flat[q.span] + Offset(q.turn, period) <= q.low && q.high <= flat[q.span + 1] + Offset(q.turn, period)
  {
  }
}

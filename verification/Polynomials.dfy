/** Exact polynomials as lists of coefficients in ascending order, the lowest first. A polynomial
    is *canonical* when it has at least one coefficient and its last one is nonzero, except that
    zero is the list [0.0].  Every law below is read off the values the lists take: two canonical
    lists with the same value everywhere are the same list (`SameValuesSamePoly`). */
module Polynomials {
  import opened Reals

  predicate Canonical(p: seq<real>) {
    |p| >= 1 && (|p| > 1 ==> p[|p| - 1] != 0.0)
  }

  type Poly = p: seq<real> | Canonical(p) witness [0.0]

  const ZERO: Poly := [0.0]
  const ONE: Poly := [1.0]

  predicate IsZero(p: Poly) {
    p == ZERO
  }

  /** The degree of a canonical polynomial, -1 for zero (`pdeg`). */
  function Deg(p: Poly): int {
    if IsZero(p) then -1 else |p| - 1
  }

  function Lead(p: Poly): real {
    p[|p| - 1]
  }

  // ------------------------------------------------------------------ values

  /** The value at x. */
  function Eval(p: seq<real>, x: real): real {
    if p == [] then 0.0 else p[0] + Times(x, Eval(p[1..], x))
  }

  /** The value at x of the formal derivative. */
  function DEval(p: seq<real>, x: real): real {
    if p == [] then 0.0 else Eval(p[1..], x) + Times(x, DEval(p[1..], x))
  }

  lemma EvalCons(h: real, t: seq<real>, x: real)
    ensures Eval([h] + t, x) == h + Times(x, Eval(t, x))
    ensures DEval([h] + t, x) == Eval(t, x) + Times(x, DEval(t, x))
  {
    hide Times;
    assert ([h] + t)[1..] == t;
  }

  function Coef(p: seq<real>, i: nat): real {
    if i < |p| then p[i] else 0.0
  }

  function Zeros(n: nat): (z: seq<real>)
    ensures |z| == n && forall i :: 0 <= i < n ==> z[i] == 0.0
  {
    seq(n, i => 0.0)
  }

  lemma {:induction false} EvalZeros(n: nat, x: real)
    ensures Eval(Zeros(n), x) == 0.0 && DEval(Zeros(n), x) == 0.0
  {
    hide Times;
    TimesUnits(x);
    if n > 0 {
      assert Zeros(n)[1..] == Zeros(n - 1);
      EvalZeros(n - 1, x);
    }
  }

  lemma {:induction false} EvalConcat(p: seq<real>, q: seq<real>, x: real)
    ensures Eval(p + q, x) == Eval(p, x) + Times(Power(x, |p|), Eval(q, x))
  {
    hide Times;
    if p == [] {
      assert p + q == q;
      TimesUnits(Eval(q, x));
    } else {
      assert (p + q)[1..] == p[1..] + q;
      EvalConcat(p[1..], q, x);
      TimesAssociates(x, Power(x, |p| - 1), Eval(q, x));
      TimesSum(x, Eval(p[1..], x), Times(Power(x, |p| - 1), Eval(q, x)));
    }
  }

  lemma {:induction false} EvalUpdate(p: seq<real>, k: nat, v: real, x: real)
    requires k < |p|
    ensures Eval(p[k := v], x) == Eval(p, x) + Times(v - p[k], Power(x, k))
  {
    hide Times;
    if k == 0 {
      assert p[k := v][1..] == p[1..];
      TimesUnits(v - p[k]);
    } else {
      assert p[k := v][1..] == p[1..][k - 1 := v];
      EvalUpdate(p[1..], k - 1, v, x);
      TimesAssociates(x, v - p[k], Power(x, k - 1));
      TimesSum(x, Eval(p[1..], x), Times(v - p[k], Power(x, k - 1)));
    }
  }

  // ------------------------------------------------------------------ a list is its values

  /** p divided by x - r, without the remainder. */
  ghost function Quotient(p: seq<real>, r: real): seq<real> {
    if |p| <= 1 then [] else [Eval(p[1..], r)] + Quotient(p[1..], r)
  }

  lemma DivisionStep(x: real, r: real, u: real, v: real, w: real)
    requires u == v + Times(x - r, w)
    ensures Times(x, u) - Times(r, v) == Times(x - r, v + Times(x, w))
  {
  }

  lemma {:induction false} SyntheticDivision(p: seq<real>, r: real, x: real)
    ensures |p| >= 1 ==> |Quotient(p, r)| == |p| - 1
    ensures Eval(p, x) == Eval(p, r) + Times(x - r, Eval(Quotient(p, r), x))
  {
    hide Times;
    if |p| > 1 {
      var t := p[1..];
      SyntheticDivision(t, r, x);
      EvalCons(Eval(t, r), Quotient(t, r), x);
      DivisionStep(x, r, Eval(t, x), Eval(t, r), Eval(Quotient(t, r), x));
    } else {
      TimesUnits(x);
      TimesUnits(r);
      TimesUnits(x - r);
    }
  }

  ghost predicate AllZero(p: seq<real>) {
    forall i :: 0 <= i < |p| ==> p[i] == 0.0
  }

  lemma {:induction false} EvalAllZero(p: seq<real>, x: real)
    requires AllZero(p)
    ensures Eval(p, x) == 0.0
  {
    hide Times;
    TimesUnits(x);
    if p != [] {
      EvalAllZero(p[1..], x);
    }
  }

  lemma {:induction false} ZeroQuotient(p: seq<real>, r: real)
    requires AllZero(Quotient(p, r))
    ensures forall i :: 1 <= i < |p| ==> p[i] == 0.0
  {
    hide Times;
    if |p| > 1 {
      var t := p[1..];
      assert Quotient(p, r)[0] == Eval(t, r);
      assert Quotient(p, r)[1..] == Quotient(t, r);
      ZeroQuotient(t, r);
      EvalAllZero(t[1..], r);
      TimesUnits(r);
      assert t[0] == 0.0;
    }
  }

  /** A list that vanishes from r on is zero. */
  lemma {:induction false} VanishingIsZero(p: seq<real>, r: real)
    requires forall x: real :: x >= r ==> Eval(p, x) == 0.0
    ensures AllZero(p)
    decreases |p|
  {
    hide Times;
    if |p| >= 1 {
      var q := Quotient(p, r);
      SyntheticDivision(p, r, r);
      forall x: real | x >= r + 1.0
        ensures Eval(q, x) == 0.0
      {
        SyntheticDivision(p, r, x);
        assert Eval(p, x) == 0.0 && Eval(p, r) == 0.0;
        TimesZero(x - r, Eval(q, x));
      }
      VanishingIsZero(q, r + 1.0);
      ZeroQuotient(p, r);
      EvalAllZero(p[1..], r);
      TimesUnits(r);
      assert Eval(p, r) == 0.0;
    }
  }

  ghost predicate SameValues(p: seq<real>, q: seq<real>) {
    forall x: real :: Eval(p, x) == Eval(q, x)
  }

  function RawAdd(a: seq<real>, b: seq<real>): (c: seq<real>)
    ensures |c| == if |a| >= |b| then |a| else |b|
  {
    if a == [] then b else if b == [] then a else [a[0] + b[0]] + RawAdd(a[1..], b[1..])
  }

  function Scale(k: real, p: seq<real>): (r: seq<real>)
    ensures |r| == |p|
  {
    if p == [] then [] else [Times(k, p[0])] + Scale(k, p[1..])
  }

  lemma {:induction false} RawAddAt(a: seq<real>, b: seq<real>, i: nat)
    requires i < |RawAdd(a, b)|
    ensures RawAdd(a, b)[i] == Coef(a, i) + Coef(b, i)
  {
    if i > 0 && a != [] && b != [] {
      RawAddAt(a[1..], b[1..], i - 1);
    }
  }

  lemma {:induction false} ScaleAt(k: real, p: seq<real>, i: nat)
    requires i < |p|
    ensures Scale(k, p)[i] == Times(k, p[i])
  {
    hide Times;
    if i > 0 {
      ScaleAt(k, p[1..], i - 1);
    }
  }

  lemma {:induction false} EvalRawAdd(a: seq<real>, b: seq<real>, x: real)
    ensures Eval(RawAdd(a, b), x) == Eval(a, x) + Eval(b, x)
    ensures DEval(RawAdd(a, b), x) == DEval(a, x) + DEval(b, x)
  {
    hide Times;
    if a != [] && b != [] {
      EvalRawAdd(a[1..], b[1..], x);
      EvalCons(a[0] + b[0], RawAdd(a[1..], b[1..]), x);
      TimesSum(x, Eval(a[1..], x), Eval(b[1..], x));
      TimesSum(x, DEval(a[1..], x), DEval(b[1..], x));
    }
  }

  lemma {:induction false} EvalScale(k: real, p: seq<real>, x: real)
    ensures Eval(Scale(k, p), x) == Times(k, Eval(p, x))
    ensures DEval(Scale(k, p), x) == Times(k, DEval(p, x))
  {
    hide Times;
    if p == [] {
      TimesUnits(k);
    } else {
      EvalCons(Times(k, p[0]), Scale(k, p[1..]), x);
      EvalScale(k, p[1..], x);
      var e, d := Eval(p[1..], x), DEval(p[1..], x);
      TimesAssociates(x, k, e);
      TimesAssociates(x, k, d);
      TimesSum(k, p[0], Times(x, e));
      TimesSum(k, e, Times(x, d));
    }
  }

  /** Lists of one length with the same values are one list. */
  lemma SameValuesSameList(p: seq<real>, q: seq<real>)
    requires |p| == |q| && SameValues(p, q)
    ensures p == q
  {
    hide Times;
    var n := Scale(-1.0, q);
    var d := RawAdd(p, n);
    forall x: real
      ensures Eval(d, x) == 0.0
    {
      EvalRawAdd(p, n, x);
      EvalScale(-1.0, q, x);
      TimesUnits(Eval(q, x));
      assert Eval(p, x) == Eval(q, x);
    }
    VanishingIsZero(d, 0.0);
    forall i | 0 <= i < |p|
      ensures p[i] == q[i]
    {
      RawAddAt(p, n, i);
      ScaleAt(-1.0, q, i);
      TimesUnits(q[i]);
      assert d[i] == 0.0;
    }
  }

  lemma EvalPadded(p: seq<real>, n: nat, x: real)
    ensures Eval(p + Zeros(n), x) == Eval(p, x)
  {
    hide Times;
    EvalConcat(p, Zeros(n), x);
    EvalZeros(n, x);
    TimesUnits(Power(x, |p|));
  }

  lemma SameValuesSamePoly(p: Poly, q: Poly)
    requires SameValues(p, q)
    ensures p == q
  {
    var n := if |p| >= |q| then |p| else |q|;
    var p', q' := p + Zeros(n - |p|), q + Zeros(n - |q|);
    forall x: real
      ensures Eval(p', x) == Eval(q', x)
    {
      EvalPadded(p, n - |p|, x);
      EvalPadded(q, n - |q|, x);
      assert Eval(p, x) == Eval(q, x);
    }
    SameValuesSameList(p', q');
    assert p'[n - 1] == q'[n - 1];
    assert |p| == |q|;
    assert p == p'[..n] && q == q'[..n];
  }

  // ------------------------------------------------------------------ trimming

  /** The list without its trailing zeros; one coefficient always stays. */
  function Trim(c: seq<real>): (r: seq<real>)
    ensures |r| <= |c|
    ensures |c| >= 1 ==> Canonical(r)
    ensures Canonical(c) ==> r == c
  {
    if |c| > 1 && c[|c| - 1] == 0.0 then Trim(c[..|c| - 1]) else c
  }

  lemma {:induction false} DropLastZero(c: seq<real>, x: real)
    requires |c| >= 1 && c[|c| - 1] == 0.0
    ensures Eval(c[..|c| - 1], x) == Eval(c, x)
    ensures DEval(c[..|c| - 1], x) == DEval(c, x)
  {
    hide Times;
    TimesUnits(x);
    var d := c[..|c| - 1];
    if |c| == 1 {
      assert c[1..] == [];
    } else {
      assert d[1..] == c[1..][..|c[1..]| - 1];
      DropLastZero(c[1..], x);
    }
  }

  lemma {:induction false} EvalTrim(c: seq<real>, x: real)
    ensures Eval(Trim(c), x) == Eval(c, x)
    ensures DEval(Trim(c), x) == DEval(c, x)
  {
    if |c| > 1 && c[|c| - 1] == 0.0 {
      DropLastZero(c, x);
      EvalTrim(c[..|c| - 1], x);
    }
  }

  /** `ptrim`: pop trailing zeros while more than one coefficient is left. */
  method PTrim(c: seq<real>) returns (r: seq<real>)
    ensures r == Trim(c)
    ensures |c| >= 1 ==> Canonical(r)
    ensures SameValues(r, c)
  {
    r := c;
    while |r| > 1 && r[|r| - 1] == 0.0
      invariant Trim(r) == Trim(c)
      decreases |r|
    {
      r := r[..|r| - 1];
    }
    forall x: real ensures Eval(r, x) == Eval(c, x) { EvalTrim(c, x); }
  }

  /** `peval`: Horner's rule from the highest coefficient down. */
  method PEval(c: seq<real>, t: real) returns (out: real)
    ensures out == Eval(c, t)
  {
    out := 0.0;
    var k := |c|;
    while k > 0
      invariant 0 <= k <= |c|
      invariant out == Eval(c[k..], t)
    {
      k := k - 1;
      assert c[k..][1..] == c[k + 1..];
      out := out * t + c[k];
    }
    assert c[0..] == c;
  }

  // ------------------------------------------------------------------ sums, products, derivatives

  /** `padd` */
  function Add(a: Poly, b: Poly): Poly {
    Trim(RawAdd(a, b))
  }

  function Neg(a: Poly): Poly {
    ScaleAt(-1.0, a, |a| - 1);
    TimesUnits(a[|a| - 1]);
    Scale(-1.0, a)
  }

  /** `psub` */
  function Sub(a: Poly, b: Poly): Poly {
    Add(a, Neg(b))
  }

  /** The convolution of two lists, of length |a| + |b| - 1. */
  function RawMul(a: seq<real>, b: seq<real>): (c: seq<real>)
    requires |b| >= 1
    ensures |c| == |a| + |b| - 1
  {
    if a == [] then Zeros(|b| - 1)
    else RawAdd(Scale(a[0], b), [0.0] + RawMul(a[1..], b))
  }

  function Mul(a: Poly, b: Poly): Poly {
    Trim(RawMul(a, b))
  }

  /** k c[k] at k - 1. */
  function RawDer(c: seq<real>): (d: seq<real>)
    ensures |d| == if |c| >= 1 then |c| - 1 else 0
    ensures forall i :: 0 <= i < |d| ==> d[i] == Times((i + 1) as real, c[i + 1])
  {
    seq(if |c| >= 1 then |c| - 1 else 0, i requires 0 <= i < |c| - 1 => Times((i + 1) as real, c[i + 1]))
  }

  /** `pder` */
  function Der(c: seq<real>): Poly {
    if |c| <= 1 then ZERO else Trim(RawDer(c))
  }

  lemma EvalAdd(a: Poly, b: Poly, x: real)
    ensures Eval(Add(a, b), x) == Eval(a, x) + Eval(b, x)
    ensures DEval(Add(a, b), x) == DEval(a, x) + DEval(b, x)
  {
    EvalTrim(RawAdd(a, b), x);
    EvalRawAdd(a, b, x);
  }

  lemma EvalNeg(a: Poly, x: real)
    ensures Eval(Neg(a), x) == -Eval(a, x)
    ensures DEval(Neg(a), x) == -DEval(a, x)
  {
    hide Times;
    EvalScale(-1.0, a, x);
    TimesUnits(Eval(a, x));
    TimesUnits(DEval(a, x));
  }

  lemma EvalSub(a: Poly, b: Poly, x: real)
    ensures Eval(Sub(a, b), x) == Eval(a, x) - Eval(b, x)
    ensures DEval(Sub(a, b), x) == DEval(a, x) - DEval(b, x)
  {
    EvalNeg(b, x);
    EvalAdd(a, Neg(b), x);
  }

  lemma EvalRawMulUnfold(a: seq<real>, b: seq<real>, t: seq<real>, x: real)
    requires |a| >= 1 && |b| >= 1 && t == RawMul(a[1..], b)
    ensures Eval(RawMul(a, b), x) == Times(a[0], Eval(b, x)) + Times(x, Eval(t, x))
    ensures DEval(RawMul(a, b), x) == Times(a[0], DEval(b, x)) + (Eval(t, x) + Times(x, DEval(t, x)))
  {
    hide Times;
    EvalScale(a[0], b, x);
    EvalCons(0.0, t, x);
    EvalRawAdd(Scale(a[0], b), [0.0] + t, x);
  }

  lemma ProductStep(k: real, e: real, f: real, t: real, a: real, x: real)
    requires t == Times(e, f) && a == k + Times(x, e)
    ensures Times(k, f) + Times(x, t) == Times(a, f)
  {
  }

  lemma LeibnizStep(k: real, e: real, d: real, f: real, g: real, t: real, u: real, a: real, c: real, x: real)
    requires t == Times(e, f) && u == Times(d, f) + Times(e, g)
    requires a == k + Times(x, e) && c == e + Times(x, d)
    ensures Times(k, g) + (t + Times(x, u)) == Times(c, f) + Times(a, g)
  {
  }

  /** Values multiply, and their derivatives follow Leibniz's rule. */
  lemma {:induction false} EvalRawMul(a: seq<real>, b: seq<real>, x: real)
    requires |b| >= 1
    ensures Eval(RawMul(a, b), x) == Times(Eval(a, x), Eval(b, x))
    ensures DEval(RawMul(a, b), x) == Times(DEval(a, x), Eval(b, x)) + Times(Eval(a, x), DEval(b, x))
  {
    hide Times;
    if a == [] {
      EvalZeros(|b| - 1, x);
      TimesUnits(Eval(b, x));
      TimesUnits(DEval(b, x));
    } else {
      var t := RawMul(a[1..], b);
      EvalRawMul(a[1..], b, x);
      EvalRawMulUnfold(a, b, t, x);
      ProductStep(a[0], Eval(a[1..], x), Eval(b, x), Eval(t, x), Eval(a, x), x);
      LeibnizStep(a[0], Eval(a[1..], x), DEval(a[1..], x), Eval(b, x), DEval(b, x),
                  Eval(t, x), DEval(t, x), Eval(a, x), DEval(a, x), x);
    }
  }

  lemma EvalMul(a: Poly, b: Poly, x: real)
    ensures Eval(Mul(a, b), x) == Times(Eval(a, x), Eval(b, x))
    ensures DEval(Mul(a, b), x) == Times(DEval(a, x), Eval(b, x)) + Times(Eval(a, x), DEval(b, x))
  {
    hide Times;
    EvalTrim(RawMul(a, b), x);
    EvalRawMul(a, b, x);
  }

  lemma RawDerStep(c: seq<real>)
    requires |c| >= 2
    ensures RawDer(c) == RawAdd(c[1..], [0.0] + RawDer(c[1..]))
  {
    hide Times;
    var t, s := c[1..], [0.0] + RawDer(c[1..]);
    forall i | 0 <= i < |t|
      ensures RawDer(c)[i] == RawAdd(t, s)[i]
    {
      RawAddAt(t, s, i);
      TimesUnits(t[i]);
      TimesSum(t[i], i as real, 1.0);
      assert (i + 1) as real == i as real + 1.0;
      assert s[i] == Times(i as real, t[i]);
    }
  }

  lemma {:induction false} EvalRawDer(c: seq<real>, x: real)
    ensures Eval(RawDer(c), x) == DEval(c, x)
  {
    hide Times;
    TimesUnits(x);
    if |c| == 1 {
      assert c[1..] == [] && RawDer(c) == [];
    } else if |c| >= 2 {
      var t := c[1..];
      EvalRawDer(t, x);
      EvalCons(0.0, RawDer(t), x);
      RawDerStep(c);
      EvalRawAdd(t, [0.0] + RawDer(t), x);
    }
  }

  /** The derivative polynomial takes the derivative's values. */
  lemma EvalDer(c: seq<real>, x: real)
    ensures Eval(Der(c), x) == DEval(c, x)
  {
    hide Times;
    TimesUnits(x);
    if |c| <= 1 {
      if |c| == 1 {
        assert c[1..] == [];
      }
      EvalZeros(1, x);
      assert ZERO[1..] == [];
    } else {
      EvalRawDer(c, x);
      EvalTrim(RawDer(c), x);
    }
  }

  lemma {:induction false} RawMulLast(a: seq<real>, b: seq<real>)
    requires |a| >= 1 && |b| >= 1
    ensures RawMul(a, b)[|a| + |b| - 2] == Times(a[|a| - 1], b[|b| - 1])
  {
    hide Times, Scale, RawAdd;
    var p, q := Scale(a[0], b), [0.0] + RawMul(a[1..], b);
    var k := |a| + |b| - 2;
    assert RawMul(a, b) == RawAdd(p, q);
    hide RawMul;
    RawAddAt(p, q, k);
    if |a| == 1 {
      ScaleAt(a[0], b, k);
    } else {
      RawMulLast(a[1..], b);
      assert q[k] == RawMul(a[1..], b)[k - 1];
    }
  }

  /** Degrees add; a product vanishes only with a factor. */
  lemma MulDegree(a: Poly, b: Poly)
    ensures IsZero(Mul(a, b)) <==> IsZero(a) || IsZero(b)
    ensures !IsZero(a) && !IsZero(b) ==>
      Deg(Mul(a, b)) == Deg(a) + Deg(b) && Lead(Mul(a, b)) == Times(Lead(a), Lead(b))
  {
    hide Times;
    if IsZero(a) || IsZero(b) {
      forall x: real
        ensures Eval(Mul(a, b), x) == Eval(ZERO, x)
      {
        EvalMul(a, b, x);
        EvalAllZero(ZERO, x);
        TimesUnits(Eval(a, x));
        TimesUnits(Eval(b, x));
      }
      SameValuesSamePoly(Mul(a, b), ZERO);
    } else {
      TimesZero(Lead(a), Lead(b));
      RawMulLast(a, b);
      assert Canonical(RawMul(a, b));
    }
  }

  lemma DerDegree(a: Poly)
    ensures Deg(a) <= 0 ==> Der(a) == ZERO
    ensures Deg(a) >= 1 ==> Deg(Der(a)) == Deg(a) - 1
  {
    hide Times;
    if Deg(a) >= 1 {
      assert RawDer(a)[|a| - 2] == Times((|a| - 1) as real, Lead(a));
      TimesZero((|a| - 1) as real, Lead(a));
      assert Canonical(RawDer(a));
    }
  }
}

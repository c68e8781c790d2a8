/** Multiplication, long division and Euclid's algorithm as loops over coefficient lists. */
module PolynomialDivision {
  import opened Reals
  import opened Polynomials
  import opened Divisibility

  lemma EvalPrefixStep(b: seq<real>, j: nat, x: real)
    requires j < |b|
    ensures Eval(b[..j + 1], x) == Eval(b[..j], x) + Times(Power(x, j), b[j])
  {
    hide Times;
    assert b[..j + 1] == b[..j] + [b[j]];
    EvalConcat(b[..j], [b[j]], x);
    EvalCons(b[j], [], x);
    assert [b[j]] == [b[j]] + [];
    TimesUnits(x);
  }

  lemma {:induction false} PowerSum(x: real, m: nat, n: nat)
    ensures Power(x, m + n) == Times(Power(x, m), Power(x, n))
  {
    hide Times;
    if m == 0 {
      TimesUnits(Power(x, n));
    } else {
      PowerSum(x, m - 1, n);
      TimesAssociates(x, Power(x, m - 1), Power(x, n));
    }
  }

  /** x^k f p at a point. */
  ghost function Shifted(f: real, k: nat, p: seq<real>, x: real): real {
    Times(Times(f, Power(x, k)), Eval(p, x))
  }

  lemma ShiftedStep(f: real, k: nat, b: seq<real>, j: nat, x: real)
    requires j < |b|
    ensures Shifted(f, k, b[..j + 1], x) == Shifted(f, k, b[..j], x) + Times(Times(f, b[j]), Power(x, k + j))
  {
    hide Times;
    EvalPrefixStep(b, j, x);
    PowerSum(x, k, j);
    var p, q := Power(x, k), Power(x, j);
    TimesSum(Times(f, p), Eval(b[..j], x), Times(q, b[j]));
    TimesAssociates(Times(f, p), q, b[j]);
    TimesAssociates(f, p, q);
    TimesAssociates(f, Times(p, q), b[j]);
    TimesCommutes(Times(p, q), b[j]);
    TimesAssociates(f, b[j], Times(p, q));
  }

  /** Out of one row of a convolution: the sum so far, one more term. */
  lemma ConvolutionStep(out: seq<real>, f: real, k: nat, b: seq<real>, j: nat, x: real, before: real)
    requires k + j < |out| && j < |b|
    requires Eval(out, x) == before + Shifted(f, k, b[..j], x)
    ensures Eval(out[k + j := out[k + j] + Times(f, b[j])], x) == before + Shifted(f, k, b[..j + 1], x)
  {
    hide Times, Shifted;
    EvalUpdate(out, k + j, out[k + j] + Times(f, b[j]), x);
    ShiftedStep(f, k, b, j, x);
  }

  /** `pmul`: the rows of the convolution, one coefficient of a at a time. */
  method PMul(a: seq<real>, b: seq<real>) returns (c: seq<real>)
    requires |a| >= 1 && |b| >= 1
    ensures Canonical(c)
    ensures forall x: real :: Eval(c, x) == Times(Eval(a, x), Eval(b, x))
    ensures Canonical(a) && Canonical(b) ==> c == Mul(a, b)
  {
    hide Times, Eval, Power, Shifted;
    var out := Zeros(|a| + |b| - 1);
    forall x: real
      ensures Eval(out, x) == Times(Eval(a[..0], x), Eval(b, x))
    {
      ConvolutionStart(|a| + |b| - 1, a, b, x);
    }
    for i := 0 to |a|
      invariant |out| == |a| + |b| - 1
      invariant forall x: real :: Eval(out, x) == Times(Eval(a[..i], x), Eval(b, x))
    {
      if a[i] != 0.0 {
        out := MulRow(out, a[i], i, b);
      }
      forall x: real
        ensures Eval(out, x) == Times(Eval(a[..i + 1], x), Eval(b, x))
      {
        RowDone(a, i, b, x);
      }
    }
    assert a[..|a|] == a;
    c := PTrim(out);
    if Canonical(a) && Canonical(b) {
      forall x: real
        ensures Eval(c, x) == Eval(Mul(a, b), x)
      {
        EvalMul(a, b, x);
      }
      SameValuesSamePoly(c, Mul(a, b));
    }
  }

  lemma ConvolutionStart(n: nat, a: seq<real>, b: seq<real>, x: real)
    ensures Eval(Zeros(n), x) == Times(Eval(a[..0], x), Eval(b, x))
  {
    EvalZeros(n, x);
    TimesUnits(Eval(b, x));
  }

  lemma RowDone(a: seq<real>, i: nat, b: seq<real>, x: real)
    requires i < |a|
    ensures Times(Eval(a[..i + 1], x), Eval(b, x)) == Times(Eval(a[..i], x), Eval(b, x)) + Shifted(a[i], i, b, x)
    ensures a[i] == 0.0 ==> Shifted(a[i], i, b, x) == 0.0
  {
    hide Times;
    EvalPrefixStep(a, i, x);
    TimesSum(Eval(b, x), Eval(a[..i], x), Times(Power(x, i), a[i]));
    TimesCommutes(a[i], Power(x, i));
    TimesUnits(Power(x, i));
    TimesUnits(Eval(b, x));
  }

  /** The inner loop of `pmul`: add f x^k b in place. */
  method MulRow(row: seq<real>, f: real, k: nat, b: seq<real>) returns (out: seq<real>)
    requires k + |b| <= |row|
    ensures |out| == |row|
    ensures forall x: real :: Eval(out, x) == Eval(row, x) + Shifted(f, k, b, x)
  {
    hide Eval, Power, Shifted;
    out := row;
    forall x: real ensures Shifted(f, k, b[..0], x) == 0.0 { ShiftedEmpty(f, k, b, x); }
    for j := 0 to |b|
      invariant |out| == |row|
      invariant forall x: real :: Eval(out, x) == Eval(row, x) + Shifted(f, k, b[..j], x)
    {
      ghost var was := out;
      out := out[k + j := out[k + j] + f * b[j]];
      forall x: real
        ensures Eval(out, x) == Eval(row, x) + Shifted(f, k, b[..j + 1], x)
      {
        ConvolutionStep(was, f, k, b, j, x, Eval(row, x));
      }
    }
    assert b[..|b|] == b;
  }

  lemma ShiftedEmpty(f: real, k: nat, b: seq<real>, x: real)
    ensures Shifted(f, k, b[..0], x) == 0.0
  {
  }

  // ------------------------------------------------------------------ long division

  lemma LeadingQuotient(u: real, v: real)
    requires v != 0.0
    ensures (u / v) * v == u
  {
  }

  lemma Reciprocal(v: real)
    requires v != 0.0
    ensures Times(v, 1.0 / v) == 1.0 && Times(1.0 / v, v) == 1.0
  {
  }

  /** The inner loop of `pdivmod`: subtract f x^k b in place. */
  method SubtractShifted(r: seq<real>, f: real, k: nat, b: seq<real>) returns (out: seq<real>)
    requires k + |b| == |r| && |b| >= 1
    ensures |out| == |r|
    ensures out[|r| - 1] == r[|r| - 1] - f * b[|b| - 1]
    ensures forall x: real :: Eval(out, x) == Eval(r, x) - Shifted(f, k, b, x)
  {
    hide Eval, Power, Shifted;
    out := r;
    var g := -f;
    forall x: real ensures Shifted(g, k, b[..0], x) == 0.0 { ShiftedEmpty(g, k, b, x); }
    for i := 0 to |b|
      invariant |out| == |r|
      invariant out[|r| - 1] == if i == |b| then r[|r| - 1] - f * b[|b| - 1] else r[|r| - 1]
      invariant forall x: real :: Eval(out, x) == Eval(r, x) + Shifted(g, k, b[..i], x)
    {
      ghost var was := out;
      out := out[i + k := out[i + k] - f * b[i]];
      NegativeFactor(f, b[i]);
      forall x: real
        ensures Eval(out, x) == Eval(r, x) + Shifted(g, k, b[..i + 1], x)
      {
        ConvolutionStep(was, g, k, b, i, x, Eval(r, x));
      }
    }
    assert b[..|b|] == b;
    forall x: real ensures Eval(out, x) == Eval(r, x) - Shifted(f, k, b, x) { ShiftedNegative(f, k, b, x); }
  }

  lemma NegativeFactor(f: real, c: real)
    ensures Times(-f, c) == -(f * c)
  {
  }

  lemma ShiftedNegative(f: real, k: nat, b: seq<real>, x: real)
    ensures Shifted(-f, k, b, x) == -Shifted(f, k, b, x)
  {
    hide Eval, Power;
    TimesNegative(f, Power(x, k));
    TimesNegative(Times(f, Power(x, k)), Eval(b, x));
  }

  lemma TimesNegative(x: real, y: real)
    ensures Times(-x, y) == -Times(x, y)
  {
  }

  /** a == q b + r at a point, when f x^k b moves from the remainder to the quotient. */
  lemma DivisionMove(a: real, q: seq<real>, b: seq<real>, r: real, f: real, k: nat, x: real)
    requires k < |q| && q[k] == 0.0
    requires a == Times(Eval(q, x), Eval(b, x)) + r
    ensures a == Times(Eval(q[k := f], x), Eval(b, x)) + (r - Shifted(f, k, b, x))
  {
    hide Times;
    EvalUpdate(q, k, f, x);
    TimesSum(Eval(b, x), Eval(q, x), Times(f, Power(x, k)));
  }

  /** `pdivmod`: quotient and remainder. A zero divisor is a division by zero in the source unless the
      dividend is zero as well. */
  method PDivMod(a0: seq<real>, b0: seq<real>) returns (q: Poly, r: Poly)
    requires |a0| >= 1 && |b0| >= 1
    requires Trim(b0) == ZERO ==> Trim(a0) == ZERO
    ensures Trim(a0) == Add(Mul(q, Trim(b0)), r)
    ensures Trim(b0) != ZERO ==> Deg(r) < Deg(Trim(b0))
  {
    hide Times, Eval, Power, Shifted;
    var a := PTrim(a0);
    var b := PTrim(b0);
    if |a| < |b| {
      q, r := [0.0], a;
      MulUnits(b);
      AddZero(a);
      return;
    }
    var quotient := Zeros(|a| - |b| + 1);
    var rest: seq<real> := a;
    forall x: real
      ensures Eval(a, x) == Times(Eval(quotient, x), Eval(b, x)) + Eval(rest, x)
    {
      ConvolutionStart(|quotient|, a, b, x);
      assert a[..0] == Zeros(0);
      EvalZeros(0, x);
      TimesUnits(Eval(b, x));
      EvalZeros(|quotient|, x);
    }
    while |rest| >= |b| && Deg(rest) >= 0
      invariant Canonical(rest) && |rest| <= |a|
      invariant |quotient| == |a| - |b| + 1
      invariant forall j :: 0 <= j < |quotient| && j + |b| <= Deg(rest) + 1 ==> quotient[j] == 0.0
      invariant forall x: real :: Eval(a, x) == Times(Eval(quotient, x), Eval(b, x)) + Eval(rest, x)
      decreases |rest|, Deg(rest)
    {
      var k := |rest| - |b|;
      assert b[|b| - 1] != 0.0;
      var f := rest[|rest| - 1] / b[|b| - 1];
      LeadingQuotient(rest[|rest| - 1], b[|b| - 1]);
      ghost var was := rest;
      var out := SubtractShifted(rest, f, k, b);
      assert out[|out| - 1] == 0.0;
      forall x: real
        ensures Eval(a, x) == Times(Eval(quotient[k := f], x), Eval(b, x)) + Eval(out, x)
      {
        DivisionMove(Eval(a, x), quotient, b, Eval(was, x), f, k, x);
      }
      quotient := quotient[k := f];
      rest := out[..|out| - 1];
      forall x: real
        ensures Eval(rest, x) == Eval(out, x)
      {
        DropLastZero(out, x);
      }
      var popped := rest;
      if rest == [] {
        rest := [0.0];
        assert Zeros(1) == [0.0] && Zeros(0) == popped;
        forall x: real
          ensures Eval([0.0], x) == Eval(popped, x)
        {
          EvalZeros(1, x);
          EvalZeros(0, x);
        }
      } else {
        rest := PTrim(rest);
      }
      assert forall x: real :: Eval(rest, x) == Eval(popped, x);
      assert Canonical(rest);
    }
    q := PTrim(quotient);
    r := rest;
    forall x: real
      ensures Eval(a, x) == Eval(Add(Mul(q, b), r), x)
    {
      EvalMul(q, b, x);
      EvalAdd(Mul(q, b), r, x);
    }
    SameAtEveryPoint(a, Add(Mul(q, b), r));
  }

  /** A divisor leaves no remainder. */
  lemma ExactQuotient(a: Poly, b: Poly, q: Poly, r: Poly)
    requires !IsZero(b) && Divides(b, a)
    requires a == Add(Mul(q, b), r) && Deg(r) < Deg(b)
    ensures IsZero(r) && a == Mul(q, b)
  {
    DividesItself(b);
    DividesMultiple(b, b, q);
    DividesOther(b, Mul(q, b), r);
    if !IsZero(r) {
      DivisorDegree(b, r);
    }
    hide Mul, Add;
    AddZero(Mul(q, b));
  }

  /** Quotient and remainder are determined. */
  lemma DivisionUnique(b: Poly, q: Poly, r: Poly, q': Poly, r': Poly)
    requires Add(Mul(q, b), r) == Add(Mul(q', b), r')
    requires Deg(r) < Deg(b) && Deg(r') < Deg(b)
    ensures q == q' && r == r'
  {
    hide Mul, Add, Sub;
    var d, e := Sub(q, q'), Sub(r', r);
    assert Mul(d, b) == e by {
      forall x: real
        ensures Eval(Mul(d, b), x) == Eval(e, x)
      {
        DivisionDifference(b, q, r, q', r', x);
      }
      SameAtEveryPoint(Mul(d, b), e);
    }
    MulDegree(d, b);
    SubDegree(r', r);
    AddSub(q, q');
    AddSub(r', r);
    AddZero(q');
    AddZero(r);
  }

  lemma DivisionDifference(b: Poly, q: Poly, r: Poly, q': Poly, r': Poly, x: real)
    requires Add(Mul(q, b), r) == Add(Mul(q', b), r')
    ensures Eval(Mul(Sub(q, q'), b), x) == Eval(Sub(r', r), x)
  {
    hide *;
    EvalMul(q, b, x);
    EvalMul(q', b, x);
    EvalAdd(Mul(q, b), r, x);
    EvalAdd(Mul(q', b), r', x);
    EvalSub(q, q', x);
    EvalSub(r', r, x);
    EvalMul(Sub(q, q'), b, x);
    TimesDifference(Eval(b, x), Eval(q, x), Eval(q', x));
  }

  lemma SubDegree(a: Poly, b: Poly)
    ensures Deg(Sub(a, b)) <= if Deg(a) >= Deg(b) then Deg(a) else Deg(b)
  {
    var s := RawAdd(a, Neg(b));
    TrimShortens(s);
    assert |Sub(a, b)| <= |s|;
    if IsZero(a) && IsZero(b) {
      RawAddAt(a, Neg(b), 0);
      ScaleAt(-1.0, b, 0);
      assert s == [0.0];
    }
  }

  lemma TrimShortens(c: seq<real>)
    ensures |Trim(c)| <= |c|
  {
  }

  // ------------------------------------------------------------------ the greatest common divisor

  lemma CombinationIntro(s: Poly, t: Poly, c: Poly, a: Poly, b: Poly)
    requires Add(Mul(s, a), Mul(t, b)) == c
    ensures Combination(c, a, b)
  {
  }

  lemma CombinationEnds(a: Poly, b: Poly)
    ensures Combination(a, a, b) && Combination(b, a, b)
  {
    hide Mul, Add;
    MulUnits(a);
    MulUnits(b);
    AddZero(a);
    AddZero(b);
    CombinationIntro(ONE, ZERO, a, a, b);
    CombinationIntro(ZERO, ONE, b, a, b);
  }

  /** u - q v is a combination of a and b when u and v are. */
  lemma CombinationRemainder(u: Poly, v: Poly, q: Poly, r: Poly, a: Poly, b: Poly)
    requires Combination(u, a, b) && Combination(v, a, b) && u == Add(Mul(q, v), r)
    ensures Combination(r, a, b)
  {
    hide Mul, Add, Sub;
    var s: Poly, t: Poly :| Add(Mul(s, a), Mul(t, b)) == u;
    var s', t': Poly :| Add(Mul(s', a), Mul(t', b)) == v;
    var m, n := Sub(s, Mul(q, s')), Sub(t, Mul(q, t'));
    forall x: real
      ensures Eval(Add(Mul(m, a), Mul(n, b)), x) == Eval(r, x)
    {
      RemainderValue(u, v, q, r, a, b, s, t, s', t', x);
    }
    SameAtEveryPoint(Add(Mul(m, a), Mul(n, b)), r);
    CombinationIntro(m, n, r, a, b);
  }

  lemma RemainderArithmetic(u: real, v: real, q: real, r: real, a: real, b: real, s: real, t: real, s': real, t': real)
    requires u == Times(q, v) + r
    requires u == Times(s, a) + Times(t, b) && v == Times(s', a) + Times(t', b)
    ensures Times(s - Times(q, s'), a) + Times(t - Times(q, t'), b) == r
  {
  }

  lemma RemainderValue(u: Poly, v: Poly, q: Poly, r: Poly, a: Poly, b: Poly,
                       s: Poly, t: Poly, s': Poly, t': Poly, x: real)
    requires Add(Mul(s, a), Mul(t, b)) == u && Add(Mul(s', a), Mul(t', b)) == v
    requires u == Add(Mul(q, v), r)
    ensures Eval(Add(Mul(Sub(s, Mul(q, s')), a), Mul(Sub(t, Mul(q, t')), b)), x) == Eval(r, x)
  {
    hide *;
    var m, n := Sub(s, Mul(q, s')), Sub(t, Mul(q, t'));
    EvalAdd(Mul(s, a), Mul(t, b), x);
    EvalMul(s, a, x);
    EvalMul(t, b, x);
    EvalAdd(Mul(s', a), Mul(t', b), x);
    EvalMul(s', a, x);
    EvalMul(t', b, x);
    EvalAdd(Mul(q, v), r, x);
    EvalMul(q, v, x);
    EvalSub(s, Mul(q, s'), x);
    EvalMul(q, s', x);
    EvalSub(t, Mul(q, t'), x);
    EvalMul(q, t', x);
    EvalAdd(Mul(m, a), Mul(n, b), x);
    EvalMul(m, a, x);
    EvalMul(n, b, x);
    RemainderArithmetic(Eval(u, x), Eval(v, x), Eval(q, x), Eval(r, x), Eval(a, x), Eval(b, x),
                        Eval(s, x), Eval(t, x), Eval(s', x), Eval(t', x));
  }

  /** Division by a nonzero constant, as a product. */
  lemma ScaledPoly(k: real, a: Poly)
    requires k != 0.0
    ensures Canonical(Scale(k, a)) && Scale(k, a) == Mul([k], a)
    ensures Lead(Scale(k, a)) == Times(k, Lead(a))
  {
    ScaleAt(k, a, |a| - 1);
    TimesZero(k, Lead(a));
    assert Canonical(Scale(k, a));
    hide Scale, Mul, Trim;
    forall x: real
      ensures Eval(Scale(k, a), x) == Eval(Mul([k], a), x)
    {
      EvalScale(k, a, x);
      EvalMul([k], a, x);
      ConstantValue(k, x);
    }
    SameAtEveryPoint(Scale(k, a), Mul([k], a));
  }

  lemma ConstantValue(k: real, x: real)
    ensures Eval([k], x) == k
  {
    assert [k][1..] == [];
    TimesUnits(x);
  }

  lemma CombinationMultiple(k: Poly, c: Poly, a: Poly, b: Poly)
    requires Combination(c, a, b)
    ensures Combination(Mul(k, c), a, b)
  {
    hide Mul, Add;
    var s: Poly, t: Poly :| Add(Mul(s, a), Mul(t, b)) == c;
    MulAssociates(k, s, a);
    MulAssociates(k, t, b);
    MulDistributes(k, Mul(s, a), Mul(t, b));
    CombinationIntro(Mul(k, s), Mul(k, t), Mul(k, c), a, b);
  }

  lemma MonicMultiple(c: Poly, g: Poly)
    requires !IsZero(c) && g == Scale(1.0 / Lead(c), c)
    ensures g == Mul([1.0 / Lead(c)], c) && Lead(g) == 1.0 && Mul([Lead(c)], g) == c
  {
    var k := 1.0 / Lead(c);
    var l: Poly := [Lead(c)];
    ScaledPoly(k, c);
    Reciprocal(Lead(c));
    ScaledPoly(Lead(c), [k]);
    assert Scale(Lead(c), [k]) == [Times(Lead(c), k)];
    assert Mul(l, [k]) == ONE;
    hide Mul, Scale;
    MulAssociates(l, [k], c);
    MulUnits(c);
  }

  /** Making a common divisor that is a combination monic gives the greatest one. */
  lemma NormalizedGcd(c: Poly, g: Poly, a: Poly, b: Poly)
    requires !IsZero(c) && Divides(c, a) && Divides(c, b) && Combination(c, a, b)
    requires g == Scale(1.0 / Lead(c), c)
    ensures IsGcd(g, a, b)
  {
    hide Mul, Scale, Add, Divides, Combination;
    MonicMultiple(c, g);
    DividesIntro([Lead(c)], g, c);
    DividesTransitive(g, c, a);
    DividesTransitive(g, c, b);
    CombinationMultiple([1.0 / Lead(c)], c, a, b);
  }

  /** A common divisor of b and of the remainder divides a. */
  lemma DividesBack(d: Poly, a: Poly, b: Poly, q: Poly, r: Poly)
    requires a == Add(Mul(q, b), r) && Divides(d, b) && Divides(d, r)
    ensures Divides(d, a)
  {
    hide Mul, Add;
    DividesMultiple(d, b, q);
    DividesSum(d, Mul(q, b), r);
  }

  /** `pgcd`: Euclid's algorithm, the last nonzero remainder made monic. Two zeros are a division by zero. */
  method PGcd(a0: seq<real>, b0: seq<real>) returns (g: Poly)
    requires |a0| >= 1 && |b0| >= 1
    requires Trim(a0) != ZERO || Trim(b0) != ZERO
    ensures IsGcd(g, Trim(a0), Trim(b0))
  {
    hide Mul, Add, Scale, Combination, Divides;
    ghost var a1: Poly, b1: Poly := Trim(a0), Trim(b0);
    var a: Poly, b: Poly := Trim(a0), Trim(b0);
    CombinationEnds(a1, b1);
    while Deg(b) >= 0
      invariant !IsZero(a) || !IsZero(b)
      invariant Combination(a, a1, b1) && Combination(b, a1, b1)
      invariant forall d: Poly :: Divides(d, a) && Divides(d, b) ==> Divides(d, a1) && Divides(d, b1)
      decreases Deg(b)
    {
      var q, r := PDivMod(a, b);
      assert Trim(a) == a && Trim(b) == b;
      CombinationRemainder(a, b, q, r, a1, b1);
      forall d: Poly | Divides(d, b) && Divides(d, r)
        ensures Divides(d, a1) && Divides(d, b1)
      {
        DividesBack(d, a, b, q, r);
      }
      a, b := b, r;
    }
    DividesItself(a);
    assert Divides(a, a1) && Divides(a, b1);
    ScaledPoly(1.0 / Lead(a), a);
    g := Scale(1.0 / Lead(a), a);
    NormalizedGcd(a, g, a1, b1);
  }
}

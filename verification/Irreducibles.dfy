/** Existence of quotients and greatest common divisors, irreducible divisors, Euclid's lemma. */
module Irreducibles {
  import opened Reals
  import opened Polynomials
  import opened Divisibility
  import opened PolynomialDivision

  /** f x^k */
  ghost function Monomial(f: real, k: nat): (m: Poly)
    requires f != 0.0
    ensures |m| == k + 1 && Lead(m) == f && Deg(m) == k
  {
    Zeros(k) + [f]
  }

  lemma SubCancelsLead(a: Poly, b: Poly)
    requires !IsZero(a) && Deg(a) == Deg(b) && Lead(a) == Lead(b)
    ensures Deg(Sub(a, b)) < Deg(a)
  {
    var n := |a| - 1;
    var s := RawAdd(a, Neg(b));
    RawAddAt(a, Neg(b), n);
    ScaleAt(-1.0, b, n);
    assert s[n] == 0.0;
    if n == 0 {
      assert s == [0.0];
    } else {
      assert Sub(a, b) == Trim(s[..n]);
      TrimShortens(s[..n]);
    }
  }

  lemma ReductionStep(a: Poly, b: Poly) returns (m: Poly)
    requires !IsZero(b) && Deg(a) >= Deg(b)
    ensures Deg(Sub(a, Mul(m, b))) < Deg(a)
  {
    var f := Lead(a) / Lead(b);
    LeadingQuotient(Lead(a), Lead(b));
    TimesZero(f, Lead(b));
    m := Monomial(f, Deg(a) - Deg(b));
    hide Mul;
    MulDegree(m, b);
    SubCancelsLead(a, Mul(m, b));
  }

  lemma {:induction false} DivisionExists(a: Poly, b: Poly) returns (q: Poly, r: Poly)
    requires !IsZero(b)
    ensures a == Add(Mul(q, b), r) && Deg(r) < Deg(b)
    decreases Deg(a) + 1
  {
    hide Mul, Add, Sub;
    if Deg(a) < Deg(b) {
      q, r := ZERO, a;
      MulUnits(b);
      AddZero(a);
    } else {
      var m := ReductionStep(a, b);
      var q', r' := DivisionExists(Sub(a, Mul(m, b)), b);
      q, r := Add(m, q'), r';
      AddSub(a, Mul(m, b));
      MulDistributes(b, m, q');
      AddAssociates(Mul(m, b), Mul(q', b), r);
      AddCommutes(Mul(m, b), Add(Mul(q', b), r));
    }
  }

  lemma AddAssociates(a: Poly, b: Poly, c: Poly)
    ensures Add(Add(a, b), c) == Add(a, Add(b, c))
  {
    hide *;
    forall x: real
      ensures Eval(Add(Add(a, b), c), x) == Eval(Add(a, Add(b, c)), x)
    {
      EvalAdd(a, b, x);
      EvalAdd(Add(a, b), c, x);
      EvalAdd(b, c, x);
      EvalAdd(a, Add(b, c), x);
    }
    SameAtEveryPoint(Add(Add(a, b), c), Add(a, Add(b, c)));
  }

  lemma GcdExists(a: Poly, b: Poly) returns (g: Poly)
    requires !IsZero(a) || !IsZero(b)
    ensures IsGcd(g, a, b)
  {
    hide Divides, Combination;
    var c := CommonDivisorExists(a, b);
    ScaledPoly(1.0 / Lead(c), c);
    g := Scale(1.0 / Lead(c), c);
    NormalizedGcd(c, g, a, b);
  }

  lemma {:induction false} CommonDivisorExists(a: Poly, b: Poly) returns (c: Poly)
    requires !IsZero(a) || !IsZero(b)
    ensures !IsZero(c) && Divides(c, a) && Divides(c, b) && Combination(c, a, b)
    decreases Deg(b) + 1
  {
    hide Mul, Add, Divides, Combination;
    CombinationEnds(a, b);
    if IsZero(b) {
      c := a;
      DividesItself(a);
    } else {
      var q, r := DivisionExists(a, b);
      c := CommonDivisorExists(b, r);
      DividesBack(c, a, b, q, r);
      CombinationRemainder(a, b, q, r, a, b);
      CombinationOfCombinations(c, b, r, a, b);
    }
  }

  lemma CombinationOfCombinations(c: Poly, u: Poly, v: Poly, a: Poly, b: Poly)
    requires Combination(c, u, v) && Combination(u, a, b) && Combination(v, a, b)
    ensures Combination(c, a, b)
  {
    hide Mul, Add;
    var s: Poly, t: Poly :| Add(Mul(s, u), Mul(t, v)) == c;
    CombinationMultiple(s, u, a, b);
    CombinationMultiple(t, v, a, b);
    CombinationSum(Mul(s, u), Mul(t, v), a, b);
  }

  lemma CombinationSum(u: Poly, v: Poly, a: Poly, b: Poly)
    requires Combination(u, a, b) && Combination(v, a, b)
    ensures Combination(Add(u, v), a, b)
  {
    hide Mul, Add;
    var s: Poly, t: Poly :| Add(Mul(s, a), Mul(t, b)) == u;
    var s', t': Poly :| Add(Mul(s', a), Mul(t', b)) == v;
    var m, n := Add(s, s'), Add(t, t');
    assert Add(Mul(m, a), Mul(n, b)) == Add(u, v) by {
      MulDistributes(a, s, s');
      MulDistributes(b, t, t');
      AddAssociates(Mul(s, a), Mul(s', a), Add(Mul(t, b), Mul(t', b)));
      AddAssociates(Mul(s', a), Mul(t, b), Mul(t', b));
      AddCommutes(Mul(s', a), Mul(t, b));
      AddAssociates(Mul(t, b), Mul(s', a), Mul(t', b));
      AddAssociates(Mul(s, a), Mul(t, b), v);
    }
    CombinationIntro(m, n, Add(u, v), a, b);
  }

  // ------------------------------------------------------------------ irreducible divisors

  ghost predicate Irreducible(p: Poly) {
    && Deg(p) >= 1
    && forall d: Poly :: Divides(d, p) ==> Deg(d) == 0 || Deg(d) == Deg(p)
  }

  lemma {:induction false} IrreducibleDivisor(a: Poly) returns (p: Poly)
    requires Deg(a) >= 1
    ensures Irreducible(p) && Divides(p, a)
    decreases Deg(a)
  {
    hide Divides;
    if Irreducible(a) {
      p := a;
      DividesItself(a);
    } else {
      var d: Poly :| Divides(d, a) && Deg(d) != 0 && Deg(d) != Deg(a);
      DivisorDegree(d, a);
      p := IrreducibleDivisor(d);
      DividesTransitive(p, d, a);
    }
  }

  /** A divisor of the same degree is divisible in turn. */
  lemma DivisorOfSameDegree(d: Poly, a: Poly)
    requires Divides(d, a) && !IsZero(a) && Deg(d) == Deg(a)
    ensures Divides(a, d)
  {
    hide Mul;
    var q: Poly :| Mul(q, d) == a;
    MulDegree(q, d);
    assert |q| == 1 && q == [q[0]];
    var k := 1.0 / q[0];
    Reciprocal(q[0]);
    ScaledPoly(k, q);
    assert Scale(k, q) == [Times(k, q[0])];
    assert Mul([k], q) == ONE;
    MulAssociates([k], q, d);
    MulUnits(d);
    DividesIntro([k], a, d);
  }

  /** Euclid's lemma. */
  lemma PrimeDivides(p: Poly, a: Poly, b: Poly)
    requires Irreducible(p) && Divides(p, Mul(a, b)) && !Divides(p, a)
    ensures Divides(p, b)
  {
    hide Mul, Add, Divides;
    var g := GcdExists(p, a);
    assert Divides(g, p) && Divides(g, a);
    assert Deg(g) == 0 by {
      if Deg(g) == Deg(p) {
        DivisorOfSameDegree(g, p);
        DividesTransitive(p, g, a);
      }
    }
    assert g == ONE;
    var s: Poly, t: Poly :| Add(Mul(s, p), Mul(t, a)) == g;
    MulDistributes(b, Mul(s, p), Mul(t, a));
    MulUnits(b);
    assert b == Add(Mul(Mul(s, p), b), Mul(Mul(t, a), b));
    MulSwaps(s, p, b);
    MulAssociates(t, a, b);
    DividesItself(p);
    DividesMultiple(p, p, Mul(s, b));
    DividesMultiple(p, Mul(a, b), t);
    DividesSum(p, Mul(Mul(s, b), p), Mul(t, Mul(a, b)));
  }
}

/** Yun's square-free factorization. */
module SquareFreeFactorization {
  import opened Reals
  import opened Polynomials
  import opened Divisibility
  import opened PolynomialDivision
  import opened Irreducibles

  /** No square of a polynomial of positive degree divides b. */
  ghost predicate SquareFree(b: Poly) {
    forall d: Poly :: Deg(d) >= 1 ==> !Divides(Mul(d, d), b)
  }

  /** No polynomial of positive degree divides both. */
  ghost predicate Coprime(a: Poly, b: Poly) {
    forall d: Poly :: Deg(d) >= 1 ==> !(Divides(d, a) && Divides(d, b))
  }

  function PolyPower(p: Poly, n: nat): Poly {
    if n == 0 then ONE else Mul(p, PolyPower(p, n - 1))
  }

  datatype Factor = Factor(poly: Poly, multiplicity: nat)

  /** The product of the factors, each to its multiplicity. */
  function Product(factors: seq<Factor>): Poly {
    if factors == [] then ONE
    else
      var last := factors[|factors| - 1];
      Mul(Product(factors[..|factors| - 1]), PolyPower(last.poly, last.multiplicity))
  }

  ghost predicate GoodFactor(a: Factor) {
    Lead(a.poly) == 1.0 && Deg(a.poly) >= 1 && SquareFree(a.poly) && a.multiplicity >= 1
  }

  ghost predicate GoodFactors(factors: seq<Factor>) {
    && (forall k :: 0 <= k < |factors| ==> GoodFactor(factors[k]))
    && (forall j, k :: 0 <= j < k < |factors| ==>
          factors[j].multiplicity < factors[k].multiplicity && Coprime(factors[j].poly, factors[k].poly))
  }

  /** The factors are monic, square-free and pairwise coprime, their multiplicities differ, and f is its
      leading coefficient times their product. */
  ghost predicate IsSquareFreeFactorization(f: Poly, factors: seq<Factor>) {
    GoodFactors(factors) && f == Mul([Lead(f)], Product(factors))
  }

  // ------------------------------------------------------------------ powers

  lemma {:induction false} EvalPolyPower(p: Poly, n: nat, x: real)
    ensures Eval(PolyPower(p, n), x) == Power(Eval(p, x), n)
  {
    hide Times, Eval, Mul;
    if n == 0 {
      EvalUnits(x);
    } else {
      EvalPolyPower(p, n - 1, x);
      EvalMul(p, PolyPower(p, n - 1), x);
    }
  }

  lemma {:induction false} PolyPowerMul(a: Poly, b: Poly, n: nat)
    ensures PolyPower(Mul(a, b), n) == Mul(PolyPower(a, n), PolyPower(b, n))
  {
    hide Mul;
    if n == 0 {
      MulUnits(ONE);
    } else {
      PolyPowerMul(a, b, n - 1);
      var p, q := PolyPower(a, n - 1), PolyPower(b, n - 1);
      // (a b) (p q) == (a p) (b q)
      MulAssociates(a, b, Mul(p, q));
      MulAssociates(b, p, q);
      MulCommutes(b, p);
      MulAssociates(p, b, q);
      MulAssociates(a, p, Mul(b, q));
    }
  }

  lemma {:induction false} PolyPowerMonic(a: Poly, n: nat)
    requires Lead(a) == 1.0
    ensures Lead(PolyPower(a, n)) == 1.0
  {
    hide Mul;
    if n > 0 {
      PolyPowerMonic(a, n - 1);
      MulDegree(a, PolyPower(a, n - 1));
      TimesUnits(1.0);
    }
  }

  lemma {:induction false} PolyPowerOne(n: nat)
    ensures PolyPower(ONE, n) == ONE
  {
    hide Mul;
    if n > 0 {
      PolyPowerOne(n - 1);
      MulUnits(ONE);
    }
  }

  lemma {:induction false} ProductMonic(factors: seq<Factor>)
    requires forall k :: 0 <= k < |factors| ==> Lead(factors[k].poly) == 1.0
    ensures Lead(Product(factors)) == 1.0
  {
    hide Mul;
    if factors != [] {
      var rest, last := factors[..|factors| - 1], factors[|factors| - 1];
      ProductMonic(rest);
      PolyPowerMonic(last.poly, last.multiplicity);
      MulDegree(Product(rest), PolyPower(last.poly, last.multiplicity));
      TimesUnits(1.0);
    }
  }

  // ------------------------------------------------------------------ square-free parts

  lemma SquareFreeDivisor(a: Poly, b: Poly)
    requires SquareFree(b) && Divides(a, b)
    ensures SquareFree(a)
  {
    hide Mul, Divides;
    forall d: Poly | Deg(d) >= 1
      ensures !Divides(Mul(d, d), a)
    {
      if Divides(Mul(d, d), a) {
        DividesTransitive(Mul(d, d), a, b);
      }
    }
  }

  lemma DividesProducts(d: Poly, a: Poly, b: Poly)
    requires Divides(d, a) && Divides(d, b)
    ensures Divides(Mul(d, d), Mul(a, b))
  {
    hide Mul;
    var q: Poly :| Mul(q, d) == a;
    var r: Poly :| Mul(r, d) == b;
    // (q d) (r d) == (q r) (d d)
    MulAssociates(q, d, Mul(r, d));
    MulAssociates(d, r, d);
    MulCommutes(d, r);
    MulAssociates(r, d, d);
    MulAssociates(q, r, Mul(d, d));
    DividesIntro(Mul(q, r), Mul(d, d), Mul(a, b));
  }

  /** The two factors of a square-free product are coprime. */
  lemma SquareFreeSplits(a: Poly, b: Poly)
    requires SquareFree(Mul(a, b))
    ensures Coprime(a, b)
  {
    hide Mul, Divides;
    forall d: Poly | Deg(d) >= 1
      ensures !(Divides(d, a) && Divides(d, b))
    {
      if Divides(d, a) && Divides(d, b) {
        DividesProducts(d, a, b);
      }
    }
  }

  lemma CoprimeDivisor(a: Poly, b: Poly, c: Poly)
    requires Coprime(a, b) && Divides(c, b)
    ensures Coprime(a, c)
  {
    hide Mul, Divides;
    forall d: Poly | Deg(d) >= 1
      ensures !(Divides(d, a) && Divides(d, c))
    {
      if Divides(d, a) && Divides(d, c) {
        DividesTransitive(d, c, b);
      }
    }
  }

  // ------------------------------------------------------------------ f / gcd(f, f') is square-free

  /** One step of the descent, at a point: g = h p, b = c p^2 and g e = g' b. */
  lemma DescentArithmetic(g: real, h: real, p: real, b: real, c: real, e: real, dh: real, dp: real, dg: real)
    requires g == Times(h, p) && b == Times(c, Times(p, p))
    requires dg == Times(dh, p) + Times(h, dp)
    requires Times(g, e) == Times(dg, b)
    ensures Times(p, Times(h, e - Times(Times(dp, c), p))) == Times(p, Times(dh, b))
  {
  }

  lemma DescentValue(g: Poly, h: Poly, p: Poly, b: Poly, c: Poly, e: Poly, x: real)
    requires g == Mul(h, p) && b == Mul(c, Mul(p, p)) && Mul(g, e) == Mul(Der(g), b)
    ensures Eval(Mul(p, Mul(h, Sub(e, Mul(Mul(Der(p), c), p)))), x) == Eval(Mul(p, Mul(Der(h), b)), x)
  {
    hide *;
    var k := Mul(Mul(Der(p), c), p);
    EvalMul(h, p, x);
    EvalMul(p, p, x);
    EvalMul(c, Mul(p, p), x);
    EvalMul(g, e, x);
    EvalMul(Der(g), b, x);
    EvalDer(g, x);
    EvalDer(h, x);
    EvalDer(p, x);
    EvalMul(Der(p), c, x);
    EvalMul(Mul(Der(p), c), p, x);
    EvalSub(e, k, x);
    EvalMul(h, Sub(e, k), x);
    EvalMul(p, Mul(h, Sub(e, k)), x);
    EvalMul(Der(h), b, x);
    EvalMul(p, Mul(Der(h), b), x);
    DescentArithmetic(Eval(g, x), Eval(h, x), Eval(p, x), Eval(b, x), Eval(c, x), Eval(e, x),
                      DEval(h, x), DEval(p, x), DEval(g, x));
  }

  /** If p^2 divides b and g e == g' b, then p divides e, however often p divides g. */
  lemma {:induction false} RepeatedFactorDivides(g: Poly, b: Poly, e: Poly, p: Poly)
    requires Irreducible(p) && !IsZero(g)
    requires Divides(Mul(p, p), b) && Mul(g, e) == Mul(Der(g), b)
    ensures Divides(p, e)
    decreases Deg(g)
  {
    hide Mul, Add, Sub, Der;
    if !Divides(p, g) {
      DividesMultiple(Mul(p, p), b, Der(g));
      DividesItself(p);
      DividesMultiple(p, p, p);
      DividesTransitive(p, Mul(p, p), Mul(Der(g), b));
      PrimeDivides(p, g, e);
    } else {
      var h: Poly :| Mul(h, p) == g;
      var c: Poly :| Mul(c, Mul(p, p)) == b;
      MulDegree(h, p);
      var k := Mul(Mul(Der(p), c), p);
      forall x: real
        ensures Eval(Mul(p, Mul(h, Sub(e, k))), x) == Eval(Mul(p, Mul(Der(h), b)), x)
      {
        DescentValue(g, h, p, b, c, e, x);
      }
      SameAtEveryPoint(Mul(p, Mul(h, Sub(e, k))), Mul(p, Mul(Der(h), b)));
      MulCancels(p, Mul(h, Sub(e, k)), Mul(Der(h), b));
      RepeatedFactorDivides(h, b, Sub(e, k), p);
      DividesItself(p);
      DividesMultiple(p, p, Mul(Der(p), c));
      DividesSum(p, Sub(e, k), k);
      AddSub(e, k);
    }
  }

  lemma SquareDividesDerivative(p: Poly, b: Poly)
    requires Divides(Mul(p, p), b)
    ensures Divides(p, Der(b))
  {
    hide Mul, Add, Der;
    var c: Poly :| Mul(c, Mul(p, p)) == b;
    DerMul(c, Mul(p, p));
    DerMul(p, p);
    DividesItself(p);
    DividesMultiple(p, p, p);
    DividesMultiple(p, Mul(p, p), Der(c));
    DividesMultiple(p, p, Der(p));
    DividesSum(p, Mul(Der(p), p), Mul(p, Der(p)));
    DividesMultiple(p, Der(Mul(p, p)), c);
    DividesSum(p, Mul(Der(c), Mul(p, p)), Mul(c, Der(Mul(p, p))));
  }

  /** The first quotient b of Yun's method is square-free: g e == g' b, and b and c = e + b' are coprime. */
  lemma FirstQuotientSquareFree(g: Poly, b: Poly, c: Poly)
    requires !IsZero(g) && Mul(g, Sub(c, Der(b))) == Mul(Der(g), b) && Combination(ONE, b, c)
    ensures SquareFree(b)
  {
    hide Mul, Sub, Add, Der, Divides, Combination;
    var e := Sub(c, Der(b));
    forall d: Poly | Deg(d) >= 1
      ensures !Divides(Mul(d, d), b)
    {
      if Divides(Mul(d, d), b) {
        var p := IrreducibleDivisor(d);
        DividesProducts(p, d, d);
        DividesTransitive(Mul(p, p), Mul(d, d), b);
        RepeatedFactorDivides(g, b, e, p);
        SquareDividesDerivative(p, b);
        DividesSum(p, e, Der(b));
        AddSub(c, Der(b));
        DividesItself(p);
        DividesMultiple(p, p, p);
        DividesTransitive(p, Mul(p, p), b);
        CommonDivisorDividesCombination(p, b, c, ONE);
        DivisorDegree(p, ONE);
      }
    }
  }

  // ------------------------------------------------------------------ one step of the loop

  /** Cofactors of a greatest common divisor are coprime. */
  lemma CofactorsCombine(a: Poly, b: Poly, e: Poly, b1: Poly, c1: Poly)
    requires !IsZero(a) && Combination(a, b, e) && b == Mul(b1, a) && e == Mul(c1, a)
    ensures Combination(ONE, b1, c1)
  {
    hide Mul, Add;
    var s: Poly, t: Poly :| Add(Mul(s, b), Mul(t, e)) == a;
    MulAssociates(s, b1, a);
    MulAssociates(t, c1, a);
    MulDistributes(a, Mul(s, b1), Mul(t, c1));
    MulUnits(a);
    MulCommutes(a, Add(Mul(s, b1), Mul(t, c1)));
    MulCancels(a, Add(Mul(s, b1), Mul(t, c1)), ONE);
    CombinationIntro(s, t, ONE, b1, c1);
  }

  lemma CancelCommonFactor(g: Poly, a: Poly, b1: Poly, c1: Poly)
    requires !IsZero(a) && Mul(g, Mul(c1, a)) == Mul(Der(g), Mul(b1, a))
    ensures Mul(g, c1) == Mul(Der(g), b1)
  {
    hide Mul, Der;
    MulAssociates(g, c1, a);
    MulAssociates(Der(g), b1, a);
    MulCommutes(a, Mul(g, c1));
    MulCommutes(a, Mul(Der(g), b1));
    MulCancels(a, Mul(g, c1), Mul(Der(g), b1));
  }

  /** g is a multiple of b1. */
  lemma GhostQuotient(g: Poly, b1: Poly, c1: Poly) returns (h: Poly)
    requires Combination(ONE, b1, c1) && Mul(g, c1) == Mul(Der(g), b1)
    ensures g == Mul(h, b1)
  {
    hide Mul, Add, Der;
    var s: Poly, t: Poly :| Add(Mul(s, b1), Mul(t, c1)) == ONE;
    h := Add(Mul(g, s), Mul(t, Der(g)));
    MulUnits(g);
    MulDistributes(g, Mul(s, b1), Mul(t, c1));
    MulAssociates(g, s, b1);
    MulAssociates(g, t, c1);
    MulCommutes(g, t);
    MulAssociates(t, g, c1);
    MulAssociates(t, Der(g), b1);
    MulDistributes(b1, Mul(g, s), Mul(t, Der(g)));
  }

  /** The loop's equation for the quotient: h (c1 - b1') == h' b1. */
  lemma NextEquation(g: Poly, h: Poly, b1: Poly, c1: Poly)
    requires !IsZero(b1) && g == Mul(h, b1) && Mul(g, c1) == Mul(Der(g), b1)
    ensures Mul(h, Sub(c1, Der(b1))) == Mul(Der(h), b1)
  {
    hide Mul, Add, Sub, Der;
    DerMul(h, b1);
    // b1 (h c1) == b1 (h' b1 + h b1')
    MulSwaps(h, b1, c1);
    MulCommutes(b1, Mul(h, c1));
    MulCommutes(b1, Der(g));
    MulCancels(b1, Mul(h, c1), Der(g));
    MulDistributesSub(h, c1, Der(b1));
    AddSub(Mul(Der(h), b1), Mul(h, Der(b1)));
  }

  /** One turn of the loop. */
  lemma YunStep(g: Poly, b: Poly, e: Poly, a: Poly, b1: Poly, c1: Poly) returns (h: Poly)
    requires !IsZero(g) && !IsZero(b) && !IsZero(a) && Combination(a, b, e)
    requires Mul(g, e) == Mul(Der(g), b) && b == Mul(b1, a) && e == Mul(c1, a)
    ensures g == Mul(h, b1) && !IsZero(h) && !IsZero(b1)
    ensures Mul(h, Sub(c1, Der(b1))) == Mul(Der(h), b1)
    ensures Deg(b) == Deg(b1) + Deg(a) && Deg(g) == Deg(h) + Deg(b1)
  {
    hide Mul, Sub, Der, Combination;
    CofactorsCombine(a, b, e, b1, c1);
    CancelCommonFactor(g, a, b1, c1);
    MulDegree(b1, a);
    h := GhostQuotient(g, b1, c1);
    MulDegree(h, b1);
    NextEquation(g, h, b1, c1);
  }

  /** The product so far times b^i g does not change: b = b1 a and g = h b1. */
  lemma ProductStep(p: Poly, a: Poly, b1: Poly, h: Poly, i: nat)
    ensures Mul(Mul(p, PolyPower(Mul(b1, a), i)), Mul(h, b1))
         == Mul(Mul(Mul(p, PolyPower(a, i)), PolyPower(b1, i + 1)), h)
  {
    hide Mul;
    PolyPowerMul(b1, a, i);
    var u, v := PolyPower(a, i), PolyPower(b1, i);
    forall x: real
      ensures Eval(Mul(Mul(p, Mul(v, u)), Mul(h, b1)), x) == Eval(Mul(Mul(Mul(p, u), Mul(b1, v)), h), x)
    {
      ProductValue(p, u, v, h, b1, x);
    }
    SameAtEveryPoint(Mul(Mul(p, Mul(v, u)), Mul(h, b1)), Mul(Mul(Mul(p, u), Mul(b1, v)), h));
  }

  lemma ProductArithmetic(p: real, u: real, v: real, h: real, b: real)
    ensures Times(Times(p, Times(v, u)), Times(h, b)) == Times(Times(Times(p, u), Times(b, v)), h)
  {
  }

  lemma ProductValue(p: Poly, u: Poly, v: Poly, h: Poly, b: Poly, x: real)
    ensures Eval(Mul(Mul(p, Mul(v, u)), Mul(h, b)), x) == Eval(Mul(Mul(Mul(p, u), Mul(b, v)), h), x)
  {
    hide *;
    EvalMul(v, u, x);
    EvalMul(p, Mul(v, u), x);
    EvalMul(h, b, x);
    EvalMul(Mul(p, Mul(v, u)), Mul(h, b), x);
    EvalMul(p, u, x);
    EvalMul(b, v, x);
    EvalMul(Mul(p, u), Mul(b, v), x);
    EvalMul(Mul(Mul(p, u), Mul(b, v)), h, x);
    ProductArithmetic(Eval(p, x), Eval(u, x), Eval(v, x), Eval(h, x), Eval(b, x));
  }

  /** With b constant, the equation g e == g' b leaves g constant. */
  lemma ConstantAtTheEnd(g: Poly, b: Poly, e: Poly)
    requires !IsZero(g) && Deg(b) == 0 && Mul(g, e) == Mul(Der(g), b)
    ensures Deg(g) == 0
  {
    hide Mul, Der;
    DerDegree(g);
    MulDegree(Der(g), b);
    MulDegree(g, e);
  }

  lemma {:induction false} PolyPowerConstant(b: Poly, n: nat)
    requires Deg(b) == 0
    ensures Deg(PolyPower(b, n)) == 0
  {
    hide Mul;
    if n > 0 {
      PolyPowerConstant(b, n - 1);
      MulDegree(b, PolyPower(b, n - 1));
    }
  }

  lemma LeadingConstant(f: Poly, p: Poly, b: Poly, g: Poly, i: nat)
    requires Lead(p) == 1.0 && Deg(b) == 0 && Deg(g) == 0
    requires f == Mul(Mul(p, PolyPower(b, i)), g)
    ensures f == Mul([Lead(f)], p)
  {
    hide Mul;
    PolyPowerConstant(b, i);
    var k := Mul(PolyPower(b, i), g);
    MulDegree(PolyPower(b, i), g);
    MulAssociates(p, PolyPower(b, i), g);
    MulCommutes(p, k);
    MulDegree(k, p);
    TimesUnits(Lead(k));
    assert k == [Lead(k)];
  }

  // ------------------------------------------------------------------ the method

  lemma ExactDivision(a: Poly, b: Poly, q: Poly, r: Poly)
    requires !IsZero(b) && Divides(b, a) && a == Add(Mul(q, b), r) && Deg(r) < Deg(b)
    ensures a == Mul(q, b)
  {
    ExactQuotient(a, b, q, r);
  }

  lemma FirstEquation(f: Poly, g: Poly, b: Poly, c: Poly)
    requires !IsZero(g) && f == Mul(b, g) && Der(f) == Mul(c, g)
    ensures Mul(g, Sub(c, Der(b))) == Mul(Der(g), b)
  {
    hide Mul, Add, Sub, Der;
    DerMul(b, g);
    MulDistributesSub(g, c, Der(b));
    MulCommutes(g, c);
    MulCommutes(g, Der(b));
    MulCommutes(b, Der(g));
    AddSub(Mul(Der(b), g), Mul(b, Der(g)));
  }

  /** Appending a coprime square-free factor with a higher multiplicity. */
  lemma AppendFactor(factors: seq<Factor>, a: Poly, i: nat, b: Poly)
    requires GoodFactors(factors) && i >= 1
    requires forall k :: 0 <= k < |factors| ==> factors[k].multiplicity < i && Coprime(factors[k].poly, b)
    requires Lead(a) == 1.0 && Deg(a) >= 1 && SquareFree(b) && Divides(a, b)
    ensures GoodFactors(factors + [Factor(a, i)])
    ensures Product(factors + [Factor(a, i)]) == Mul(Product(factors), PolyPower(a, i))
  {
    hide Mul, Divides, SquareFree, Coprime;
    var longer := factors + [Factor(a, i)];
    assert longer[..|longer| - 1] == factors;
    SquareFreeDivisor(a, b);
    forall k | 0 <= k < |factors|
      ensures Coprime(factors[k].poly, a)
    {
      CoprimeDivisor(factors[k].poly, b, a);
    }
  }

  /** `squarefree`: Yun's method. The multiplicity of a factor is the turn that splits it off; the turn does
      nothing when no root has that multiplicity, so the degree of b alone does not decrease. */
  method SquareFreeFactors(f0: seq<real>) returns (out: seq<Factor>)
    requires |f0| >= 1 && Trim(f0) != ZERO
    ensures IsSquareFreeFactorization(Trim(f0), out)
  {
    hide Mul, Add, Sub, Der, Divides, Combination, SquareFree, Coprime, Product, PolyPower, GoodFactors;
    var f := PTrim(f0);
    var d := Der(f);
    var g := PGcd(f, d);
    var b, r0 := PDivMod(f, g);
    var c, r1 := PDivMod(d, g);
    ExactDivision(f, g, b, r0);
    ExactDivision(d, g, c, r1);
    MulDegree(b, g);
    var dd := Sub(c, Der(b));
    FirstEquation(f, g, b, c);
    CofactorsCombine(g, f, d, b, c);
    FirstQuotientSquareFree(g, b, c);
    var i := 1;
    out := [];
    ghost var h: Poly := g;
    StartOfLoop(f, b, g);
    while Deg(b) > 0
      invariant i >= 1 && !IsZero(b) && !IsZero(h)
      invariant Mul(h, dd) == Mul(Der(h), b)
      invariant SquareFree(b)
      invariant GoodFactors(out)
      invariant forall k :: 0 <= k < |out| ==> out[k].multiplicity < i && Coprime(out[k].poly, b)
      invariant f == Mul(Mul(Product(out), PolyPower(b, i)), h)
      decreases Deg(b) + Deg(h)
    {
      var a := PGcd(b, dd);
      var b1, r2 := PDivMod(b, a);
      var c1, r3 := PDivMod(dd, a);
      ExactDivision(b, a, b1, r2);
      ExactDivision(dd, a, c1, r3);
      ghost var h1 := YunStep(h, b, dd, a, b1, c1);
      ProductStep(Product(out), a, b1, h1, i);
      NextFactor(out, a, b1, b, i);
      if Deg(a) > 0 {
        AppendFactor(out, a, i, b);
        out := out + [Factor(a, i)];
      } else {
        assert a == ONE;
        PolyPowerOne(i);
        MulUnits(Product(out));
      }
      b, h := b1, h1;
      dd := Sub(c1, Der(b));
      i := i + 1;
    }
    ConstantAtTheEnd(h, b, dd);
    MonicFactors(out);
    LeadingConstant(f, Product(out), b, h, i);
  }

  lemma StartOfLoop(f: Poly, b: Poly, g: Poly)
    requires f == Mul(b, g)
    ensures f == Mul(Mul(Product([]), PolyPower(b, 1)), g)
    ensures GoodFactors([])
  {
    hide Mul;
    assert PolyPower(b, 1) == Mul(b, PolyPower(b, 0));
    MulUnits(b);
  }

  /** What is split off is coprime to what is left, and all earlier factors stay coprime to it. */
  lemma NextFactor(out: seq<Factor>, a: Poly, b1: Poly, b: Poly, i: nat)
    requires SquareFree(b) && b == Mul(b1, a)
    requires forall k :: 0 <= k < |out| ==> out[k].multiplicity < i && Coprime(out[k].poly, b)
    ensures SquareFree(b1) && Coprime(a, b1) && Divides(a, b)
    ensures forall k :: 0 <= k < |out| ==> Coprime(out[k].poly, b1)
  {
    hide SquareFree, Coprime, Divides, Mul;
    DividesItself(b1);
    DividesMultiple(b1, b1, a);
    DividesItself(a);
    DividesMultiple(a, a, b1);
    SquareFreeDivisor(b1, b);
    MulCommutes(a, b1);
    SquareFreeSplits(a, b1);
    forall k | 0 <= k < |out|
      ensures Coprime(out[k].poly, b1)
    {
      CoprimeDivisor(out[k].poly, b, b1);
    }
  }

  lemma MonicFactors(out: seq<Factor>)
    requires GoodFactors(out)
    ensures Lead(Product(out)) == 1.0
  {
    hide SquareFree, Coprime;
    forall k | 0 <= k < |out| ensures Lead(out[k].poly) == 1.0 { assert GoodFactor(out[k]); }
    ProductMonic(out);
  }
}

/** Roots, their multiplicities, and where a square-free factorization puts them. */
module RootMultiplicity {
  import opened Reals
  import opened Polynomials
  import opened Divisibility
  import opened PolynomialDivision
  import opened SquareFreeFactorization

  /** x - r */
  function Linear(r: real): Poly {
    [-r, 1.0]
  }

  lemma EvalLinearFactor(r: real, x: real)
    ensures Eval(Linear(r), x) == x - r && Deg(Linear(r)) == 1
  {
    hide Times;
    assert Linear(r) == [-r] + [1.0] && [1.0] == [1.0] + [];
    EvalCons(-r, [1.0], x);
    EvalCons(1.0, [], x);
    TimesUnits(x);
  }

  /** f is (x - r)^m times a polynomial that does not vanish at r. */
  ghost predicate HasMultiplicity(f: Poly, r: real, m: nat) {
    exists h: Poly :: f == Mul(PolyPower(Linear(r), m), h) && Eval(h, r) != 0.0
  }

  lemma HasMultiplicityIntro(f: Poly, r: real, m: nat, h: Poly)
    requires f == Mul(PolyPower(Linear(r), m), h) && Eval(h, r) != 0.0
    ensures HasMultiplicity(f, r, m)
  {
  }

  /** A root splits off a linear factor. */
  lemma FactorTheorem(f: Poly, r: real) returns (h: Poly)
    requires Eval(f, r) == 0.0
    ensures f == Mul(h, Linear(r))
  {
    hide Mul, Eval, Times, Trim, Quotient;
    if |f| == 1 {
      assert f == [f[0]];
      ConstantValue(f[0], r);
      h := ZERO;
      MulUnits(Linear(r));
    } else {
      SyntheticDivision(f, r, 0.0);
      h := Trim(Quotient(f, r));
      forall x: real
        ensures Eval(f, x) == Eval(Mul(h, Linear(r)), x)
      {
        SyntheticDivision(f, r, x);
        EvalTrim(Quotient(f, r), x);
        EvalMul(h, Linear(r), x);
        EvalLinearFactor(r, x);
        TimesCommutes(x - r, Eval(h, x));
      }
      SameAtEveryPoint(f, Mul(h, Linear(r)));
    }
  }

  lemma RootOfLinear(h: Poly, r: real)
    ensures Eval(Mul(h, Linear(r)), r) == 0.0
  {
    hide *;
    EvalMul(h, Linear(r), r);
    EvalLinearFactor(r, r);
    TimesUnits(Eval(h, r));
  }

  /** A root of a square-free polynomial is simple. */
  lemma SimpleRoot(a: Poly, r: real)
    requires SquareFree(a) && Eval(a, r) == 0.0
    ensures HasMultiplicity(a, r, 1)
  {
    hide Mul, Eval, Linear;
    var h := FactorTheorem(a, r);
    var l := Linear(r);
    EvalLinearFactor(r, r);
    if Eval(h, r) == 0.0 {
      var k := FactorTheorem(h, r);
      MulAssociates(k, l, l);
      DividesIntro(k, Mul(l, l), a);
    }
    assert PolyPower(l, 1) == Mul(l, PolyPower(l, 0));
    MulUnits(l);
    MulCommutes(h, l);
    HasMultiplicityIntro(a, r, 1, h);
  }

  lemma {:induction false} PolyPowerSum(p: Poly, m: nat, n: nat)
    ensures PolyPower(p, m + n) == Mul(PolyPower(p, m), PolyPower(p, n))
  {
    hide Mul;
    if m == 0 {
      MulUnits(PolyPower(p, n));
    } else {
      PolyPowerSum(p, m - 1, n);
      MulAssociates(p, PolyPower(p, m - 1), PolyPower(p, n));
    }
  }

  /** Multiplicities add in products. */
  lemma MultiplicitiesAdd(f: Poly, g: Poly, r: real, m: nat, n: nat)
    requires HasMultiplicity(f, r, m) && HasMultiplicity(g, r, n)
    ensures HasMultiplicity(Mul(f, g), r, m + n)
  {
    hide Mul, Eval, PolyPower, Linear;
    var h: Poly :| f == Mul(PolyPower(Linear(r), m), h) && Eval(h, r) != 0.0;
    var k: Poly :| g == Mul(PolyPower(Linear(r), n), k) && Eval(k, r) != 0.0;
    var p, q := PolyPower(Linear(r), m), PolyPower(Linear(r), n);
    // (p h) (q k) == (p q) (h k)
    MulAssociates(p, h, Mul(q, k));
    MulAssociates(h, q, k);
    MulCommutes(h, q);
    MulAssociates(q, h, k);
    MulAssociates(p, q, Mul(h, k));
    PolyPowerSum(Linear(r), m, n);
    EvalMul(h, k, r);
    TimesZero(Eval(h, r), Eval(k, r));
    HasMultiplicityIntro(Mul(f, g), r, m + n, Mul(h, k));
  }

  lemma NonRoot(f: Poly, r: real)
    requires Eval(f, r) != 0.0
    ensures HasMultiplicity(f, r, 0)
  {
    hide Mul;
    MulUnits(f);
    assert PolyPower(Linear(r), 0) == ONE;
    HasMultiplicityIntro(f, r, 0, f);
  }

  lemma {:induction false} MultiplicityOfPower(a: Poly, r: real, e: nat, m: nat)
    requires HasMultiplicity(a, r, e)
    ensures HasMultiplicity(PolyPower(a, m), r, e * m)
  {
    hide Mul, Eval, Linear, HasMultiplicity;
    if m == 0 {
      EvalUnits(r);
      NonRoot(ONE, r);
    } else {
      MultiplicityOfPower(a, r, e, m - 1);
      MultiplicitiesAdd(a, PolyPower(a, m - 1), r, e, e * (m - 1));
      assert e * m == e + e * (m - 1);
    }
  }

  /** A polynomial has one multiplicity at a point. */
  lemma MultiplicityUnique(f: Poly, r: real, m: nat, n: nat)
    requires HasMultiplicity(f, r, m) && HasMultiplicity(f, r, n)
    ensures m == n
  {
    if m < n {
      NotMore(f, r, m, n);
    } else if n < m {
      NotMore(f, r, n, m);
    }
  }

  lemma NotMore(f: Poly, r: real, m: nat, n: nat)
    requires m < n && HasMultiplicity(f, r, m)
    ensures !HasMultiplicity(f, r, n)
  {
    hide Mul, Eval, Linear;
    var l := Linear(r);
    var h: Poly :| f == Mul(PolyPower(l, m), h) && Eval(h, r) != 0.0;
    forall k: Poly
      ensures f != Mul(PolyPower(l, n), k)
    {
      if f == Mul(PolyPower(l, n), k) {
        PolyPowerSum(l, m, n - m);
        MulAssociates(PolyPower(l, m), PolyPower(l, n - m), k);
        LinearPowerNonzero(r, m);
        MulCancels(PolyPower(l, m), h, Mul(PolyPower(l, n - m), k));
        MulAssociates(l, PolyPower(l, n - m - 1), k);
        MulCommutes(l, Mul(PolyPower(l, n - m - 1), k));
        RootOfLinear(Mul(PolyPower(l, n - m - 1), k), r);
      }
    }
  }

  lemma {:induction false} LinearPowerNonzero(r: real, m: nat)
    ensures !IsZero(PolyPower(Linear(r), m))
  {
    hide Mul;
    if m > 0 {
      LinearPowerNonzero(r, m - 1);
      MulDegree(Linear(r), PolyPower(Linear(r), m - 1));
    }
  }

  // ------------------------------------------------------------------ factorizations

  /** Coprime polynomials have no root in common. */
  lemma CoprimeRoots(a: Poly, b: Poly, r: real)
    requires Coprime(a, b) && Eval(a, r) == 0.0
    ensures Eval(b, r) != 0.0
  {
    hide Mul, Eval, Linear;
    if Eval(b, r) == 0.0 {
      var h := FactorTheorem(a, r);
      var k := FactorTheorem(b, r);
      DividesIntro(h, Linear(r), a);
      DividesIntro(k, Linear(r), b);
      EvalLinearFactor(r, r);
    }
  }

  lemma {:induction false} PowerZero(x: real, n: nat)
    ensures Power(x, n) == 0.0 ==> x == 0.0
  {
    hide Times;
    if n > 0 {
      PowerZero(x, n - 1);
      TimesZero(x, Power(x, n - 1));
    }
  }

  lemma {:induction false} ProductWithoutRoot(factors: seq<Factor>, r: real)
    requires forall k :: 0 <= k < |factors| ==> Eval(factors[k].poly, r) != 0.0
    ensures Eval(Product(factors), r) != 0.0
  {
    hide Mul, Eval, PolyPower, Power, Times;
    if factors == [] {
      EvalUnits(r);
    } else {
      var rest, last := factors[..|factors| - 1], factors[|factors| - 1];
      ProductWithoutRoot(rest, r);
      EvalPolyPower(last.poly, last.multiplicity, r);
      PowerZero(Eval(last.poly, r), last.multiplicity);
      EvalMul(Product(rest), PolyPower(last.poly, last.multiplicity), r);
      TimesZero(Eval(Product(rest), r), Eval(PolyPower(last.poly, last.multiplicity), r));
    }
  }

  /** Only factor k vanishes at r: the product has factor k's multiplicity there. */
  lemma {:induction false} ProductMultiplicity(factors: seq<Factor>, r: real, k: nat)
    requires k < |factors| && HasMultiplicity(factors[k].poly, r, 1)
    requires forall j :: 0 <= j < |factors| && j != k ==> Eval(factors[j].poly, r) != 0.0
    ensures HasMultiplicity(Product(factors), r, factors[k].multiplicity)
    decreases |factors|
  {
    hide Mul, Eval, PolyPower, HasMultiplicity;
    var n := |factors| - 1;
    var rest, last := factors[..n], factors[n];
    if k == n {
      ProductWithoutRoot(rest, r);
      NonRoot(Product(rest), r);
      MultiplicityOfPower(last.poly, r, 1, last.multiplicity);
      MultiplicitiesAdd(Product(rest), PolyPower(last.poly, last.multiplicity), r, 0, last.multiplicity);
    } else {
      ProductMultiplicity(rest, r, k);
      NonRoot(last.poly, r);
      MultiplicityOfPower(last.poly, r, 0, last.multiplicity);
      MultiplicitiesAdd(Product(rest), PolyPower(last.poly, last.multiplicity), r, factors[k].multiplicity, 0);
    }
  }

  /** A factor's root is a root of no other factor, and its multiplicity is the factor's. */
  lemma FactorRoot(f: Poly, factors: seq<Factor>, k: nat, r: real)
    requires !IsZero(f) && IsSquareFreeFactorization(f, factors)
    requires k < |factors| && Eval(factors[k].poly, r) == 0.0
    ensures forall j :: 0 <= j < |factors| && j != k ==> Eval(factors[j].poly, r) != 0.0
    ensures Eval(f, r) == 0.0 && HasMultiplicity(f, r, factors[k].multiplicity)
  {
    hide Mul, Eval, Product, HasMultiplicity, SquareFree, Coprime;
    forall j | 0 <= j < |factors| && j != k
      ensures Eval(factors[j].poly, r) != 0.0
    {
      if j < k {
        CoprimeSymmetric(factors[j].poly, factors[k].poly);
      }
      CoprimeRoots(factors[k].poly, factors[j].poly, r);
    }
    assert GoodFactor(factors[k]);
    SimpleRoot(factors[k].poly, r);
    ProductMultiplicity(factors, r, k);
    var l: Poly := [Lead(f)];
    ConstantValue(Lead(f), r);
    NonRoot(l, r);
    MultiplicitiesAdd(l, Product(factors), r, 0, factors[k].multiplicity);
    PositiveMultiplicity(f, r, factors[k].multiplicity);
  }

  lemma CoprimeSymmetric(a: Poly, b: Poly)
    requires Coprime(a, b)
    ensures Coprime(b, a)
  {
  }

  lemma PositiveMultiplicity(f: Poly, r: real, m: nat)
    requires m >= 1 && HasMultiplicity(f, r, m)
    ensures Eval(f, r) == 0.0
  {
    hide Eval, Linear;
    if Eval(f, r) != 0.0 {
      NonRoot(f, r);
      hide HasMultiplicity;
      MultiplicityUnique(f, r, 0, m);
    }
  }

  /** Every root of f is a root of some factor. */
  lemma RootInSomeFactor(f: Poly, factors: seq<Factor>, r: real)
    requires !IsZero(f) && f == Mul([Lead(f)], Product(factors)) && Eval(f, r) == 0.0
    ensures exists k :: 0 <= k < |factors| && Eval(factors[k].poly, r) == 0.0
  {
    hide Mul, Eval, Product;
    LeadNotZero(f);
    var l: Poly := [Lead(f)];
    hide *;
    EvalMul(l, Product(factors), r);
    ConstantValue(Lead(f), r);
    TimesZero(Lead(f), Eval(Product(factors), r));
    if forall k :: 0 <= k < |factors| ==> Eval(factors[k].poly, r) != 0.0 {
      ProductWithoutRoot(factors, r);
    }
  }

  lemma LeadNotZero(f: Poly)
    requires !IsZero(f)
    ensures Lead(f) != 0.0
  {
  }
}

/** The ring of polynomials: its laws, each read off the values of both sides, and divisibility. */
module Divisibility {
  import opened Reals
  import opened Polynomials

  lemma MulCommutes(a: Poly, b: Poly)
    ensures Mul(a, b) == Mul(b, a)
  {
    hide *;
    forall x: real
      ensures Eval(Mul(a, b), x) == Eval(Mul(b, a), x)
    {
      EvalMul(a, b, x);
      EvalMul(b, a, x);
      TimesCommutes(Eval(a, x), Eval(b, x));
    }
    SameAtEveryPoint(Mul(a, b), Mul(b, a));
  }

  /** `SameValuesSamePoly`, its condition spelled out. */
  lemma SameAtEveryPoint(p: Poly, q: Poly)
    requires forall x: real :: Eval(p, x) == Eval(q, x)
    ensures p == q
  {
    SameValuesSamePoly(p, q);
  }

  lemma MulAssociates(a: Poly, b: Poly, c: Poly)
    ensures Mul(Mul(a, b), c) == Mul(a, Mul(b, c))
  {
    hide *;
    forall x: real
      ensures Eval(Mul(Mul(a, b), c), x) == Eval(Mul(a, Mul(b, c)), x)
    {
      EvalMul(a, b, x);
      EvalMul(Mul(a, b), c, x);
      EvalMul(b, c, x);
      EvalMul(a, Mul(b, c), x);
      TimesAssociates(Eval(a, x), Eval(b, x), Eval(c, x));
    }
    SameAtEveryPoint(Mul(Mul(a, b), c), Mul(a, Mul(b, c)));
  }

  /** (a b) c == (a c) b */
  lemma MulSwaps(a: Poly, b: Poly, c: Poly)
    ensures Mul(Mul(a, b), c) == Mul(Mul(a, c), b)
  {
    hide *;
    MulAssociates(a, b, c);
    MulCommutes(b, c);
    MulAssociates(a, c, b);
  }

  lemma MulDistributes(a: Poly, b: Poly, c: Poly)
    ensures Mul(a, Add(b, c)) == Add(Mul(a, b), Mul(a, c))
    ensures Mul(Add(b, c), a) == Add(Mul(b, a), Mul(c, a))
  {
    hide *;
    forall x: real
      ensures Eval(Mul(a, Add(b, c)), x) == Eval(Add(Mul(a, b), Mul(a, c)), x)
    {
      EvalAdd(b, c, x);
      EvalMul(a, Add(b, c), x);
      EvalMul(a, b, x);
      EvalMul(a, c, x);
      EvalAdd(Mul(a, b), Mul(a, c), x);
      TimesSum(Eval(a, x), Eval(b, x), Eval(c, x));
    }
    SameAtEveryPoint(Mul(a, Add(b, c)), Add(Mul(a, b), Mul(a, c)));
    MulCommutes(a, Add(b, c));
    MulCommutes(a, b);
    MulCommutes(a, c);
  }

  lemma MulDistributesSub(a: Poly, b: Poly, c: Poly)
    ensures Mul(a, Sub(b, c)) == Sub(Mul(a, b), Mul(a, c))
    ensures Mul(Sub(b, c), a) == Sub(Mul(b, a), Mul(c, a))
  {
    hide *;
    forall x: real
      ensures Eval(Mul(a, Sub(b, c)), x) == Eval(Sub(Mul(a, b), Mul(a, c)), x)
    {
      EvalSub(b, c, x);
      EvalMul(a, Sub(b, c), x);
      EvalMul(a, b, x);
      EvalMul(a, c, x);
      EvalSub(Mul(a, b), Mul(a, c), x);
      TimesDifference(Eval(a, x), Eval(b, x), Eval(c, x));
    }
    SameAtEveryPoint(Mul(a, Sub(b, c)), Sub(Mul(a, b), Mul(a, c)));
    MulCommutes(a, Sub(b, c));
    MulCommutes(a, b);
    MulCommutes(a, c);
  }

  lemma EvalUnits(x: real)
    ensures Eval(ZERO, x) == 0.0 && Eval(ONE, x) == 1.0
  {
    TimesUnits(x);
    assert ONE[1..] == [] && ZERO[1..] == [];
  }

  lemma MulUnits(a: Poly)
    ensures Mul(a, ONE) == a && Mul(ONE, a) == a
    ensures Mul(a, ZERO) == ZERO && Mul(ZERO, a) == ZERO
  {
    MulDegree(a, ZERO);
    MulDegree(ZERO, a);
    assert Mul(a, ONE) == a by {
      hide *;
      forall x: real
        ensures Eval(Mul(a, ONE), x) == Eval(a, x)
      {
        EvalMul(a, ONE, x);
        EvalUnits(x);
        TimesUnits(Eval(a, x));
      }
      SameAtEveryPoint(Mul(a, ONE), a);
    }
    MulCommutes(a, ONE);
  }

  lemma AddCommutes(a: Poly, b: Poly)
    ensures Add(a, b) == Add(b, a)
  {
    hide *;
    forall x: real
      ensures Eval(Add(a, b), x) == Eval(Add(b, a), x)
    {
      EvalAdd(a, b, x);
      EvalAdd(b, a, x);
    }
    SameAtEveryPoint(Add(a, b), Add(b, a));
  }

  lemma AddSub(a: Poly, b: Poly)
    ensures Sub(Add(a, b), b) == a && Add(Sub(a, b), b) == a
    ensures Sub(Add(a, b), a) == b
  {
    hide *;
    forall x: real
      ensures Eval(Sub(Add(a, b), b), x) == Eval(a, x)
      ensures Eval(Add(Sub(a, b), b), x) == Eval(a, x)
    {
      EvalAdd(a, b, x);
      EvalSub(Add(a, b), b, x);
      EvalSub(a, b, x);
      EvalAdd(Sub(a, b), b, x);
    }
    SameAtEveryPoint(Sub(Add(a, b), b), a);
    SameAtEveryPoint(Add(Sub(a, b), b), a);
    forall x: real
      ensures Eval(Sub(Add(a, b), a), x) == Eval(b, x)
    {
      EvalAdd(a, b, x);
      EvalSub(Add(a, b), a, x);
    }
    SameAtEveryPoint(Sub(Add(a, b), a), b);
  }

  lemma AddZero(a: Poly)
    ensures Add(a, ZERO) == a && Add(ZERO, a) == a && Sub(a, ZERO) == a && Sub(a, a) == ZERO
  {
    hide *;
    forall x: real
      ensures Eval(Add(a, ZERO), x) == Eval(a, x)
      ensures Eval(Sub(a, a), x) == Eval(ZERO, x)
    {
      EvalUnits(x);
      EvalAdd(a, ZERO, x);
      EvalSub(a, a, x);
    }
    SameAtEveryPoint(Add(a, ZERO), a);
    SameAtEveryPoint(Sub(a, a), ZERO);
    AddCommutes(a, ZERO);
    AddSub(a, ZERO);
  }

  lemma MulCancels(a: Poly, b: Poly, c: Poly)
    requires !IsZero(a) && Mul(a, b) == Mul(a, c)
    ensures b == c
  {
    assert Mul(a, Sub(b, c)) == ZERO by {
      hide Mul, Sub;
      MulDistributesSub(a, b, c);
      AddZero(Mul(a, b));
    }
    assert Sub(b, c) == ZERO by {
      hide Mul, Sub;
      MulDegree(a, Sub(b, c));
    }
    hide *;
    AddSub(b, c);
    AddZero(c);
  }

  // ------------------------------------------------------------------ derivatives

  lemma DerMul(a: Poly, b: Poly)
    ensures Der(Mul(a, b)) == Add(Mul(Der(a), b), Mul(a, Der(b)))
  {
    hide *;
    forall x: real
      ensures Eval(Der(Mul(a, b)), x) == Eval(Add(Mul(Der(a), b), Mul(a, Der(b))), x)
    {
      EvalDer(Mul(a, b), x);
      EvalMul(a, b, x);
      EvalDer(a, x);
      EvalDer(b, x);
      EvalMul(Der(a), b, x);
      EvalMul(a, Der(b), x);
      EvalAdd(Mul(Der(a), b), Mul(a, Der(b)), x);
    }
    SameAtEveryPoint(Der(Mul(a, b)), Add(Mul(Der(a), b), Mul(a, Der(b))));
  }

  // ------------------------------------------------------------------ divisibility

  ghost predicate Divides(d: Poly, a: Poly) {
    exists q: Poly :: Mul(q, d) == a
  }

  lemma DividesIntro(q: Poly, d: Poly, a: Poly)
    requires Mul(q, d) == a
    ensures Divides(d, a)
  {
  }

  lemma DividesItself(a: Poly)
    ensures Divides(a, a) && Divides(a, ZERO) && Divides(ONE, a)
  {
    hide Mul;
    MulUnits(a);
    DividesIntro(ONE, a, a);
    DividesIntro(ZERO, a, ZERO);
    DividesIntro(a, ONE, a);
  }

  lemma DividesMultiple(d: Poly, a: Poly, b: Poly)
    requires Divides(d, a)
    ensures Divides(d, Mul(a, b)) && Divides(d, Mul(b, a))
  {
    hide Mul;
    var q: Poly :| Mul(q, d) == a;
    MulCommutes(b, a);
    MulAssociates(b, q, d);
    DividesIntro(Mul(b, q), d, Mul(b, a));
  }

  lemma DividesSum(d: Poly, a: Poly, b: Poly)
    requires Divides(d, a) && Divides(d, b)
    ensures Divides(d, Add(a, b)) && Divides(d, Sub(a, b))
  {
    hide Mul, Add, Sub;
    var q: Poly :| Mul(q, d) == a;
    var r: Poly :| Mul(r, d) == b;
    MulDistributes(d, q, r);
    MulDistributesSub(d, q, r);
    DividesIntro(Add(q, r), d, Add(a, b));
    DividesIntro(Sub(q, r), d, Sub(a, b));
  }

  lemma DividesTransitive(d: Poly, a: Poly, b: Poly)
    requires Divides(d, a) && Divides(a, b)
    ensures Divides(d, b)
  {
    hide Mul;
    var q: Poly :| Mul(q, a) == b;
    DividesMultiple(d, a, q);
  }

  /** A summand is divisible with the sum and the other summand. */
  lemma DividesOther(d: Poly, a: Poly, b: Poly)
    requires Divides(d, a) && Divides(d, Add(a, b))
    ensures Divides(d, b)
  {
    hide *;
    DividesSum(d, Add(a, b), a);
    AddSub(a, b);
  }

  lemma DivisorDegree(d: Poly, a: Poly)
    requires Divides(d, a) && !IsZero(a)
    ensures !IsZero(d) && Deg(d) <= Deg(a)
  {
    hide Mul;
    var q: Poly :| Mul(q, d) == a;
    MulDegree(q, d);
  }

  ghost predicate Combination(c: Poly, a: Poly, b: Poly) {
    exists s: Poly, t: Poly :: Add(Mul(s, a), Mul(t, b)) == c
  }

  /** g is the monic greatest common divisor of a and b, and Bezout holds. */
  ghost predicate IsGcd(g: Poly, a: Poly, b: Poly) {
    Lead(g) == 1.0 && Divides(g, a) && Divides(g, b) && Combination(g, a, b)
  }

  lemma CommonDivisorDividesCombination(d: Poly, a: Poly, b: Poly, c: Poly)
    requires Divides(d, a) && Divides(d, b) && Combination(c, a, b)
    ensures Divides(d, c)
  {
    hide Mul, Add;
    var s: Poly, t: Poly :| Add(Mul(s, a), Mul(t, b)) == c;
    DividesMultiple(d, a, s);
    DividesMultiple(d, b, t);
    DividesSum(d, Mul(s, a), Mul(t, b));
  }

  /** A greatest common divisor is divisible by every common divisor. */
  lemma GcdIsGreatest(g: Poly, a: Poly, b: Poly, d: Poly)
    requires IsGcd(g, a, b) && Divides(d, a) && Divides(d, b)
    ensures Divides(d, g) && Deg(d) <= Deg(g)
  {
    CommonDivisorDividesCombination(d, a, b, g);
    DivisorDegree(d, g);
  }

  /** Divisors of one another with leading coefficient 1 are equal. */
  lemma MonicAssociates(g: Poly, h: Poly)
    requires Lead(g) == 1.0 && Lead(h) == 1.0 && Divides(g, h) && Divides(h, g)
    ensures g == h
  {
    DivisorDegree(g, h);
    DivisorDegree(h, g);
    hide Mul;
    var q: Poly :| Mul(q, g) == h;
    MulDegree(q, g);
    TimesUnits(Lead(q));
    assert q == [1.0];
    MulUnits(g);
  }

  lemma GcdUnique(g: Poly, h: Poly, a: Poly, b: Poly)
    requires IsGcd(g, a, b) && IsGcd(h, a, b)
    ensures g == h
  {
    GcdIsGreatest(g, a, b, h);
    GcdIsGreatest(h, a, b, g);
    MonicAssociates(g, h);
  }
}

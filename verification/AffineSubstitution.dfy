/** Affine substitution: the polynomial p(a + b t) as a list in t. */
module AffineSubstitution {
  import opened Reals
  import opened Polynomials
  import opened Bernstein

  /** p(a + b t) by Horner's rule on lists. */
  function Compose(p: seq<real>, a: real, b: real): (c: seq<real>)
    requires |p| >= 1
    ensures |c| == |p|
  {
    if |p| == 1 then p
    else RawAdd([p[0]], RawMul([a, b], Compose(p[1..], a, b)))
  }

  lemma EvalLinear(a: real, b: real, t: real)
    ensures Eval([a, b], t) == a + Times(b, t) && DEval([a, b], t) == b
  {
    hide Times;
    assert [a, b] == [a] + [b] && [b] == [b] + [];
    EvalCons(a, [b], t);
    EvalCons(b, [], t);
    TimesUnits(t);
    TimesCommutes(b, t);
  }

  lemma EvalSingle(k: real, t: real)
    ensures Eval([k], t) == k && DEval([k], t) == 0.0
  {
    hide Times;
    assert [k] == [k] + [];
    EvalCons(k, [], t);
    TimesUnits(t);
  }

  lemma ChainStep(b: real, x: real, e: real, d: real)
    ensures Times(b, e) + Times(x, Times(b, d)) == Times(b, e + Times(x, d))
  {
  }

  /** Values and derivatives follow the substitution. */
  lemma {:induction false} EvalCompose(p: seq<real>, a: real, b: real, t: real)
    requires |p| >= 1
    ensures Eval(Compose(p, a, b), t) == Eval(p, a + Times(b, t))
    ensures DEval(Compose(p, a, b), t) == Times(b, DEval(p, a + Times(b, t)))
    decreases |p|
  {
    hide Times, Eval, DEval, RawMul;
    var x := a + Times(b, t);
    assert p == [p[0]] + p[1..];
    EvalCons(p[0], p[1..], x);
    if |p| == 1 {
      assert p == [p[0]];
      EvalSingle(p[0], t);
      EvalSingle(p[0], x);
      TimesUnits(b);
    } else {
      var c := Compose(p[1..], a, b);
      EvalCompose(p[1..], a, b, t);
      EvalRawMul([a, b], c, t);
      EvalLinear(a, b, t);
      EvalSingle(p[0], t);
      EvalRawAdd([p[0]], RawMul([a, b], c), t);
      ChainStep(b, x, Eval(p[1..], x), DEval(p[1..], x));
    }
  }

  /** Substitutions compose: p(a + b (c + d t)) is p((a + b c) + (b d) t). */
  lemma ComposeCompose(p: seq<real>, a: real, b: real, c: real, d: real)
    requires |p| >= 1
    ensures Compose(Compose(p, a, b), c, d) == Compose(p, a + Times(b, c), Times(b, d))
  {
    hide Times, Eval, Compose;
    forall t: real
      ensures Eval(Compose(Compose(p, a, b), c, d), t) == Eval(Compose(p, a + Times(b, c), Times(b, d)), t)
    {
      EvalCompose(Compose(p, a, b), c, d, t);
      EvalCompose(p, a, b, c + Times(d, t));
      EvalCompose(p, a + Times(b, c), Times(b, d), t);
      TimesSum(b, c, Times(d, t));
      TimesAssociates(b, d, t);
    }
    SameValuesSameList(Compose(Compose(p, a, b), c, d), Compose(p, a + Times(b, c), Times(b, d)));
  }

  /** Bernstein coefficients of p on [a, a + w]. */
  ghost predicate OnInterval(p: seq<real>, a: real, w: real, b: seq<real>) {
    |b| == |p| >= 1 && forall t: real :: BEval(b, t) == Eval(p, a + Times(w, t))
  }

  /** They are the Bernstein form of the substituted list. */
  lemma OnIntervalUnique(p: seq<real>, a: real, w: real, b: seq<real>)
    requires OnInterval(p, a, w, b)
    ensures PowerOf(b) == Compose(p, a, w) && b == BernsteinOf(Compose(p, a, w))
  {
    hide Times, Eval, BEval, PowerOf, BernsteinOf, Compose;
    forall t: real
      ensures Eval(PowerOf(b), t) == Eval(Compose(p, a, w), t)
    {
      EvalPowerOf(b, t);
      EvalCompose(p, a, w, t);
      assert BEval(b, t) == Eval(p, a + Times(w, t));
    }
    SameValuesSameList(PowerOf(b), Compose(p, a, w));
    BernsteinOfPowerOf(b);
  }

  lemma OnWholeInterval(p: seq<real>)
    requires |p| >= 1
    ensures OnInterval(p, 0.0, 1.0, BernsteinOf(p))
  {
    hide Eval, BEval, BernsteinOf;
    forall t: real
      ensures BEval(BernsteinOf(p), t) == Eval(p, 0.0 + Times(1.0, t))
    {
      BEvalBernsteinOf(p, t);
    }
  }

  lemma SplitArithmetic(a: real, w: real, u: real, t: real)
    ensures a + Times(w, u * t) == a + Times(w * u, t)
    ensures a + Times(w, u + (1.0 - u) * t) == (a + w * u) + Times(w - w * u, t)
  {
  }

  /** The edges of de Casteljau's scheme hold p on the two parts. */
  lemma OnParts(p: seq<real>, a: real, w: real, u: real, b: seq<real>)
    requires OnInterval(p, a, w, b)
    ensures OnInterval(p, a, w * u, Left(u, b))
    ensures OnInterval(p, a + w * u, w - w * u, Right(u, b))
  {
    hide Times, Eval, BEval, Left, Right;
    forall t: real
      ensures BEval(Left(u, b), t) == Eval(p, a + Times(w * u, t))
      ensures BEval(Right(u, b), t) == Eval(p, (a + w * u) + Times(w - w * u, t))
    {
      BEvalLeft(u, b, t);
      BEvalRight(u, b, t);
      SplitArithmetic(a, w, u, t);
      assert BEval(b, u * t) == Eval(p, a + Times(w, u * t));
      assert BEval(b, u + (1.0 - u) * t) == Eval(p, a + Times(w, u + (1.0 - u) * t));
    }
  }

  /** The ends are the values at the ends. */
  lemma EndValues(p: seq<real>, a: real, w: real, b: seq<real>)
    requires OnInterval(p, a, w, b)
    ensures b[0] == Eval(p, a) && b[|b| - 1] == Eval(p, a + w)
  {
    hide Times, Eval, BEval;
    BEvalEnds(b);
    TimesUnits(w);
    assert BEval(b, 0.0) == Eval(p, a + Times(w, 0.0));
    assert BEval(b, 1.0) == Eval(p, a + Times(w, 1.0));
  }

  lemma {:induction false} BEvalEnds(b: seq<real>)
    requires |b| >= 1
    ensures BEval(b, 0.0) == b[0] && BEval(b, 1.0) == b[|b| - 1]
    decreases |b|
  {
    hide Times;
    if |b| >= 2 {
      var n := |b| - 1;
      BEvalEnds(b[..n]);
      BEvalEnds(b[1..]);
      TimesUnits(BEval(b[..n], 0.0));
      TimesUnits(BEval(b[1..], 0.0));
      TimesUnits(BEval(b[..n], 1.0));
      TimesUnits(BEval(b[1..], 1.0));
    }
  }

  /** The first difference is the derivative at the left end. */
  lemma EndDerivative(p: seq<real>, a: real, w: real, b: seq<real>)
    requires OnInterval(p, a, w, b) && |b| >= 2
    ensures Times((|b| - 1) as real, b[1] - b[0]) == Times(w, DEval(p, a))
  {
    hide Times, Eval, OnInterval, Compose, PowerOf;
    var c := PowerOf(b);
    OnIntervalUnique(p, a, w, b);
    EvalCompose(p, a, w, 0.0);
    TimesUnits(w);
    PowerOfAt(b, 1);
    ChooseOne(|b| - 1);
    DerivativeAtZero(c);
  }

  lemma {:induction false} ChooseOne(n: nat)
    ensures Choose(n, 1) == n
  {
    if n > 0 {
      ChooseOne(n - 1);
    }
  }

  lemma DerivativeAtZero(c: seq<real>)
    requires |c| >= 2
    ensures DEval(c, 0.0) == c[1]
  {
    hide Times;
    var d := c[1..];
    TimesUnits(Eval(d[1..], 0.0));
    TimesUnits(DEval(d, 0.0));
    assert d[0] == c[1];
  }
}

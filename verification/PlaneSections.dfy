/** A plane and a sphere or cylinder, by substitution: the section is read off a quadratic in the plane's basis. */
module PlaneSections {
  import opened Basics
  import opened Reals
  import opened Vectors

  datatype Quadric = Sphere(o: V, r: real) | Cylinder(o: V, axis: V, r: real)

  function AxisOf(q: Quadric): Option<V> {
    if q.Sphere? then None else Some(q.axis)
  }

  /** A cylinder has an axis. */
  predicate Proper(q: Quadric) {
    q.Cylinder? ==> Dot(q.axis, q.axis) > 0.0
  }

  /** x y / z */
  function Part(x: real, y: real, z: real): real
    requires z > 0.0
  {
    x * y / z
  }

  /** `quadric`: zero on the surface. */
  function Value(q: Quadric, p: V): real
    requires Proper(q)
  {
    var w := Sub(p, q.o);
    if q.Sphere? then Dot(w, w) - q.r * q.r
    else Dot(w, w) - Part(Dot(w, q.axis), Dot(w, q.axis), Dot(q.axis, q.axis)) - q.r * q.r
  }

  /** From the point of the axis at parameter s to p. */
  ghost function FromAxis(q: Quadric, p: V, s: real): V
    requires q.Cylinder?
  {
    Sub(p, Add(q.o, Scale(q.axis, s)))
  }

  lemma FromAxisProducts(q: Quadric, p: V, s: real)
    requires q.Cylinder?
    ensures var u, w, a := FromAxis(q, p, s), Sub(p, q.o), q.axis;
      && Dot(u, a) == Dot(w, a) - s * Dot(a, a)
      && Dot(u, u) == Dot(w, w) - s * Dot(w, a) - s * Dot(u, a)
  {
    var u, w, a := FromAxis(q, p, s), Sub(p, q.o), q.axis;
    assert u == Sub(w, Scale(a, s));
    hide Dot, Add;
    DotSub(w, Scale(a, s), a);
    DotSub(w, Scale(a, s), w);
    DotSub(w, Scale(a, s), u);
    DotScale(a, s, a);
    DotScale(a, s, w);
    DotScale(a, s, u);
    DotCommutes(a, w);
    DotCommutes(u, a);
    DotCommutes(u, w);
  }

  lemma FootArithmetic(ww: real, wa: real, aa: real, s: real)
    requires aa > 0.0
    ensures wa - s * aa == 0.0 <==> s == wa / aa
    ensures s == wa / aa ==> s * wa == wa * wa / aa
  {
  }

  /** The foot of the perpendicular from p on the axis is the point at parameter s, at distance r from p. */
  ghost predicate FootAt(q: Quadric, p: V, s: real)
    requires q.Cylinder?
  {
    Dot(FromAxis(q, p, s), q.axis) == 0.0 && Dot(FromAxis(q, p, s), FromAxis(q, p, s)) == q.r * q.r
  }

  /** The function is zero exactly on the surface: at distance r from the centre, or from the foot of the perpendicular
      on the axis. */
  lemma ValueIsDistance(q: Quadric, p: V)
    requires Proper(q)
    ensures q.Sphere? ==> (Value(q, p) == 0.0 <==> Dot(Sub(p, q.o), Sub(p, q.o)) == q.r * q.r)
    ensures q.Cylinder? ==> (Value(q, p) == 0.0 <==> exists s :: FootAt(q, p, s))
  {
    if q.Cylinder? {
      var w, a := Sub(p, q.o), q.axis;
      var s := Dot(w, a) / Dot(a, a);
      forall t: real
        ensures FootAt(q, p, t) <==> t == s && Value(q, p) == 0.0
      {
        hide Dot, Sub, FromAxis;
        FromAxisProducts(q, p, t);
        FootArithmetic(Dot(w, w), Dot(w, a), Dot(a, a), t);
      }
      assert FootAt(q, p, s) <==> Value(q, p) == 0.0;
    }
  }

  // ------------------------------------------------------------------ the basis

  /** e1 and e2 span the plane, across each other; e1 runs along the axis's projection where it has one. */
  predicate BasisOf(n: V, axis: Option<V>, e1: V, e2: V) {
    && Dot(e1, e1) > 0.0 && Dot(e1, n) == 0.0 && e2 == Cross(n, e1)
    && (axis.Some? ==> Dot(e2, axis.value) == 0.0)
    && (axis.Some? ==>
          if Cross(axis.value, n) == ORIGIN then Dot(e1, axis.value) == 0.0 else Projected(n, axis.value, e1))
  }

  /** e1 is a less its part along n; with a in the plane, a itself. */
  predicate Projected(n: V, a: V, e1: V) {
    && Dot(e1, a) == Dot(e1, e1) && Dot(e1, e1) <= Dot(a, a)
    && (Dot(e1, e1) == Dot(a, a) ==> e1 == a)
  }

  lemma ProjectionArithmetic(aa: real, an: real, nn: real, k: real)
    requires k * nn == an
    ensures aa - k * an == (aa - k * an) - k * (an - k * nn)
    ensures k * an == (k * k) * nn
  {
    assert k * an == k * (k * nn);
  }

  /** The projection of a onto the plane. */
  lemma ProjectionFacts(n: V, a: V, e1: V, k: real)
    requires Dot(n, n) > 0.0 && k * Dot(n, n) == Dot(a, n) && e1 == Sub(a, Scale(n, k))
    ensures Dot(e1, n) == 0.0 && Dot(Cross(n, e1), a) == 0.0 && Projected(n, a, e1)
  {
    hide Dot, Cross;
    var aa, an, nn := Dot(a, a), Dot(a, n), Dot(n, n);
    DotSub(a, Scale(n, k), n);
    DotSub(a, Scale(n, k), a);
    DotSub(a, Scale(n, k), e1);
    DotScale(n, k, n);
    DotScale(n, k, a);
    DotScale(n, k, e1);
    DotCommutes(n, a);
    DotCommutes(n, e1);
    DotCommutes(a, e1);
    CrossShifted(n, a, k);
    CrossNormal(n, a);
    ProjectionArithmetic(aa, an, nn, k);
    ProjectionShorter(n, a, e1, k, aa, an, nn);
  }

  lemma SquareTimes(k: real, n: real)
    requires n > 0.0
    ensures (k * k) * n >= 0.0 && ((k * k) * n == 0.0 ==> k == 0.0)
  {
    SquareSign(k);
    hide *;
    var s := k * k;
    assert s > 0.0 ==> s * n > 0.0;
  }

  lemma ProjectionShorter(n: V, a: V, e1: V, k: real, aa: real, an: real, nn: real)
    requires nn > 0.0 && k * an == (k * k) * nn && e1 == Sub(a, Scale(n, k)) && aa == Dot(a, a)
    requires Dot(e1, e1) == aa - k * an
    ensures Dot(e1, e1) <= aa && (Dot(e1, e1) == aa ==> e1 == a)
  {
    hide Dot;
    SquareTimes(k, nn);
    if k == 0.0 {
      assert Scale(n, 0.0) == ORIGIN;
      assert Sub(a, ORIGIN) == a;
    }
  }

  /** The projection vanishes exactly for an axis along n. */
  lemma ProjectionZero(n: V, a: V, e1: V, k: real)
    requires Dot(n, n) > 0.0 && k * Dot(n, n) == Dot(a, n) && e1 == Sub(a, Scale(n, k))
    ensures e1 == ORIGIN <==> Cross(a, n) == ORIGIN
  {
    hide Dot, Cross;
    var aa, an, nn := Dot(a, a), Dot(a, n), Dot(n, n);
    ProjectionLength(n, a, e1, k);
    CrossLength(a, n);
    DotSelf(Cross(a, n));
    DotSelf(e1);
    ProjectionZeroArithmetic(aa, an, nn, k, Dot(e1, e1), Dot(Cross(a, n), Cross(a, n)));
  }

  lemma ProjectionZeroArithmetic(aa: real, an: real, nn: real, k: real, ee: real, cc: real)
    requires nn > 0.0 && k * nn == an && ee == aa - k * an && cc == aa * nn - an * an
    ensures ee == 0.0 <==> cc == 0.0
  {
    assert k * an * nn == an * an;
    assert Times(ee, nn) == cc;
    TimesZero(ee, nn);
  }

  lemma ProjectionLength(n: V, a: V, e1: V, k: real)
    requires Dot(n, n) > 0.0 && k * Dot(n, n) == Dot(a, n) && e1 == Sub(a, Scale(n, k))
    ensures Dot(e1, e1) == Dot(a, a) - k * Dot(a, n)
  {
    ProjectionFacts(n, a, e1, k);
    hide Dot, Cross;
    DotSub(a, Scale(n, k), a);
    DotScale(n, k, a);
    DotCommutes(n, a);
    DotCommutes(a, e1);
  }

  lemma AlongNormal(n: V, a: V, e1: V, k: real)
    requires Dot(e1, n) == 0.0 && Sub(a, Scale(n, k)) == ORIGIN
    ensures Dot(e1, a) == 0.0 && Dot(Cross(n, e1), a) == 0.0
  {
    var kn := Scale(n, k);
    assert a == kn;
    DotScale(n, k, e1);
    DotScale(n, k, Cross(n, e1));
    CrossNormal(n, e1);
  }

  /** Some coordinate direction is not along n. */
  lemma CrossUnits(n: V)
    requires Dot(n, n) > 0.0
    ensures Cross(n, V(1.0, 0.0, 0.0)) != ORIGIN || Cross(n, V(0.0, 1.0, 0.0)) != ORIGIN
  {
    hide Dot;
    DotSelf(n);
    assert Cross(n, V(1.0, 0.0, 0.0)) == V(0.0, n.z, -n.y);
    assert Cross(n, V(0.0, 1.0, 0.0)) == V(-n.z, 0.0, n.x);
  }

  /** `basis` */
  method Basis(n: V, axis: Option<V>) returns (e1: V, e2: V)
    requires Dot(n, n) > 0.0
    ensures BasisOf(n, axis, e1, e2)
  {
    hide Dot, Cross, Projected;
    e1 := ORIGIN;
    ghost var k := 0.0;
    if axis.Some? {
      k := Dot(axis.value, n) / Dot(n, n);
      e1 := Sub(axis.value, Scale(n, Dot(axis.value, n) / Dot(n, n)));
      ProjectionFacts(n, axis.value, e1, k);
      ProjectionZero(n, axis.value, e1, k);
    }
    if e1 == ORIGIN {
      CrossUnits(n);
      var units := [V(1.0, 0.0, 0.0), V(0.0, 1.0, 0.0), V(0.0, 0.0, 1.0)];
      var i := 0;
      e1 := Cross(n, units[0]);
      CrossNormal(n, units[0]);
      while e1 == ORIGIN && i < 2
        invariant 0 <= i <= 2 && e1 == Cross(n, units[i]) && Dot(e1, n) == 0.0
        invariant i == 1 ==> Cross(n, units[0]) == ORIGIN
        invariant i == 2 ==> Cross(n, units[1]) == ORIGIN && Cross(n, units[0]) == ORIGIN
      {
        i := i + 1;
        e1 := Cross(n, units[i]);
        CrossNormal(n, units[i]);
      }
      if axis.Some? {
        AlongNormal(n, axis.value, e1, k);
      }
    }
    DotSelf(e1);
    e2 := Cross(n, e1);
  }

  // ------------------------------------------------------------------ the quadratic

  /** The point of the plane with coordinates s and t. */
  function At(p0: V, e1: V, e2: V, s: real, t: real): V {
    Add(p0, Add(Scale(e1, s), Scale(e2, t)))
  }

  /** A s^2 + C t^2 + 2 D s + 2 E t + G */
  datatype Form = Form(a: real, c: real, d: real, e: real, g: real)

  function FormAt(f: Form, s: real, t: real): real {
    Times(f.a, Times(s, s)) + Times(f.c, Times(t, t)) + Times(2.0, Times(f.d, s)) + Times(2.0, Times(f.e, t)) + f.g
  }

  /** The quadratic's coefficients by the geometry. */
  function FormOf(q: Quadric, p0: V, e1: V, e2: V): Form
    requires Proper(q)
  {
    var w := Sub(p0, q.o);
    if q.Sphere? then Form(Dot(e1, e1), Dot(e2, e2), Dot(w, e1), Dot(w, e2), Dot(w, w) - q.r * q.r)
    else
      var aa, ea, wa := Dot(q.axis, q.axis), Dot(e1, q.axis), Dot(w, q.axis);
      Form(Dot(e1, e1) - Part(ea, ea, aa), Dot(e2, e2), Dot(w, e1) - Part(wa, ea, aa), Dot(w, e2),
           Dot(w, w) - Part(wa, wa, aa) - q.r * q.r)
  }

  lemma SquareOfSum(ww: real, w1: real, w2: real, e11: real, e22: real, s: real, t: real)
    ensures (ww + s * w1 + t * w2) + s * (w1 + s * e11) + t * (w2 + t * e22)
         == Times(e11, Times(s, s)) + Times(e22, Times(t, t)) + Times(2.0, Times(w1, s)) + Times(2.0, Times(w2, t)) + ww
  {
  }

  /** |p - o|^2 along the plane. */
  lemma DistanceForm(w: V, e1: V, e2: V, s: real, t: real)
    requires Dot(e1, e2) == 0.0
    ensures var u := Add(w, Add(Scale(e1, s), Scale(e2, t)));
      Dot(u, u) == FormAt(Form(Dot(e1, e1), Dot(e2, e2), Dot(w, e1), Dot(w, e2), Dot(w, w)), s, t)
  {
    hide Dot, Times, Add, Scale;
    var m := Add(Scale(e1, s), Scale(e2, t));
    var u := Add(w, m);
    DotAdd(w, m, u);
    DotAdd(w, m, w);
    DotAdd(Scale(e1, s), Scale(e2, t), u);
    DotAdd(Scale(e1, s), Scale(e2, t), w);
    DotScale(e1, s, u);
    DotScale(e2, t, u);
    DotScale(e1, s, w);
    DotScale(e2, t, w);
    DotAdd(w, m, e1);
    DotAdd(w, m, e2);
    DotAdd(Scale(e1, s), Scale(e2, t), e1);
    DotAdd(Scale(e1, s), Scale(e2, t), e2);
    DotScale(e1, s, e1);
    DotScale(e2, t, e1);
    DotScale(e1, s, e2);
    DotScale(e2, t, e2);
    DotCommutes(e1, u);
    DotCommutes(e2, u);
    DotCommutes(e1, w);
    DotCommutes(e2, w);
    DotCommutes(e2, e1);
    SquareOfSum(Dot(w, w), Dot(w, e1), Dot(w, e2), Dot(e1, e1), Dot(e2, e2), s, t);
  }

  lemma AlongForm(w: V, e1: V, e2: V, a: V, s: real, t: real)
    requires Dot(e2, a) == 0.0
    ensures Dot(Add(w, Add(Scale(e1, s), Scale(e2, t))), a) == Dot(w, a) + Times(s, Dot(e1, a))
  {
    hide Dot, Add, Scale;
    DotAdd(w, Add(Scale(e1, s), Scale(e2, t)), a);
    DotAdd(Scale(e1, s), Scale(e2, t), a);
    DotScale(e1, s, a);
    DotScale(e2, t, a);
  }

  function Inverse(z: real): real
    requires z > 0.0
  {
    1.0 / z
  }

  lemma PartIs(x: real, y: real, z: real)
    requires z > 0.0
    ensures Part(x, y, z) == Times(Times(x, y), Inverse(z))
  {
  }

  lemma PartArithmetic(wa: real, ea: real, i: real, s: real)
    ensures Times(Times(wa + Times(s, ea), wa + Times(s, ea)), i)
         == Times(Times(wa, wa), i) + Times(2.0, Times(Times(Times(wa, ea), i), s)) +
           Times(Times(Times(ea, ea), i), Times(s, s))
  {
  }

  lemma PartOfSum(wa: real, ea: real, aa: real, s: real)
    requires aa > 0.0
    ensures Part(wa + Times(s, ea), wa + Times(s, ea), aa)
         == Part(wa, wa, aa) + Times(2.0, Times(Part(wa, ea, aa), s)) + Times(Part(ea, ea, aa), Times(s, s))
  {
    hide *;
    PartIs(wa + Times(s, ea), wa + Times(s, ea), aa);
    PartIs(ea, ea, aa);
    PartIs(wa, ea, aa);
    PartIs(wa, wa, aa);
    PartArithmetic(wa, ea, Inverse(aa), s);
  }

  lemma LessSquare(f: Form, x: real, wa: real, ea: real, aa: real, rr: real, s: real, t: real)
    requires aa > 0.0 && x == wa + Times(s, ea)
    ensures FormAt(f, s, t) - Part(x, x, aa) - rr
         == FormAt(Form(f.a - Part(ea, ea, aa), f.c, f.d - Part(wa, ea, aa), f.e, f.g - Part(wa, wa, aa) - rr), s, t)
  {
    hide Times, Part;
    PartOfSum(wa, ea, aa, s);
    TimesDifference(Times(s, s), f.a, Part(ea, ea, aa));
    TimesDifference(s, f.d, Part(wa, ea, aa));
    TimesDifference(2.0, Times(f.d, s), Times(Part(wa, ea, aa), s));
  }

  lemma ShiftedPoint(p0: V, o: V, e1: V, e2: V, s: real, t: real)
    ensures Sub(At(p0, e1, e2, s, t), o) == Add(Sub(p0, o), Add(Scale(e1, s), Scale(e2, t)))
  {
  }

  lemma SphereIsForm(q: Quadric, w: V, u: V, p: V, p0: V, e1: V, e2: V, s: real, t: real)
    requires q.Sphere? && w == Sub(p0, q.o) && u == Sub(p, q.o)
    requires Dot(u, u) == FormAt(Form(Dot(e1, e1), Dot(e2, e2), Dot(w, e1), Dot(w, e2), Dot(w, w)), s, t)
    ensures Value(q, p) == FormAt(FormOf(q, p0, e1, e2), s, t)
  {
    hide Dot, Times, Sub, FormAt;
    FormLess(Form(Dot(e1, e1), Dot(e2, e2), Dot(w, e1), Dot(w, e2), Dot(w, w)), q.r * q.r, s, t);
  }

  lemma FormLess(f: Form, x: real, s: real, t: real)
    ensures FormAt(f, s, t) - x == FormAt(f.(g := f.g - x), s, t)
  {
    hide Times;
  }

  lemma CylinderIsForm(q: Quadric, w: V, u: V, p: V, p0: V, e1: V, e2: V, s: real, t: real)
    requires q.Cylinder? && Proper(q) && w == Sub(p0, q.o) && u == Sub(p, q.o)
    requires Dot(u, u) == FormAt(Form(Dot(e1, e1), Dot(e2, e2), Dot(w, e1), Dot(w, e2), Dot(w, w)), s, t)
    requires Dot(u, q.axis) == Dot(w, q.axis) + Times(s, Dot(e1, q.axis))
    ensures Value(q, p) == FormAt(FormOf(q, p0, e1, e2), s, t)
  {
    hide Dot, Times, Sub, FormAt, Part;
    var ea, wa, aa, rr := Dot(e1, q.axis), Dot(w, q.axis), Dot(q.axis, q.axis), q.r * q.r;
    assert Value(q, p) == Dot(u, u) - Part(Dot(u, q.axis), Dot(u, q.axis), aa) - rr;
    var f := Form(Dot(e1, e1), Dot(e2, e2), Dot(w, e1), Dot(w, e2), Dot(w, w));
    LessSquare(f, Dot(u, q.axis), wa, ea, aa, rr, s, t);
  }

  /** The surface's function is the quadratic in the plane's coordinates: no cross term survives. */
  lemma ValueIsForm(q: Quadric, n: V, p0: V, e1: V, e2: V, s: real, t: real)
    requires Proper(q) && BasisOf(n, AxisOf(q), e1, e2)
    ensures Value(q, At(p0, e1, e2, s, t)) == FormAt(FormOf(q, p0, e1, e2), s, t)
  {
    var w, p := Sub(p0, q.o), At(p0, e1, e2, s, t);
    ShiftedPoint(p0, q.o, e1, e2, s, t);
    CrossNormal(n, e1);
    DotCommutes(e1, e2);
    DistanceForm(w, e1, e2, s, t);
    hide Dot, Times, Add, Scale, Sub, Cross, At, Projected, FormAt, FormOf, Value;
    if q.Cylinder? {
      AlongForm(w, e1, e2, q.axis, s, t);
      CylinderIsForm(q, w, Sub(p, q.o), p, p0, e1, e2, s, t);
    } else {
      SphereIsForm(q, w, Sub(p, q.o), p, p0, e1, e2, s, t);
    }
  }

  /** The five samples and the sixth. */
  lemma Samples(f: Form)
    ensures FormAt(f, 0.0, 0.0) == f.g
    ensures (FormAt(f, 1.0, 0.0) + FormAt(f, -1.0, 0.0)) / 2.0 - f.g == f.a
    ensures (FormAt(f, 0.0, 1.0) + FormAt(f, 0.0, -1.0)) / 2.0 - f.g == f.c
    ensures (FormAt(f, 1.0, 0.0) - FormAt(f, -1.0, 0.0)) / 4.0 == f.d
    ensures (FormAt(f, 0.0, 1.0) - FormAt(f, 0.0, -1.0)) / 4.0 == f.e
    ensures (FormAt(f, 1.0, 1.0) - FormAt(f, 1.0, 0.0) - FormAt(f, 0.0, 1.0) + f.g) / 2.0 == 0.0
  {
  }

  // ------------------------------------------------------------------ signs

  lemma PartAtMost(x: real, z: real)
    requires 0.0 < x <= z
    ensures Part(x, x, z) <= x && (Part(x, x, z) == x ==> x == z)
  {
    PartIs(x, x, z);
    var i := Inverse(z);
    assert Times(z, i) == 1.0;
    hide Part, Inverse;
    ShareAtMost(x, z, i);
  }

  lemma ShareAtMost(x: real, z: real, i: real)
    requires 0.0 < x <= z && Times(z, i) == 1.0
    ensures Times(Times(x, x), i) <= x && (Times(Times(x, x), i) == x ==> x == z)
  {
    hide Times;
    TimesSign(z, i);
    TimesZero(z, i);
    TimesDifference(i, z, x);
    TimesSign(z - x, i);
    TimesAssociates(x, x, i);
    TimesUnits(x);
    TimesDifference(x, 1.0, Times(x, i));
    TimesSign(x, 1.0 - Times(x, i));
    TimesZero(x, 1.0 - Times(x, i));
    TimesZero(z - x, i);
  }

  lemma PartOfZero(x: real, z: real)
    requires z > 0.0
    ensures Part(0.0, x, z) == 0.0 && Part(x, 0.0, z) == 0.0 && Part(x, z, z) == x
  {
    PartIs(0.0, x, z);
    PartIs(x, 0.0, z);
  }

  /** By the Cauchy-Schwarz inequality on the axis term: the coefficient across is positive, the one along e1 not
      negative, and zero only for an axis in the plane, where the linear term along it vanishes too. */
  lemma Signs(q: Quadric, n: V, p0: V, e1: V, e2: V)
    requires Dot(n, n) > 0.0 && Proper(q) && BasisOf(n, AxisOf(q), e1, e2)
    ensures var f := FormOf(q, p0, e1, e2);
      && f.c > 0.0 && f.c == Dot(e2, e2) && f.a >= 0.0 && (f.a == 0.0 ==> f.d == 0.0)
      && (q.Sphere? || Cross(q.axis, n) == ORIGIN ==> f.a == Dot(e1, e1))
      && (q.Cylinder? && Cross(q.axis, n) != ORIGIN && f.a != 0.0 ==> f.a < Dot(e1, e1))
  {
    hide Dot, Cross, Part;
    CrossLength(n, e1);
    DotCommutes(n, e1);
    TimesSign(Dot(n, n), Dot(e1, e1));
    if q.Cylinder? {
      var aa, ea, wa := Dot(q.axis, q.axis), Dot(e1, q.axis), Dot(Sub(p0, q.o), q.axis);
      PartOfZero(0.0, aa);
      PartOfZero(wa, aa);
      if Cross(q.axis, n) != ORIGIN {
        PartAtMost(ea, aa);
        PartPositive(ea, aa);
      }
    }
  }

  lemma PartPositive(x: real, z: real)
    requires x > 0.0 && z > 0.0
    ensures Part(x, x, z) > 0.0
  {
    PartIs(x, x, z);
    TimesSign(x, x);
    TimesSign(Times(x, x), Inverse(z));
  }

  // ------------------------------------------------------------------ the conic

  datatype Section =
    | Empty
    | PointAt(s: real, t: real)
    | CircleAt(s: real, t: real, radius: real)
    | EllipseAt(s: real, t: real, semiFirst: real, semiSecond: real)
    | OneLine(t: real)
    | TwoLines(t0: real, t1: real)

  /** The section has the quadratic's zeros, in a basis with squared lengths l1 and l2. */
  ghost predicate Shows(x: Section, f: Form, l1: real, l2: real) {
    match x
    case Empty => forall s, t :: FormAt(f, s, t) != 0.0
    case PointAt(s0, t0) => forall s, t :: FormAt(f, s, t) == 0.0 <==> s == s0 && t == t0
    case CircleAt(s0, t0, r) =>
      r > 0.0 && forall s, t :: FormAt(f, s, t) == 0.0 <==> Distance2(l1, l2, s - s0, t - t0) == Times(r, r)
    case EllipseAt(s0, t0, a, b) =>
      a > b > 0.0 && forall s, t :: FormAt(f, s, t) == 0.0 <==>
        Times(Times(l1, Times(s - s0, s - s0)), Times(b, b)) + Times(Times(l2, Times(t - t0, t - t0)), Times(a, a))
          == Times(Times(a, a), Times(b, b))
    case OneLine(t0) => forall s, t :: FormAt(f, s, t) == 0.0 <==> t == t0
    case TwoLines(t0, t1) => t0 != t1 && forall s, t :: FormAt(f, s, t) == 0.0 <==> t == t0 || t == t1
  }

  /** The squared distance of two points of the plane by their coordinates' differences. */
  function Distance2(l1: real, l2: real, s: real, t: real): real {
    Times(l1, Times(s, s)) + Times(l2, Times(t, t))
  }

  ghost predicate SquareRoot(sqrt: real -> real) {
    forall x: real :: x >= 0.0 ==> sqrt(x) >= 0.0 && Times(sqrt(x), sqrt(x)) == x
  }

  // one direction free

  lemma FreeForm(f: Form, s: real, t: real)
    requires f.a == 0.0 && f.d == 0.0
    ensures FormAt(f, s, t) == Times(f.c, Times(t, t)) + Times(2.0, Times(f.e, t)) + f.g
  {
  }

  lemma CompleteSquare(c: real, e: real, g: real, t: real)
    ensures Times(c, Times(c, Times(t, t)) + Times(2.0, Times(e, t)) + g)
         == Times(Times(c, t) + e, Times(c, t) + e) - (Times(e, e) - Times(c, g))
  {
  }

  /** c t + e is a square root of the discriminant at a zero. */
  lemma FreeZero(f: Form, s: real, t: real)
    requires f.a == 0.0 && f.d == 0.0 && f.c > 0.0
    ensures FormAt(f, s, t) == 0.0 <==>
      Times(Times(f.c, t) + f.e, Times(f.c, t) + f.e) == Times(f.e, f.e) - Times(f.c, f.g)
  {
    FreeForm(f, s, t);
    CompleteSquare(f.c, f.e, f.g, t);
    hide Times, FormAt;
    TimesZero(f.c, FormAt(f, s, t));
  }

  lemma EqualSquares(x: real, y: real)
    ensures Times(x, x) == Times(y, y) <==> x == y || x == -y
  {
    assert Times(x, x) - Times(y, y) == Times(x - y, x + y);
    TimesZero(x - y, x + y);
  }

  lemma Solve(c: real, e: real, v: real, t: real)
    requires c > 0.0
    ensures Times(c, t) + e == v <==> t == (v - e) / c
  {
    var u := (v - e) / c;
    assert Times(c, u) == v - e;
    hide Times;
    TimesDifference(c, t, u);
    TimesZero(c, t - u);
  }

  method FreeSection(f: Form, sqrt: real -> real) returns (x: Section)
    requires f.a == 0.0 && f.d == 0.0 && f.c > 0.0 && SquareRoot(sqrt)
    ensures forall l1, l2 :: Shows(x, f, l1, l2)
  {
    hide Times, FormAt;
    var disc := Times(f.e, f.e) - Times(f.c, f.g);
    forall s, t
      ensures FormAt(f, s, t) == 0.0 <==> Times(Times(f.c, t) + f.e, Times(f.c, t) + f.e) == disc
    {
      FreeZero(f, s, t);
    }
    if disc < 0.0 {
      forall t: real
        ensures Times(Times(f.c, t) + f.e, Times(f.c, t) + f.e) >= 0.0
      {
        SquareOf(Times(f.c, t) + f.e);
      }
      return Empty;
    }
    if disc == 0.0 {
      forall t: real
        ensures Times(Times(f.c, t) + f.e, Times(f.c, t) + f.e) == 0.0 <==> t == -f.e / f.c
      {
        TimesZero(Times(f.c, t) + f.e, Times(f.c, t) + f.e);
        Solve(f.c, f.e, 0.0, t);
      }
      return OneLine(-f.e / f.c);
    }
    var root := sqrt(disc);
    TimesUnits(root);
    var t0, t1 := (-f.e + root) / f.c, (-f.e - root) / f.c;
    forall t: real
      ensures Times(Times(f.c, t) + f.e, Times(f.c, t) + f.e) == disc <==> t == t0 || t == t1
    {
      EqualSquares(Times(f.c, t) + f.e, root);
      Solve(f.c, f.e, root, t);
      Solve(f.c, f.e, -root, t);
    }
    Solve(f.c, f.e, root, t0);
    Solve(f.c, f.e, -root, t0);
    assert root != 0.0 by {
      TimesUnits(root);
    }
    return TwoLines(t0, t1);
  }

  lemma SquareOf(x: real)
    ensures Times(x, x) >= 0.0 && (Times(x, x) == 0.0 <==> x == 0.0)
  {
    SquareSign(x);
  }

  // a centre

  function Constant(f: Form): real
    requires f.a != 0.0 && f.c != 0.0
  {
    f.g - f.d * f.d / f.a - f.e * f.e / f.c
  }

  lemma OneSquare(a: real, d: real, s: real)
    requires a > 0.0
    ensures Times(a, Times(s, s)) + Times(2.0, Times(d, s)) == Times(a, Times(s - (-d / a), s - (-d / a))) - d * d / a
  {
    var u := d / a;
    assert Times(a, u) == d;
    assert d * d / a == Times(d, u);
    assert -d / a == -u;
    OneSquareArithmetic(a, u, s);
  }

  lemma OneSquareArithmetic(a: real, u: real, s: real)
    ensures Times(a, Times(s, s)) + Times(2.0, Times(Times(a, u), s))
      == Times(a, Times(s + u, s + u)) - Times(Times(a, u), u)
  {
  }

  /** a (s - s0)^2 + c (t - t0)^2 + K */
  lemma Centred(f: Form, s: real, t: real)
    requires f.a > 0.0 && f.c > 0.0
    ensures FormAt(f, s, t) == Distance2(f.a, f.c, s - (-f.d / f.a), t - (-f.e / f.c)) + Constant(f)
  {
    hide Times;
    OneSquare(f.a, f.d, s);
    OneSquare(f.c, f.e, t);
  }

  lemma DistanceSign(l1: real, l2: real, s: real, t: real)
    requires l1 > 0.0 && l2 > 0.0
    ensures Distance2(l1, l2, s, t) >= 0.0 && (Distance2(l1, l2, s, t) == 0.0 <==> s == 0.0 && t == 0.0)
  {
    hide Times;
    SquareOf(s);
    SquareOf(t);
    TimesSign(l1, Times(s, s));
    TimesSign(l2, Times(t, t));
    TimesZero(l1, Times(s, s));
    TimesZero(l2, Times(t, t));
  }

  lemma RootPositive(m: real, root: real)
    requires m > 0.0 && root >= 0.0 && Times(root, root) == m
    ensures root > 0.0
  {
  }

  lemma LargerRoot(x: real, y: real)
    requires x >= 0.0 && y >= 0.0 && Times(x, x) > Times(y, y)
    ensures x > y
  {
    assert Times(x, x) - Times(y, y) == Times(x + y, x - y);
    TimesSign(x + y, x - y);
  }

  /** m / a * l */
  function Scaled(m: real, a: real, l: real): real
    requires a > 0.0
  {
    m / a * l
  }

  /** -K / a scaled by l1: more than -K for a below l1. */
  lemma Stretched(m: real, a: real, l1: real)
    requires m > 0.0 && 0.0 < a && a <= l1
    ensures Scaled(m, a, l1) >= m && (a < l1 ==> Scaled(m, a, l1) > m) && (a == l1 ==> Scaled(m, a, l1) == m)
    ensures Times(a, Scaled(m, a, l1)) == Times(m, l1)
  {
    var q := m / a;
    assert Times(a, q) == m;
    StretchedArithmetic(m, a, l1, q);
  }

  lemma StretchedArithmetic(m: real, a: real, l1: real, q: real)
    requires m > 0.0 && 0.0 < a && a <= l1 && Times(a, q) == m
    ensures q * l1 >= m && (a < l1 ==> q * l1 > m) && (a == l1 ==> q * l1 == m)
    ensures Times(a, q * l1) == Times(m, l1)
  {
    assert q > 0.0;
    assert q * l1 == Times(a, q) + q * (l1 - a);
    TimesSign(q, l1 - a);
    assert Times(a, q * l1) == Times(Times(a, q), l1);
  }

  /** Two forms of the ellipse's equation. */
  lemma EllipseEquation(a: real, l1: real, l2: real, m: real, n: real, x: real, y: real)
    requires a > 0.0 && l1 > 0.0 && m > 0.0 && Times(a, n) == Times(m, l1)
    ensures Times(a, x) + Times(l2, y) == m <==> Times(Times(l1, x), m) + Times(Times(l2, y), n) == Times(n, m)
  {
    var left := Times(a, x) + Times(l2, y) - m;
    var right := Times(Times(l1, x), m) + Times(Times(l2, y), n) - Times(n, m);
    EllipseArithmetic(a, l1, l2, m, n, x, y);
    TimesSign(l1, m);
    hide Times;
    TimesZero(a, right);
    TimesZero(Times(l1, m), left);
  }

  lemma EllipseArithmetic(a: real, l1: real, l2: real, m: real, n: real, x: real, y: real)
    requires Times(a, n) == Times(m, l1)
    ensures Times(a, Times(Times(l1, x), m) + Times(Times(l2, y), n) - Times(n, m))
         == Times(Times(l1, m), Times(a, x) + Times(l2, y) - m)
  {
    assert Times(a, Times(Times(l2, y), n)) == Times(Times(a, n), Times(l2, y));
    assert Times(a, Times(n, m)) == Times(Times(a, n), m);
  }

  lemma CircleShown(f: Form, l1: real, l2: real, m: real, r: real)
    requires f.a == l1 > 0.0 && f.c == l2 > 0.0 && m == -Constant(f) && m > 0.0 && r >= 0.0 && Times(r, r) == m
    ensures Shows(CircleAt(-f.d / f.a, -f.e / f.c, r), f, l1, l2)
  {
    RootPositive(m, r);
    hide Times, FormAt, Constant, Distance2;
    forall s, t
      ensures FormAt(f, s, t) == 0.0 <==> Distance2(l1, l2, s - (-f.d / f.a), t - (-f.e / f.c)) == Times(r, r)
    {
      Centred(f, s, t);
    }
  }

  lemma EllipseShown(f: Form, l1: real, l2: real, m: real, n: real, x: real, y: real)
    requires 0.0 < f.a < l1 && f.c == l2 > 0.0 && m == -Constant(f) && m > 0.0 && n > m
    requires Times(f.a, n) == Times(m, l1) && x >= 0.0 && y >= 0.0 && Times(x, x) == n && Times(y, y) == m
    ensures x > y && Shows(EllipseAt(-f.d / f.a, -f.e / f.c, x, y), f, l1, l2)
  {
    RootPositive(m, y);
    LargerRoot(x, y);
    hide Times, FormAt, Constant;
    forall s, t
      ensures FormAt(f, s, t) == 0.0 <==>
        Times(Times(l1, Times(s - (-f.d / f.a), s - (-f.d / f.a))), Times(y, y)) +
        Times(Times(l2, Times(t - (-f.e / f.c), t - (-f.e / f.c))), Times(x, x)) == Times(Times(x, x), Times(y, y))
    {
      var u, v := s - (-f.d / f.a), t - (-f.e / f.c);
      Centred(f, s, t);
      EllipseEquation(f.a, l1, l2, m, n, Times(u, u), Times(v, v));
    }
  }

  /** `conic` for a sphere's or cylinder's section: the source's assertions against a linear section and a parabola
      hold, and neither the second direction free nor coefficients of different signs can occur. */
  method Conic(f: Form, l1: real, l2: real, circular: bool, sqrt: real -> real) returns (x: Section)
    requires SquareRoot(sqrt) && l1 > 0.0 && f.c > 0.0 && f.c == l2 && f.a >= 0.0 && (f.a == 0.0 ==> f.d == 0.0)
    requires circular ==> f.a == l1
    requires !circular ==> f.a < l1
    ensures Shows(x, f, l1, l2)
  {
    hide Times, FormAt, Distance2, Shows;
    assert !(f.a == 0.0 && f.c == 0.0);
    if f.a == 0.0 || f.c == 0.0 {
      assert f.a == 0.0 && f.d == 0.0;
      x := FreeSection(f, sqrt);
      return;
    }
    var s0, t0 := -f.d / f.a, -f.e / f.c;
    var k := f.g - f.d * f.d / f.a - f.e * f.e / f.c;
    assert (f.a > 0.0) == (f.c > 0.0);
    if k == 0.0 {
      PointShown(f, l1, l2);
      return PointAt(s0, t0);
    }
    if (k > 0.0) == (f.a > 0.0) {
      EmptyShown(f, l1, l2);
      return Empty;
    }
    x := RoundSection(f, l1, l2, -k, circular, sqrt);
  }

  /** A circle or an ellipse. */
  method RoundSection(f: Form, l1: real, l2: real, m: real, circular: bool, sqrt: real -> real) returns (x: Section)
    requires SquareRoot(sqrt) && f.a > 0.0 && f.c == l2 > 0.0 && l1 > 0.0 && m == -Constant(f) && m > 0.0
    requires if circular then f.a == l1 else f.a < l1
    ensures Shows(x, f, l1, l2)
  {
    hide Times, FormAt, Distance2, Shows, Constant, Scaled;
    Stretched(m, f.a, l1);
    Stretched(m, f.c, l2);
    var s1, s2 := sqrt(Scaled(m, f.a, l1)), sqrt(Scaled(m, f.c, l2));
    if circular {
      SameRoot(s1, s2);
      CircleShown(f, l1, l2, m, (s1 + s2) / 2.0);
      return CircleAt(-f.d / f.a, -f.e / f.c, (s1 + s2) / 2.0);
    }
    EllipseShown(f, l1, l2, m, Scaled(m, f.a, l1), s1, s2);
    assert s1 > s2;
    return EllipseAt(-f.d / f.a, -f.e / f.c, s1, s2);
  }

  lemma SameRoot(x: real, y: real)
    requires x >= 0.0 && y >= 0.0 && Times(x, x) == Times(y, y)
    ensures x == y
  {
    EqualSquares(x, y);
  }

  lemma PointShown(f: Form, l1: real, l2: real)
    requires f.a > 0.0 && f.c > 0.0 && Constant(f) == 0.0
    ensures Shows(PointAt(-f.d / f.a, -f.e / f.c), f, l1, l2)
  {
    hide Times, FormAt, Constant, Distance2;
    forall s, t
      ensures FormAt(f, s, t) == 0.0 <==> s == -f.d / f.a && t == -f.e / f.c
    {
      Centred(f, s, t);
      DistanceSign(f.a, f.c, s - (-f.d / f.a), t - (-f.e / f.c));
    }
  }

  lemma EmptyShown(f: Form, l1: real, l2: real)
    requires f.a > 0.0 && f.c > 0.0 && Constant(f) > 0.0
    ensures Shows(Empty, f, l1, l2)
  {
    hide Times, FormAt, Constant, Distance2;
    forall s, t
      ensures FormAt(f, s, t) != 0.0
    {
      Centred(f, s, t);
      DistanceSign(f.a, f.c, s - (-f.d / f.a), t - (-f.e / f.c));
    }
  }

  /** Coordinates' differences measure distances: a circle in coordinates is one in space. */
  lemma DistanceInPlane(n: V, axis: Option<V>, p: V, e1: V, e2: V, s: real, t: real, u: real, v: real)
    requires BasisOf(n, axis, e1, e2)
    ensures var d := Sub(At(p, e1, e2, s, t), At(p, e1, e2, u, v));
      Dot(d, d) == Distance2(Dot(e1, e1), Dot(e2, e2), s - u, t - v)
  {
    hide *;
    AtDifference(p, e1, e2, s, t, u, v);
    BasisAcrossNormal(n, axis, e1, e2);
    DistanceForm(ORIGIN, e1, e2, s - u, t - v);
    DotOrigin(e1);
    DotOrigin(e2);
    DotOrigin(ORIGIN);
    PlainForm(Dot(e1, e1), Dot(e2, e2), s - u, t - v);
  }

  lemma PlainForm(l1: real, l2: real, s: real, t: real)
    ensures FormAt(Form(l1, l2, 0.0, 0.0, 0.0), s, t) == Distance2(l1, l2, s, t)
  {
  }

  lemma AtDifference(p: V, e1: V, e2: V, s: real, t: real, u: real, v: real)
    ensures Sub(At(p, e1, e2, s, t), At(p, e1, e2, u, v)) == Add(ORIGIN, Add(Scale(e1, s - u), Scale(e2, t - v)))
  {
  }

  // ------------------------------------------------------------------ points

  predicate InPlane(o: V, n: V, y: V) {
    Dot(Sub(y, o), n) == 0.0
  }

  /** A plane's points are its own point moved across the normal. */
  lemma PlaneIs(o: V, n: V, u: V)
    ensures InPlane(o, n, Add(o, u)) <==> Dot(u, n) == 0.0
  {
    assert Sub(Add(o, u), o) == u;
  }

  predicate OnCircle(c: V, n: V, r: real, y: V) {
    var d := Sub(y, c);
    Dot(d, n) == 0.0 && Dot(d, d) == Times(r, r)
  }

  /** The ellipse with semi-axes a along e1 and b along e2, denominators cleared. */
  predicate OnEllipse(c: V, n: V, e1: V, e2: V, a: real, b: real, y: V) {
    var d, l1, l2 := Sub(y, c), Dot(e1, e1), Dot(e2, e2);
    && Dot(d, n) == 0.0
    && Times(Times(l2, Times(Dot(d, e1), Dot(d, e1))), Times(b, b)) +
      Times(Times(l1, Times(Dot(d, e2), Dot(d, e2))), Times(a, a))
         == Times(Times(l1, l2), Times(Times(a, a), Times(b, b)))
  }

  ghost predicate OnLine(c: V, e: V, y: V) {
    exists k :: y == Add(c, Scale(e, k))
  }

  /** The section as points: p + s e1 + t e2 has the coordinates s and t. */
  ghost predicate OnSection(x: Section, n: V, p: V, e1: V, e2: V, y: V) {
    match x
    case Empty => false
    case PointAt(s0, t0) => y == At(p, e1, e2, s0, t0)
    case CircleAt(s0, t0, r) => OnCircle(At(p, e1, e2, s0, t0), n, r, y)
    case EllipseAt(s0, t0, a, b) => OnEllipse(At(p, e1, e2, s0, t0), n, e1, e2, a, b, y)
    case OneLine(t0) => OnLine(At(p, e1, e2, 0.0, t0), e1, y)
    case TwoLines(t0, t1) => OnLine(At(p, e1, e2, 0.0, t0), e1, y) || OnLine(At(p, e1, e2, 0.0, t1), e1, y)
  }

  /** The same in coordinates. */
  ghost predicate HasCoordinates(x: Section, l1: real, l2: real, s: real, t: real) {
    match x
    case Empty => false
    case PointAt(s0, t0) => s == s0 && t == t0
    case CircleAt(s0, t0, r) => Distance2(l1, l2, s - s0, t - t0) == Times(r, r)
    case EllipseAt(s0, t0, a, b) => EllipseHolds(l1, l2, s - s0, t - t0, a, b)
    case OneLine(t0) => t == t0
    case TwoLines(t0, t1) => t == t0 || t == t1
  }

  predicate EllipseHolds(l1: real, l2: real, u: real, v: real, a: real, b: real) {
    Times(Times(l1, Times(u, u)), Times(b, b)) + Times(Times(l2, Times(v, v)), Times(a, a))
      == Times(Times(a, a), Times(b, b))
  }

  lemma ShowsAt(x: Section, f: Form, l1: real, l2: real, s: real, t: real)
    requires Shows(x, f, l1, l2)
    ensures FormAt(f, s, t) == 0.0 <==> HasCoordinates(x, l1, l2, s, t)
  {
    hide Times, FormAt, Distance2;
  }

  lemma AtShift(p: V, e1: V, e2: V, s: real, t: real)
    ensures Sub(At(p, e1, e2, s, t), p) == Add(Scale(e1, s), Scale(e2, t))
  {
  }

  lemma DotBoth(e1: V, e2: V, s: real, t: real, a: V)
    ensures Dot(Add(Scale(e1, s), Scale(e2, t)), a) == Times(s, Dot(e1, a)) + Times(t, Dot(e2, a))
  {
    hide Dot, Scale, Add;
    DotAdd(Scale(e1, s), Scale(e2, t), a);
    DotScale(e1, s, a);
    DotScale(e2, t, a);
  }

  lemma BasisAcrossNormal(n: V, axis: Option<V>, e1: V, e2: V)
    requires BasisOf(n, axis, e1, e2)
    ensures Dot(e1, n) == 0.0 && Dot(e2, n) == 0.0 && Dot(e1, e2) == 0.0 && Dot(e2, e1) == 0.0 && Dot(e1, e1) > 0.0
  {
    hide Dot, Cross, Projected;
    CrossNormal(n, e1);
    DotCommutes(e1, e2);
  }

  /** The difference of two points of the plane against the basis. */
  lemma DifferenceDots(n: V, axis: Option<V>, p: V, e1: V, e2: V, s: real, t: real, u: real, v: real)
    requires BasisOf(n, axis, e1, e2)
    ensures var d := Sub(At(p, e1, e2, s, t), At(p, e1, e2, u, v));
      && Dot(d, n) == 0.0
      && Dot(d, e1) == Times(s - u, Dot(e1, e1)) && Dot(d, e2) == Times(t - v, Dot(e2, e2))
  {
    hide *;
    AtDifference(p, e1, e2, s, t, u, v);
    BasisAcrossNormal(n, axis, e1, e2);
    AddOrigin(Add(Scale(e1, s - u), Scale(e2, t - v)));
    DotBoth(e1, e2, s - u, t - v, n);
    DotBoth(e1, e2, s - u, t - v, e1);
    DotBoth(e1, e2, s - u, t - v, e2);
    TimesUnits(s - u);
    TimesUnits(t - v);
  }

  lemma AddOrigin(a: V)
    ensures Add(ORIGIN, a) == a
  {
  }

  lemma AtInPlane(o: V, n: V, axis: Option<V>, p: V, e1: V, e2: V, s: real, t: real)
    requires BasisOf(n, axis, e1, e2) && InPlane(o, n, p)
    ensures InPlane(o, n, At(p, e1, e2, s, t))
  {
    var y := At(p, e1, e2, s, t);
    AtShift(p, e1, e2, s, t);
    BasisAcrossNormal(n, axis, e1, e2);
    hide Dot, BasisOf, Scale, Add, At, Cross;
    DotBoth(e1, e2, s, t, n);
    TimesUnits(s);
    TimesUnits(t);
    ThreePoints(o, n, p, y);
  }

  lemma ThreePoints(o: V, n: V, p: V, y: V)
    ensures Dot(Sub(y, o), n) == Dot(Sub(y, p), n) + Dot(Sub(p, o), n)
  {
    hide Dot;
    DotSub(y, o, n);
    DotSub(y, p, n);
    DotSub(p, o, n);
  }

  lemma PlaneBasisLengths(n: V, axis: Option<V>, e1: V, e2: V)
    requires Dot(n, n) > 0.0 && BasisOf(n, axis, e1, e2)
    ensures Dot(e1, e1) > 0.0 && Dot(e2, e2) > 0.0
  {
    hide Dot, Cross, Projected;
    CrossLength(n, e1);
    DotCommutes(n, e1);
    TimesSign(Dot(n, n), Dot(e1, e1));
  }

  lemma RestAcross(d: V, e1: V, e2: V, s: real, t: real, a: V)
    requires Times(s, Dot(e1, a)) + Times(t, Dot(e2, a)) == Dot(d, a)
    ensures Dot(Sub(d, Add(Scale(e1, s), Scale(e2, t))), a) == 0.0
  {
    hide Dot, Scale, Add;
    DotBoth(e1, e2, s, t, a);
    DotSub(d, Add(Scale(e1, s), Scale(e2, t)), a);
  }

  lemma Rebuilt(p: V, e1: V, e2: V, s: real, t: real, y: V)
    requires Sub(Sub(y, p), Add(Scale(e1, s), Scale(e2, t))) == ORIGIN
    ensures y == At(p, e1, e2, s, t)
  {
  }

  /** Every point of the plane has coordinates. */
  lemma Coordinates(o: V, n: V, axis: Option<V>, p: V, e1: V, e2: V, y: V) returns (s: real, t: real)
    requires Dot(n, n) > 0.0 && BasisOf(n, axis, e1, e2) && InPlane(o, n, p) && InPlane(o, n, y)
    ensures y == At(p, e1, e2, s, t)
  {
    PlaneBasisLengths(n, axis, e1, e2);
    BasisAcrossNormal(n, axis, e1, e2);
    var d := Sub(y, p);
    ThreePoints(o, n, p, y);
    hide Dot, Cross, Sub, Scale, Add, At, Projected, Times;
    s, t := Dot(d, e1) / Dot(e1, e1), Dot(d, e2) / Dot(e2, e2);
    QuotientTimes(Dot(d, e1), Dot(e1, e1));
    QuotientTimes(Dot(d, e2), Dot(e2, e2));
    TimesUnits(s);
    TimesUnits(t);
    RestAcross(d, e1, e2, s, t, n);
    RestAcross(d, e1, e2, s, t, e1);
    RestAcross(d, e1, e2, s, t, e2);
    AcrossAll(Sub(d, Add(Scale(e1, s), Scale(e2, t))), n, e1);
    Rebuilt(p, e1, e2, s, t, y);
  }

  /** A point has one pair of coordinates. */
  lemma CoordinatesUnique(n: V, axis: Option<V>, p: V, e1: V, e2: V, s: real, t: real, u: real, v: real)
    requires Dot(n, n) > 0.0 && BasisOf(n, axis, e1, e2)
    ensures At(p, e1, e2, s, t) == At(p, e1, e2, u, v) <==> s == u && t == v
  {
    hide *;
    PlaneBasisLengths(n, axis, e1, e2);
    DistanceInPlane(n, axis, p, e1, e2, s, t, u, v);
    DistanceSign(Dot(e1, e1), Dot(e2, e2), s - u, t - v);
    SubOrigin(At(p, e1, e2, s, t), At(p, e1, e2, u, v));
    DotSelf(Sub(At(p, e1, e2, s, t), At(p, e1, e2, u, v)));
  }

  lemma LineAt(p: V, e1: V, e2: V, t0: real, k: real)
    ensures Add(At(p, e1, e2, 0.0, t0), Scale(e1, k)) == At(p, e1, e2, k, t0)
  {
  }

  lemma LineHas(n: V, axis: Option<V>, p: V, e1: V, e2: V, t0: real, s: real, t: real)
    requires Dot(n, n) > 0.0 && BasisOf(n, axis, e1, e2)
    ensures OnLine(At(p, e1, e2, 0.0, t0), e1, At(p, e1, e2, s, t)) <==> t == t0
  {
    hide Dot, BasisOf, At, Scale, Add;
    var y := At(p, e1, e2, s, t);
    if OnLine(At(p, e1, e2, 0.0, t0), e1, y) {
      var k :| y == Add(At(p, e1, e2, 0.0, t0), Scale(e1, k));
      LineAt(p, e1, e2, t0, k);
      CoordinatesUnique(n, axis, p, e1, e2, s, t, k, t0);
    } else {
      LineAt(p, e1, e2, t0, s);
    }
  }

  lemma EllipseCleared(l1: real, l2: real, u: real, v: real, a: real, b: real)
    requires l1 > 0.0 && l2 > 0.0
    ensures EllipseHolds(l1, l2, u, v, a, b) <==>
      Times(Times(l2, Times(Times(u, l1), Times(u, l1))), Times(b, b)) +
        Times(Times(l1, Times(Times(v, l2), Times(v, l2))), Times(a, a))
        == Times(Times(l1, l2), Times(Times(a, a), Times(b, b)))
  {
    var x, y, m := Times(Times(l1, Times(u, u)), Times(b, b)), Times(Times(l2, Times(v, v)), Times(a, a)),
      Times(l1, l2);
    var w := Times(Times(a, a), Times(b, b));
    ClearedTerm(l1, l2, u, Times(b, b));
    ClearedTerm(l2, l1, v, Times(a, a));
    TimesSign(l1, l2);
    hide Times;
    TimesCommutes(l1, l2);
    TimesSum(m, x, y);
    TimesDifference(m, x + y, w);
    TimesZero(m, x + y - w);
  }

  lemma ClearedTerm(l1: real, l2: real, u: real, b: real)
    ensures Times(Times(l2, Times(Times(u, l1), Times(u, l1))), b)
      == Times(Times(l1, l2), Times(Times(l1, Times(u, u)), b))
  {
  }

  /** Points and coordinates agree. */
  lemma SectionHas(x: Section, n: V, axis: Option<V>, p: V, e1: V, e2: V, s: real, t: real)
    requires Dot(n, n) > 0.0 && BasisOf(n, axis, e1, e2)
    ensures OnSection(x, n, p, e1, e2, At(p, e1, e2, s, t)) <==> HasCoordinates(x, Dot(e1, e1), Dot(e2, e2), s, t)
  {
    hide Dot, BasisOf, At, Sub, OnLine, Times, Distance2, EllipseHolds;
    match x
    case Empty =>
    case PointAt(s0, t0) =>
      CoordinatesUnique(n, axis, p, e1, e2, s, t, s0, t0);
    case CircleAt(s0, t0, r) =>
      DifferenceDots(n, axis, p, e1, e2, s, t, s0, t0);
      DistanceInPlane(n, axis, p, e1, e2, s, t, s0, t0);
    case EllipseAt(s0, t0, a, b) =>
      PlaneBasisLengths(n, axis, e1, e2);
      DifferenceDots(n, axis, p, e1, e2, s, t, s0, t0);
      EllipseCleared(Dot(e1, e1), Dot(e2, e2), s - s0, t - t0, a, b);
    case OneLine(t0) =>
      LineHas(n, axis, p, e1, e2, t0, s, t);
    case TwoLines(t0, t1) =>
      LineHas(n, axis, p, e1, e2, t0, s, t);
      LineHas(n, axis, p, e1, e2, t1, s, t);
  }

  /** What lies on the section lies in the plane. */
  lemma SectionInPlane(o: V, n: V, axis: Option<V>, x: Section, p: V, e1: V, e2: V, y: V)
    requires BasisOf(n, axis, e1, e2) && InPlane(o, n, p) && OnSection(x, n, p, e1, e2, y)
    ensures InPlane(o, n, y)
  {
    hide Dot, BasisOf, At, Sub, Times, Add, Scale;
    match x
    case Empty =>
    case PointAt(s0, t0) =>
      AtInPlane(o, n, axis, p, e1, e2, s0, t0);
    case CircleAt(s0, t0, r) =>
      AtInPlane(o, n, axis, p, e1, e2, s0, t0);
      ThreePoints(o, n, At(p, e1, e2, s0, t0), y);
    case EllipseAt(s0, t0, a, b) =>
      AtInPlane(o, n, axis, p, e1, e2, s0, t0);
      ThreePoints(o, n, At(p, e1, e2, s0, t0), y);
    case OneLine(t0) =>
      LineInPlane(o, n, axis, p, e1, e2, t0, y);
    case TwoLines(t0, t1) =>
      if OnLine(At(p, e1, e2, 0.0, t0), e1, y) {
        LineInPlane(o, n, axis, p, e1, e2, t0, y);
      } else {
        LineInPlane(o, n, axis, p, e1, e2, t1, y);
      }
  }

  lemma LineInPlane(o: V, n: V, axis: Option<V>, p: V, e1: V, e2: V, t0: real, y: V)
    requires BasisOf(n, axis, e1, e2) && InPlane(o, n, p) && OnLine(At(p, e1, e2, 0.0, t0), e1, y)
    ensures InPlane(o, n, y)
  {
    hide Dot, BasisOf, At, Sub, Add, Scale;
    var k :| y == Add(At(p, e1, e2, 0.0, t0), Scale(e1, k));
    LineAt(p, e1, e2, t0, k);
    AtInPlane(o, n, axis, p, e1, e2, k, t0);
  }

  /** The section's points are the plane's points on the surface. */
  lemma SectionInSpace(o: V, n: V, q: Quadric, x: Section, p: V, e1: V, e2: V, y: V)
    requires Dot(n, n) > 0.0 && Proper(q) && InPlane(o, n, p) && BasisOf(n, AxisOf(q), e1, e2)
    requires Shows(x, FormOf(q, p, e1, e2), Dot(e1, e1), Dot(e2, e2))
    ensures OnSection(x, n, p, e1, e2, y) <==> InPlane(o, n, y) && Value(q, y) == 0.0
  {
    hide *;
    if InPlane(o, n, y) {
      var s, t := Coordinates(o, n, AxisOf(q), p, e1, e2, y);
      ValueIsForm(q, n, p, e1, e2, s, t);
      ShowsAt(x, FormOf(q, p, e1, e2), Dot(e1, e1), Dot(e2, e2), s, t);
      SectionHas(x, n, AxisOf(q), p, e1, e2, s, t);
    } else if OnSection(x, n, p, e1, e2, y) {
      SectionInPlane(o, n, AxisOf(q), x, p, e1, e2, y);
    }
  }

  // ------------------------------------------------------------------ the whole pair

  lemma FootInPlane(p0: V, n: V, o: V, d: V, k: real)
    requires Dot(d, n) != 0.0 && Times(k, Dot(d, n)) == Dot(Sub(p0, o), n)
    ensures Dot(Sub(Add(o, Scale(d, k)), p0), n) == 0.0
  {
    hide Dot, Sub, Add, Scale;
    DotSub(Add(o, Scale(d, k)), p0, n);
    DotAdd(o, Scale(d, k), n);
    DotScale(d, k, n);
    DotSub(p0, o, n);
  }

  /** `plane_quadric` for a plane and a sphere or cylinder: the section has exactly the plane's points where the
      surface's function is zero. */
  method PlaneQuadric(o: V, n: V, q: Quadric, sqrt: real -> real) returns (x: Section, p: V, e1: V, e2: V)
    requires Dot(n, n) > 0.0 && Proper(q) && SquareRoot(sqrt)
    ensures InPlane(o, n, p) && BasisOf(n, AxisOf(q), e1, e2)
    ensures forall y :: OnSection(x, n, p, e1, e2, y) <==> InPlane(o, n, y) && Value(q, y) == 0.0
  {
    hide Dot, Cross, Sub, Add, Scale, At, FormAt, FormOf, Shows, Value, Projected, Times, SquareRoot, OnSection,
         InPlane;
    e1, e2 := Basis(n, AxisOf(q));
    p := FindPoint(o, n, q);
    forall s, t
      ensures Value(q, At(p, e1, e2, s, t)) == FormAt(FormOf(q, p, e1, e2), s, t)
    {
      ValueIsForm(q, n, p, e1, e2, s, t);
    }
    var g := Value(q, At(p, e1, e2, 0.0, 0.0));
    var a := (Value(q, At(p, e1, e2, 1.0, 0.0)) + Value(q, At(p, e1, e2, -1.0, 0.0))) / 2.0 - g;
    var c := (Value(q, At(p, e1, e2, 0.0, 1.0)) + Value(q, At(p, e1, e2, 0.0, -1.0))) / 2.0 - g;
    var d := (Value(q, At(p, e1, e2, 1.0, 0.0)) - Value(q, At(p, e1, e2, -1.0, 0.0))) / 4.0;
    var e := (Value(q, At(p, e1, e2, 0.0, 1.0)) - Value(q, At(p, e1, e2, 0.0, -1.0))) / 4.0;
    var sides := Value(q, At(p, e1, e2, 1.0, 0.0)) + Value(q, At(p, e1, e2, 0.0, 1.0));
    var b := (Value(q, At(p, e1, e2, 1.0, 1.0)) - sides + g) / 2.0;
    Samples(FormOf(q, p, e1, e2));
    assert b == 0.0;
    var f := Form(a, c, d, e, g);
    assert f == FormOf(q, p, e1, e2);
    Signs(q, n, p, e1, e2);
    var circular := q.Sphere? || Cross(q.axis, n) == ORIGIN;
    FreeNotCircular(f.a, Dot(e1, e1));
    x := Conic(f, Dot(e1, e1), Dot(e2, e2), circular, sqrt);
    forall y
      ensures OnSection(x, n, p, e1, e2, y) <==> InPlane(o, n, y) && Value(q, y) == 0.0
    {
      SectionInSpace(o, n, q, x, p, e1, e2, y);
    }
  }

  lemma FreeNotCircular(a: real, l1: real)
    ensures a == 0.0 && l1 > 0.0 ==> a < l1
  {
  }

  /** Where the axis meets the plane, else the foot of the quadric's origin. */
  method FindPoint(o: V, n: V, q: Quadric) returns (p: V)
    requires Dot(n, n) > 0.0 && Proper(q)
    ensures InPlane(o, n, p)
  {
    hide Dot, Sub, Add, Scale, Times;
    if q.Cylinder? && Dot(q.axis, n) != 0.0 {
      var lam := Dot(Sub(o, q.o), n) / Dot(q.axis, n);
      QuotientTimes(Dot(Sub(o, q.o), n), Dot(q.axis, n));
      FootInPlane(o, n, q.o, q.axis, lam);
      return Add(q.o, Scale(q.axis, lam));
    }
    var k := Dot(Sub(q.o, o), n) / Dot(n, n);
    QuotientTimes(Dot(Sub(q.o, o), n), Dot(n, n));
    FootOnPlane(o, n, q.o, k);
    return Sub(q.o, Scale(n, k));
  }

  lemma FootOnPlane(p0: V, n: V, o: V, k: real)
    requires Times(k, Dot(n, n)) == Dot(Sub(o, p0), n)
    ensures Dot(Sub(Sub(o, Scale(n, k)), p0), n) == 0.0
  {
    hide Dot, Sub, Scale;
    DotSub(Sub(o, Scale(n, k)), p0, n);
    DotSub(o, Scale(n, k), n);
    DotScale(n, k, n);
    DotSub(o, p0, n);
  }
}

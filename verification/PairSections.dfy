/** Two spheres, and two planes. */
module PairSections {
  import opened Reals
  import opened Vectors

  // ------------------------------------------------------------------ two spheres

  datatype Meeting = Same | Nothing | OnePoint(at: V) | RoundTrip(centre: V, normal: V, radius2: real)

  predicate OnSphere(p: V, c: V, r: real) {
    Dot(Sub(p, c), Sub(p, c)) == Times(r, r)
  }

  /** What the meeting says is exactly what both spheres hold. */
  ghost predicate SpheresMeet(m: Meeting, c1: V, r1: real, c2: V, r2: real) {
    match m
    case Same => forall p :: OnSphere(p, c1, r1) <==> OnSphere(p, c2, r2)
    case Nothing => forall p :: !(OnSphere(p, c1, r1) && OnSphere(p, c2, r2))
    case OnePoint(c) => forall p :: OnSphere(p, c1, r1) && OnSphere(p, c2, r2) <==> p == c
    case RoundTrip(c, d, rad2) =>
      rad2 > 0.0 && d != ORIGIN &&
      forall p :: OnSphere(p, c1, r1) && OnSphere(p, c2, r2) <==>
        Dot(Sub(p, c), d) == 0.0 && Dot(Sub(p, c), Sub(p, c)) == rad2
  }

  lemma DotShifted(v: V, d: V, k: real)
    ensures Dot(Sub(v, Scale(d, k)), d) == Dot(v, d) - Times(k, Dot(d, d))
    ensures Dot(Sub(v, Scale(d, k)), Sub(v, Scale(d, k))) ==
      Dot(v, v) - Times(2.0, Times(k, Dot(v, d))) + Times(Times(k, k), Dot(d, d))
  {
    hide Dot, Sub, Scale;
    var u := Sub(v, Scale(d, k));
    DotSub(v, Scale(d, k), d);
    DotSub(v, Scale(d, k), u);
    DotSub(v, Scale(d, k), v);
    DotScale(d, k, d);
    DotScale(d, k, u);
    DotScale(d, k, v);
    DotCommutes(u, v);
    DotCommutes(u, d);
    DotCommutes(v, d);
    ShiftedArithmetic(Dot(v, v), Dot(v, d), Dot(d, d), k);
  }

  lemma ShiftedArithmetic(vv: real, vd: real, dd: real, k: real)
    ensures (vv - k * vd) - k * (vd - k * dd) == vv - Times(2.0, Times(k, vd)) + Times(Times(k, k), dd)
  {
  }

  lemma BothSpheres(vv: real, x: real, dd: real, k: real, r1: real, r2: real, rad2: real)
    requires dd > 0.0 && Times(Times(2.0, k), dd) == dd + Times(r1, r1) - Times(r2, r2)
    requires rad2 == Times(r1, r1) - Times(Times(k, k), dd)
    ensures (vv == Times(r1, r1) && vv - Times(2.0, Times(1.0, x)) + Times(Times(1.0, 1.0), dd) == Times(r2, r2))
      <==> (x - Times(k, dd) == 0.0 && vv - Times(2.0, Times(k, x)) + Times(Times(k, k), dd) == rad2)
  {
    var y := Times(k, dd);
    assert Times(Times(2.0, k), dd) == 2.0 * y;
    assert Times(Times(k, k), dd) == Times(k, y);
  }

  /** A point is on both spheres exactly if it is on the radical plane, as far from the centre as they say. */
  lemma RadicalPlane(p: V, c1: V, r1: real, c2: V, r2: real, k: real, rad2: real)
    requires var d := Sub(c2, c1);
      && Dot(d, d) > 0.0 && Times(Times(2.0, k), Dot(d, d)) == Dot(d, d) + Times(r1, r1) - Times(r2, r2)
      && rad2 == Times(r1, r1) - Times(Times(k, k), Dot(d, d))
    ensures var d, u := Sub(c2, c1), Sub(p, Add(c1, Scale(Sub(c2, c1), k)));
      OnSphere(p, c1, r1) && OnSphere(p, c2, r2) <==> Dot(u, d) == 0.0 && Dot(u, u) == rad2
  {
    var v, d := Sub(p, c1), Sub(c2, c1);
    assert Sub(p, c2) == Sub(v, Scale(d, 1.0));
    assert Sub(p, Add(c1, Scale(d, k))) == Sub(v, Scale(d, k));
    DotShifted(v, d, 1.0);
    DotShifted(v, d, k);
    hide Dot, Sub, Add, Scale, Times;
    BothSpheres(Dot(v, v), Dot(v, d), Dot(d, d), k, r1, r2, rad2);
  }

  /** Heron's identity: the radius squared is negative exactly where the spheres are apart or one inside the other. */
  lemma Heron(dd: real, r1: real, r2: real, k: real)
    requires dd > 0.0 && Times(Times(2.0, k), dd) == dd + Times(r1, r1) - Times(r2, r2)
    ensures Times(4.0 * dd, Times(r1, r1) - Times(Times(k, k), dd))
         == Times(Times(r1 + r2, r1 + r2) - dd, dd - Times(r1 - r2, r1 - r2))
  {
    var y := Times(Times(2.0, k), dd);
    assert Times(4.0 * dd, Times(Times(k, k), dd)) == Times(y, y);
    HeronArithmetic(dd, r1, r2);
  }

  lemma HeronArithmetic(dd: real, r1: real, r2: real)
    ensures var y := dd + Times(r1, r1) - Times(r2, r2);
      Times(4.0 * dd, Times(r1, r1)) - Times(y, y)
        == Times(Times(r1 + r2, r1 + r2) - dd, dd - Times(r1 - r2, r1 - r2))
  {
  }

  lemma HeronSign(dd: real, r1: real, r2: real, k: real)
    requires dd > 0.0 && r1 >= 0.0 && r2 >= 0.0
    requires Times(Times(2.0, k), dd) == dd + Times(r1, r1) - Times(r2, r2)
    ensures var rad2 := Times(r1, r1) - Times(Times(k, k), dd);
      if dd > Times(r1 + r2, r1 + r2) || dd < Times(r1 - r2, r1 - r2) then rad2 < 0.0 else rad2 >= 0.0
  {
    var rad2 := Times(r1, r1) - Times(Times(k, k), dd);
    Heron(dd, r1, r2, k);
    SumSquares(r1, r2);
    hide Times;
    var a, b := Times(r1 + r2, r1 + r2) - dd, dd - Times(r1 - r2, r1 - r2);
    TimesSign(a, b);
    TimesSign(b, a);
    TimesCommutes(a, b);
    TimesSign(4.0 * dd, rad2);
  }

  lemma SumSquares(x: real, y: real)
    requires x >= 0.0 && y >= 0.0
    ensures Times(x + y, x + y) >= Times(x - y, x - y)
  {
    assert Times(x + y, x + y) - Times(x - y, x - y) == 4.0 * Times(x, y);
    TimesSign(x, y);
  }

  lemma NonnegativeSquares(x: real, y: real)
    requires x >= 0.0 && y >= 0.0
    ensures Times(x, x) == Times(y, y) <==> x == y
  {
    assert Times(x, x) - Times(y, y) == Times(x - y, x + y);
    TimesZero(x - y, x + y);
  }

  lemma DoubledQuotient(x: real, dd: real)
    requires dd > 0.0
    ensures Times(Times(2.0, x / (2.0 * dd)), dd) == x
  {
    var q := x / (2.0 * dd);
    assert q * (2.0 * dd) == x;
  }

  /** `sphere_sphere`: the meeting of two spheres, whatever their radii and centres. */
  method SphereSphere(c1: V, r1: real, c2: V, r2: real) returns (m: Meeting)
    requires r1 >= 0.0 && r2 >= 0.0
    ensures SpheresMeet(m, c1, r1, c2, r2)
  {
    hide Dot, Sub, Add, Scale, Times;
    var d := Sub(c2, c1);
    var dd := Dot(d, d);
    DotSelf(d);
    if dd == 0.0 {
      SubOrigin(c2, c1);
      NonnegativeSquares(r1, r2);
      return if r1 == r2 then Same else Nothing;
    }
    var k := (dd + Times(r1, r1) - Times(r2, r2)) / (2.0 * dd);
    DoubledQuotient(dd + Times(r1, r1) - Times(r2, r2), dd);
    var centre := Add(c1, Scale(d, k));
    var rad2 := Times(r1, r1) - Times(Times(k, k), dd);
    HeronSign(dd, r1, r2, k);
    forall p
      ensures OnSphere(p, c1, r1) && OnSphere(p, c2, r2) <==>
        Dot(Sub(p, centre), d) == 0.0 && Dot(Sub(p, centre), Sub(p, centre)) == rad2
      ensures Dot(Sub(p, centre), Sub(p, centre)) >= 0.0
      ensures Dot(Sub(p, centre), Sub(p, centre)) == 0.0 <==> p == centre
    {
      RadicalPlane(p, c1, r1, c2, r2, k, rad2);
      DotSelf(Sub(p, centre));
      SubOrigin(p, centre);
    }
    if dd > Times(r1 + r2, r1 + r2) || dd < Times(r1 - r2, r1 - r2) {
      return Nothing;
    }
    if rad2 == 0.0 {
      DotOrigin(d);
      SubOrigin(centre, centre);
      return OnePoint(centre);
    }
    return RoundTrip(centre, d, rad2);
  }

  // ------------------------------------------------------------------ two planes

  datatype PlaneMeeting = SamePlane | Parallel | Line(base: V, direction: V)

  predicate OnPlane(p: V, o: V, n: V) {
    Dot(Sub(p, o), n) == 0.0
  }

  ghost predicate PlanesMeet(m: PlaneMeeting, o1: V, n1: V, o2: V, n2: V) {
    match m
    case SamePlane => forall p :: OnPlane(p, o1, n1) <==> OnPlane(p, o2, n2)
    case Parallel => forall p :: !(OnPlane(p, o1, n1) && OnPlane(p, o2, n2))
    case Line(base, d) =>
      d != ORIGIN &&
      forall p :: OnPlane(p, o1, n1) && OnPlane(p, o2, n2) <==> exists t :: p == Add(base, Scale(d, t))
  }

  /** A vector normal to both planes' normals runs along the line. */
  lemma AlongLine(u: V, d: V, t: real)
    requires Dot(d, d) > 0.0 && Cross(u, d) == ORIGIN && Times(t, Dot(d, d)) == Dot(u, d)
    ensures u == Scale(d, t)
  {
    CrossLength(u, d);
    DotOrigin(ORIGIN);
    DotShifted(u, d, t);
    hide Dot, Cross, Sub;
    AlongArithmetic(Dot(u, u), Dot(u, d), Dot(d, d), t);
    DotSelf(Sub(u, Scale(d, t)));
    SubOrigin(u, Scale(d, t));
  }

  lemma AlongArithmetic(uu: real, ud: real, dd: real, t: real)
    requires dd > 0.0 && uu * dd - ud * ud == 0.0 && Times(t, dd) == ud
    ensures uu - Times(2.0, Times(t, ud)) + Times(Times(t, t), dd) == 0.0
  {
    var r := uu - Times(2.0, Times(t, ud)) + Times(Times(t, t), dd);
    assert Times(Times(t, t), dd) == Times(t, ud);
    assert Times(t, ud) * dd == ud * ud;
    assert Times(r, dd) == 0.0;
    TimesZero(r, dd);
  }

  lemma LineOnPlane(base: V, d: V, t: real, o: V, n: V)
    requires OnPlane(base, o, n) && Dot(d, n) == 0.0
    ensures OnPlane(Add(base, Scale(d, t)), o, n)
  {
    hide Dot, Sub, Add, Scale;
    DotSub(Add(base, Scale(d, t)), o, n);
    DotAdd(base, Scale(d, t), n);
    DotScale(d, t, n);
    DotSub(base, o, n);
  }

  lemma BothPlanes(p: V, base: V, o: V, n: V)
    requires OnPlane(base, o, n)
    ensures OnPlane(p, o, n) <==> Dot(Sub(p, base), n) == 0.0
  {
    hide Dot, Sub;
    DotSub(p, o, n);
    DotSub(base, o, n);
    DotSub(p, base, n);
  }

  /** A point is on both planes exactly if it is on the line. */
  lemma LineIff(p: V, base: V, d: V, o1: V, n1: V, o2: V, n2: V)
    requires d == Cross(n1, n2) && Dot(d, d) > 0.0 && OnPlane(base, o1, n1) && OnPlane(base, o2, n2)
    ensures OnPlane(p, o1, n1) && OnPlane(p, o2, n2) <==> exists t :: p == Add(base, Scale(d, t))
  {
    hide Dot, Cross, OnPlane;
    CrossNormal(n1, n2);
    if OnPlane(p, o1, n1) && OnPlane(p, o2, n2) {
      var u := Sub(p, base);
      BothPlanes(p, base, o1, n1);
      BothPlanes(p, base, o2, n2);
      DoubleCross(u, n1, n2);
      var t := Dot(u, d) / Dot(d, d);
      QuotientTimes(Dot(u, d), Dot(d, d));
      AlongLine(u, d, t);
      assert p == Add(base, Scale(d, t));
    }
    if t :| p == Add(base, Scale(d, t)) {
      LineOnPlane(base, d, t, o1, n1);
      LineOnPlane(base, d, t, o2, n2);
    }
  }

  /** Parallel normals are multiples of one another. */
  lemma ParallelNormals(n1: V, n2: V) returns (k: real)
    requires Dot(n1, n1) > 0.0 && Cross(n1, n2) == ORIGIN
    ensures n2 == Scale(n1, k)
  {
    k := Dot(n2, n1) / Dot(n1, n1);
    QuotientTimes(Dot(n2, n1), Dot(n1, n1));
    CrossSwapped(n1, n2);
    AlongLine(n2, n1, k);
  }

  lemma CrossSwapped(a: V, b: V)
    requires Cross(a, b) == ORIGIN
    ensures Cross(b, a) == ORIGIN
  {
  }

  lemma ParallelPlanes(p: V, o1: V, n1: V, o2: V, n2: V, k: real)
    requires n2 == Scale(n1, k) && k != 0.0
    ensures OnPlane(p, o2, n2) <==> Dot(Sub(p, o1), n1) == Dot(Sub(o2, o1), n1)
  {
    hide Dot, Sub, Scale;
    DotScale(n1, k, Sub(p, o2));
    TimesZero(k, Dot(Sub(p, o2), n1));
    DotSub(p, o2, n1);
    DotSub(p, o1, n1);
    DotSub(o2, o1, n1);
  }

  lemma NonzeroMultiple(n1: V, k: real)
    requires Dot(Scale(n1, k), Scale(n1, k)) > 0.0
    ensures k != 0.0
  {
    hide Dot;
    DotScale(n1, k, Scale(n1, k));
  }

  lemma BaseArithmetic(a11: real, a12: real, a22: real, b1: real, b2: real, det: real, x: real, y: real)
    requires det == Times(a11, a22) - Times(a12, a12) && det != 0.0
    requires Times(x, det) == Times(b1, a22) - Times(b2, a12) && Times(y, det) == Times(a11, b2) - Times(a12, b1)
    ensures Times(x, a11) + Times(y, a12) == b1 && Times(x, a12) + Times(y, a22) == b2
  {
    var l1, l2 := Times(x, a11) + Times(y, a12) - b1, Times(x, a12) + Times(y, a22) - b2;
    CramerFirst(a11, a12, a22, b1, b2, det, x, y);
    CramerSecond(a11, a12, a22, b1, b2, det, x, y);
    hide Times;
    TimesZero(l1, det);
    TimesZero(l2, det);
  }

  lemma CramerFirst(a11: real, a12: real, a22: real, b1: real, b2: real, det: real, x: real, y: real)
    requires det == Times(a11, a22) - Times(a12, a12)
    requires Times(x, det) == Times(b1, a22) - Times(b2, a12) && Times(y, det) == Times(a11, b2) - Times(a12, b1)
    ensures Times(Times(x, a11) + Times(y, a12) - b1, det) == 0.0
  {
    assert Times(Times(x, a11) + Times(y, a12) - b1, det)
      == Times(Times(x, det), a11) + Times(Times(y, det), a12) - Times(b1, det);
  }

  lemma CramerSecond(a11: real, a12: real, a22: real, b1: real, b2: real, det: real, x: real, y: real)
    requires det == Times(a11, a22) - Times(a12, a12)
    requires Times(x, det) == Times(b1, a22) - Times(b2, a12) && Times(y, det) == Times(a11, b2) - Times(a12, b1)
    ensures Times(Times(x, a12) + Times(y, a22) - b2, det) == 0.0
  {
    assert Times(Times(x, a12) + Times(y, a22) - b2, det)
      == Times(Times(x, det), a12) + Times(Times(y, det), a22) - Times(b2, det);
  }

  /** The combination of the normals that lies on both planes. */
  lemma BaseOnPlanes(o1: V, n1: V, o2: V, n2: V, x: real, y: real)
    requires Times(x, Dot(n1, n1)) + Times(y, Dot(n1, n2)) == Dot(o1, n1)
    requires Times(x, Dot(n1, n2)) + Times(y, Dot(n2, n2)) == Dot(o2, n2)
    ensures var base := Add(Scale(n1, x), Scale(n2, y)); OnPlane(base, o1, n1) && OnPlane(base, o2, n2)
  {
    hide Dot, Sub, Add, Scale;
    var base := Add(Scale(n1, x), Scale(n2, y));
    DotAdd(Scale(n1, x), Scale(n2, y), n1);
    DotAdd(Scale(n1, x), Scale(n2, y), n2);
    DotScale(n1, x, n1);
    DotScale(n2, y, n1);
    DotScale(n1, x, n2);
    DotScale(n2, y, n2);
    DotCommutes(n1, n2);
    DotSub(base, o1, n1);
    DotSub(base, o2, n2);
  }

  /** `plane_plane`: the meeting of two planes. */
  method PlanePlane(o1: V, n1: V, o2: V, n2: V) returns (m: PlaneMeeting)
    requires Dot(n1, n1) > 0.0 && Dot(n2, n2) > 0.0
    ensures PlanesMeet(m, o1, n1, o2, n2)
  {
    hide Dot, Cross, Sub, Add, Scale, Times, OnPlane;
    var d := Cross(n1, n2);
    if d == ORIGIN {
      ghost var k := ParallelNormals(n1, n2);
      NonzeroMultiple(n1, k);
      forall p
        ensures OnPlane(p, o2, n2) <==> Dot(Sub(p, o1), n1) == Dot(Sub(o2, o1), n1)
        ensures OnPlane(p, o1, n1) <==> Dot(Sub(p, o1), n1) == 0.0
      {
        ParallelPlanes(p, o1, n1, o2, n2, k);
        OnPlaneIs(p, o1, n1);
      }
      return if Dot(Sub(o2, o1), n1) == 0.0 then SamePlane else Parallel;
    }
    DotSelf(d);
    var a11, a12, a22 := Dot(n1, n1), Dot(n1, n2), Dot(n2, n2);
    var b1, b2 := Dot(o1, n1), Dot(o2, n2);
    var det := Times(a11, a22) - Times(a12, a12);
    CrossLength(n1, n2);
    PlainTimes(a11, a22);
    PlainTimes(a12, a12);
    var x, y := (Times(b1, a22) - Times(b2, a12)) / det, (Times(a11, b2) - Times(a12, b1)) / det;
    QuotientTimes(Times(b1, a22) - Times(b2, a12), det);
    QuotientTimes(Times(a11, b2) - Times(a12, b1), det);
    BaseArithmetic(a11, a12, a22, b1, b2, det, x, y);
    BaseOnPlanes(o1, n1, o2, n2, x, y);
    var base := Add(Scale(n1, x), Scale(n2, y));
    forall p
      ensures OnPlane(p, o1, n1) && OnPlane(p, o2, n2) <==> exists t :: p == Add(base, Scale(d, t))
    {
      LineIff(p, base, d, o1, n1, o2, n2);
    }
    return Line(base, d);
  }

  lemma OnPlaneIs(p: V, o: V, n: V)
    ensures OnPlane(p, o, n) <==> Dot(Sub(p, o), n) == 0.0
  {
  }

  lemma PlainTimes(x: real, y: real)
    ensures Times(x, y) == x * y
  {
  }
}

/** Set operations on sets given as disjoint convex pieces, and the chains of them that a slice is measured by. */
module ConvexPieces {
  import opened Basics
  import opened ConvexPolygons
  import opened ExpressionTrees

  type Polygon = seq<Point>

  /** A convex polygon by its corners, and half-planes that describe it. */
  datatype Piece = Piece(corners: Polygon, planes: seq<HalfPlane>)

  /** The corners go round a convex polygon, and the half-planes' common interior is its inside. */
  ghost predicate Good(x: Piece) {
    Convex(x.corners) && forall p: Point :: In(x.planes, p) <==> Within(x.corners, p)
  }

  ghost predicate AllGood(s: seq<Piece>) {
    forall k :: 0 <= k < |s| ==> Good(s[k])
  }

  predicate ConvexOrNone(q: Polygon) {
    q == [] || Convex(q)
  }

  predicate AllConvex(polygons: seq<Polygon>) {
    forall k :: 0 <= k < |polygons| ==> Convex(polygons[k])
  }

  /** p lies on no edge's line of any of them. */
  predicate OffAll(polygons: seq<Polygon>, p: Point) {
    forall k :: 0 <= k < |polygons| ==> OffEdges(polygons[k], p)
  }

  function Corners(s: seq<Piece>): (r: seq<Polygon>)
    ensures |r| == |s|
  {
    seq(|s|, k requires 0 <= k < |s| => s[k].corners)
  }

  predicate OffPlanes(s: seq<Piece>, p: Point) {
    forall k :: 0 <= k < |s| ==> Off(s[k].planes, p)
  }

  /** p lies on none of the pieces' lines. */
  predicate Clear(s: seq<Piece>, p: Point) {
    OffAll(Corners(s), p) && OffPlanes(s, p)
  }

  /** How many polygons hold p. */
  function Held(polygons: seq<Polygon>, p: Point): nat {
    if polygons == [] then 0
    else Held(polygons[..|polygons| - 1], p) + if Within(polygons[|polygons| - 1], p) then 1 else 0
  }

  lemma {:induction false} HeldConcat(s: seq<Polygon>, t: seq<Polygon>, p: Point)
    ensures Held(s + t, p) == Held(s, p) + Held(t, p)
  {
    hide Within;
    if t == [] {
      assert s + t == s;
    } else {
      var k := |t| - 1;
      assert (s + t)[..|s| + k] == s + t[..k];
      HeldConcat(s, t[..k], p);
    }
  }

  lemma HeldAppend(s: seq<Polygon>, q: Polygon, p: Point)
    ensures Held(s + [q], p) == Held(s, p) + if Within(q, p) then 1 else 0
    ensures OffAll(s + [q], p) <==> OffAll(s, p) && OffEdges(q, p)
  {
    hide Within, OffEdges;
    var more := s + [q];
    assert more[..|s|] == s && more[|s|] == q;
    assert forall k :: 0 <= k < |s| ==> more[k] == s[k];
  }

  lemma OffConcat(s: seq<Polygon>, t: seq<Polygon>, p: Point)
    ensures OffAll(s + t, p) <==> OffAll(s, p) && OffAll(t, p)
  {
    hide OffEdges;
    var both := s + t;
    if OffAll(both, p) {
      assert forall k :: 0 <= k < |s| ==> both[k] == s[k];
      assert forall k :: 0 <= k < |t| ==> both[|s| + k] == t[k];
    }
  }

  lemma CornersAppend(s: seq<Piece>, x: Piece)
    ensures Corners(s + [x]) == Corners(s) + [x.corners]
  {
  }

  lemma CornersConcat(s: seq<Piece>, t: seq<Piece>)
    ensures Corners(s + t) == Corners(s) + Corners(t)
  {
  }

  /** p lies in the first m half-planes and in the next. */
  lemma InPrefix(hs: seq<HalfPlane>, m: nat, p: Point)
    requires m < |hs|
    ensures In(hs[..m + 1], p) <==> In(hs[..m], p) && Side(hs[m], p) < 0.0
  {
    hide Side;
  }

  lemma OffAt(hs: seq<HalfPlane>, m: nat, p: Point)
    requires m < |hs| && Off(hs, p)
    ensures !On(hs[m], p) && Side(hs[m], p) != 0.0
  {
  }

  lemma NotWithinNothing(p: Point)
    ensures !Within([], p) && OffEdges([], p)
  {
  }

  // ------------------------------------------------------------------ a prism's sections

  /** Where two lines meet: `corner` */
  function Corner(l: HalfPlane, h: HalfPlane): Point
    requires Determinant(l, h) != 0.0
  {
    var det := Determinant(l, h);
    Point((l.c * h.b - h.c * l.b) / det, (l.a * h.c - h.a * l.c) / det)
  }

  function Determinant(l: HalfPlane, h: HalfPlane): real {
    l.a * h.b - h.a * l.b
  }

  /** What a point's place is along the line's normal. */
  function Level(l: HalfPlane, p: Point): real {
    l.a * p.x + l.b * p.y
  }

  lemma CornerLevels(l: HalfPlane, h: HalfPlane)
    requires Determinant(l, h) != 0.0
    ensures Level(l, Corner(l, h)) == l.c && Level(h, Corner(l, h)) == h.c
  {
    CornerArithmetic(l.a, l.b, l.c, h.a, h.b, h.c, Determinant(l, h));
  }

  lemma CornerArithmetic(a: real, b: real, c: real, d: real, e: real, f: real, det: real)
    requires det != 0.0 && det == a * e - d * b
    ensures a * ((c * e - f * b) / det) + b * ((a * f - d * c) / det) == c
    ensures d * ((c * e - f * b) / det) + e * ((a * f - d * c) / det) == f
  {
    var x, y := (c * e - f * b) / det, (a * f - d * c) / det;
    assert x * det == c * e - f * b && y * det == a * f - d * c;
    Cancelled(a * x + b * y, c, det);
    Cancelled(d * x + e * y, f, det);
  }

  lemma Cancelled(u: real, v: real, det: real)
    requires det != 0.0 && u * det == v * det
    ensures u == v
  {
  }

  /** Turns by the levels along two normals. */
  lemma LevelTurn(l: HalfPlane, h: HalfPlane, p: Point, q: Point, r: Point)
    ensures Orient(p, q, r) * Determinant(l, h)
         == (Level(l, q) - Level(l, p)) * (Level(h, r) - Level(h, p))
            - (Level(h, q) - Level(h, p)) * (Level(l, r) - Level(l, p))
  {
    var ux, uy, vx, vy := q.x - p.x, q.y - p.y, r.x - p.x, r.y - p.y;
    LevelRise(l, p, q);
    LevelRise(l, p, r);
    LevelRise(h, p, q);
    LevelRise(h, p, r);
    LevelArithmetic(l.a, l.b, h.a, h.b, ux, uy, vx, vy);
    hide Level;
  }

  lemma LevelRise(l: HalfPlane, p: Point, q: Point)
    ensures Level(l, q) - Level(l, p) == l.a * (q.x - p.x) + l.b * (q.y - p.y)
  {
  }

  lemma LevelArithmetic(a: real, b: real, c: real, d: real, ux: real, uy: real, vx: real, vy: real)
    ensures (ux * vy - uy * vx) * (a * d - c * b)
         == (a * ux + b * uy) * (c * vx + d * vy) - (c * ux + d * uy) * (a * vx + b * vy)
  {
  }

  /** Between t0 and t1 along l's normal and between lo and hi along h's. */
  function Strips(l: HalfPlane, t0: real, t1: real, h: HalfPlane, lo: real, hi: real): seq<HalfPlane> {
    [HalfPlane(-l.a, -l.b, -t0), HalfPlane(l.a, l.b, t1), HalfPlane(-h.a, -h.b, -lo), HalfPlane(h.a, h.b, hi)]
  }

  lemma InStrips(l: HalfPlane, t0: real, t1: real, h: HalfPlane, lo: real, hi: real, p: Point)
    ensures In(Strips(l, t0, t1, h, lo, hi), p) <==> t0 < Level(l, p) < t1 && lo < Level(h, p) < hi
  {
    var hs := Strips(l, t0, t1, h, lo, hi);
    assert Side(hs[0], p) == t0 - Level(l, p) && Side(hs[1], p) == Level(l, p) - t1;
    assert Side(hs[2], p) == lo - Level(h, p) && Side(hs[3], p) == Level(h, p) - hi;
    hide Side, Level;
  }

  /** A quadrilateral with corners at these levels, in order. */
  ghost predicate AtLevels(q: Polygon, l: HalfPlane, t0: real, t1: real, h: HalfPlane, lo: real, hi: real) {
    && |q| == 4 && Level(l, q[0]) == t0 && Level(h, q[0]) == lo && Level(l, q[1]) == t0 && Level(h, q[1]) == hi
    && Level(l, q[2]) == t1 && Level(h, q[2]) == hi && Level(l, q[3]) == t1 && Level(h, q[3]) == lo
  }

  lemma LeftIff(det: real, o: real, w: real, x: real)
    requires det < 0.0 && w > 0.0 && o * det == -(w * x)
    ensures o > 0.0 <==> x > 0.0
  {
    assert x > 0.0 ==> w * x > 0.0;
    assert x < 0.0 ==> w * x < 0.0;
    assert o > 0.0 ==> o * det < 0.0;
    assert o < 0.0 ==> o * det > 0.0;
  }

  /** Left of an edge is inside its strip. */
  lemma LevelEdges(q: Polygon, l: HalfPlane, t0: real, t1: real, h: HalfPlane, lo: real, hi: real, p: Point)
    requires AtLevels(q, l, t0, t1, h, lo, hi) && t0 < t1 && lo < hi && Determinant(l, h) < 0.0
    ensures Orient(q[0], q[1], p) > 0.0 <==> Level(l, p) > t0
    ensures Orient(q[1], q[2], p) > 0.0 <==> Level(h, p) < hi
    ensures Orient(q[2], q[3], p) > 0.0 <==> Level(l, p) < t1
    ensures Orient(q[3], q[0], p) > 0.0 <==> Level(h, p) > lo
  {
    hide Orient, Level, Determinant;
    LevelTurn(l, h, q[0], q[1], p);
    LeftIff(Determinant(l, h), Orient(q[0], q[1], p), hi - lo, Level(l, p) - t0);
    LevelTurn(l, h, q[1], q[2], p);
    LeftIff(Determinant(l, h), Orient(q[1], q[2], p), t1 - t0, hi - Level(h, p));
    LevelTurn(l, h, q[2], q[3], p);
    LeftIff(Determinant(l, h), Orient(q[2], q[3], p), hi - lo, t1 - Level(l, p));
    LevelTurn(l, h, q[3], q[0], p);
    LeftIff(Determinant(l, h), Orient(q[3], q[0], p), t1 - t0, Level(h, p) - lo);
  }

  lemma LevelsWithin(q: Polygon, l: HalfPlane, t0: real, t1: real, h: HalfPlane, lo: real, hi: real, p: Point)
    requires AtLevels(q, l, t0, t1, h, lo, hi) && t0 < t1 && lo < hi && Determinant(l, h) < 0.0
    ensures Within(q, p) <==> t0 < Level(l, p) < t1 && lo < Level(h, p) < hi
  {
    LevelEdges(q, l, t0, t1, h, lo, hi, p);
    hide Orient, Level, Determinant;
    if Within(q, p) {
      assert LeftOf(q, 0, p) && LeftOf(q, 1, p) && LeftOf(q, 2, p) && LeftOf(q, 3, p);
    }
  }

  lemma LevelsConvex(q: Polygon, l: HalfPlane, t0: real, t1: real, h: HalfPlane, lo: real, hi: real)
    requires AtLevels(q, l, t0, t1, h, lo, hi) && t0 < t1 && lo < hi && Determinant(l, h) < 0.0
    ensures Convex(q)
  {
    LevelEdges(q, l, t0, t1, h, lo, hi, q[2]);
    LevelEdges(q, l, t0, t1, h, lo, hi, q[3]);
    LevelEdges(q, l, t0, t1, h, lo, hi, q[1]);
    OrientCycles(q[3], q[0], q[1]);
    OrientCycles(q[2], q[3], q[0]);
    LevelEdges(q, l, t0, t1, h, lo, hi, q[0]);
    hide Orient, Level, Determinant, AtLevels;
    forall i, j, k | 0 <= i < j < k < 4
      ensures Orient(q[i], q[j], q[k]) > 0.0
    {
      FourTurns(i, j, k);
    }
    ConvexFrom(q);
  }

  lemma FourTurns(i: nat, j: nat, k: nat)
    requires i < j < k < 4
    ensures (i == 0 && j == 1 && k == 2) || (i == 0 && j == 1 && k == 3) || (i == 0 && j == 2 && k == 3) ||
            (i == 1 && j == 2 && k == 3)
  {
  }

  /** The corners as `parallelograms` lists them. */
  function Quad(l: HalfPlane, t0: real, t1: real, h: HalfPlane, lo: real, hi: real): Polygon
    requires Determinant(l, h) != 0.0
  {
    var l0, l1 := HalfPlane(l.a, l.b, t0), HalfPlane(l.a, l.b, t1);
    var h0, h1 := HalfPlane(h.a, h.b, lo), HalfPlane(h.a, h.b, hi);
    [Corner(l0, h0), Corner(l0, h1), Corner(l1, h1), Corner(l1, h0)]
  }

  lemma QuadLevels(l: HalfPlane, t0: real, t1: real, h: HalfPlane, lo: real, hi: real)
    requires Determinant(l, h) != 0.0
    ensures AtLevels(Quad(l, t0, t1, h, lo, hi), l, t0, t1, h, lo, hi)
  {
    CornerAt(l, t0, h, lo);
    CornerAt(l, t0, h, hi);
    CornerAt(l, t1, h, hi);
    CornerAt(l, t1, h, lo);
    hide Corner, Level;
  }

  lemma CornerAt(l: HalfPlane, t: real, h: HalfPlane, w: real)
    requires Determinant(l, h) != 0.0
    ensures var lt, hw := HalfPlane(l.a, l.b, t), HalfPlane(h.a, h.b, w);
      Determinant(lt, hw) != 0.0 && Level(l, Corner(lt, hw)) == t && Level(h, Corner(lt, hw)) == w
  {
    CornerLevels(HalfPlane(l.a, l.b, t), HalfPlane(h.a, h.b, w));
    hide Corner;
  }

  /** Backwards they are at the levels with the two normals exchanged. */
  lemma BackwardsLevels(q: Polygon, l: HalfPlane, t0: real, t1: real, h: HalfPlane, lo: real, hi: real)
    requires AtLevels(q, l, t0, t1, h, lo, hi)
    ensures AtLevels([q[0], q[3], q[2], q[1]], h, lo, hi, l, t0, t1)
    ensures Determinant(h, l) == -Determinant(l, h)
  {
    hide Level;
  }

  lemma QuadGood(l: HalfPlane, t0: real, t1: real, h: HalfPlane, lo: real, hi: real)
    requires t0 < t1 && lo < hi && Determinant(l, h) != 0.0
    ensures var q := Quad(l, t0, t1, h, lo, hi);
      if Determinant(l, h) < 0.0 then Good(Piece(q, Strips(l, t0, t1, h, lo, hi)))
      else Good(Piece(Backwards(q), Strips(l, t0, t1, h, lo, hi)))
  {
    var q, hs := Quad(l, t0, t1, h, lo, hi), Strips(l, t0, t1, h, lo, hi);
    QuadLevels(l, t0, t1, h, lo, hi);
    BackwardsLevels(q, l, t0, t1, h, lo, hi);
    hide Quad, Strips, Determinant, AtLevels, Convex, Within, Level, In;
    forall p: Point
      ensures In(hs, p) <==> t0 < Level(l, p) < t1 && lo < Level(h, p) < hi
    {
      InStrips(l, t0, t1, h, lo, hi, p);
    }
    if Determinant(l, h) < 0.0 {
      LevelsConvex(q, l, t0, t1, h, lo, hi);
      forall p: Point
        ensures In(hs, p) <==> Within(q, p)
      {
        LevelsWithin(q, l, t0, t1, h, lo, hi, p);
      }
    } else {
      var r := [q[0], q[3], q[2], q[1]];
      LevelsConvex(r, h, lo, hi, l, t0, t1);
      assert Backwards(q) == r[1..] + r[..1] && r == r[..1] + r[1..];
      TurnedConvex(r[..1], r[1..]);
      forall p: Point
        ensures In(hs, p) <==> Within(Backwards(q), p)
      {
        LevelsWithin(r, h, lo, hi, l, t0, t1, p);
        TurnedWithin(r[..1], r[1..], p);
        TurnedWithin(r[1..], r[..1], p);
      }
    }
  }

  /** The corners turned counter-clockwise, with the strips' half-planes. */
  method Turned(l: HalfPlane, t0: real, t1: real, h: HalfPlane, lo: real, hi: real) returns (x: Piece)
    requires t0 < t1 && lo < hi && Determinant(l, h) != 0.0
    ensures Good(x) && x.planes == Strips(l, t0, t1, h, lo, hi)
  {
    QuadGood(l, t0, t1, h, lo, hi);
    QuadTurned(l, t0, t1, h, lo, hi);
    var q, hs := Quad(l, t0, t1, h, lo, hi), Strips(l, t0, t1, h, lo, hi);
    hide *;
    var a := Area2(q);
    x := Piece(if a < 0.0 then Backwards(q) else q, hs);
  }

  /** One of `parallelograms`: it holds the points between its two chord lines and its two heights. */
  method Parallelogram(alongY: bool, t0: real, t1: real, cl: real, cm: real, lo: real, hi: real) returns (x: Piece)
    requires t0 < t1 && lo < hi && (if alongY then cl else cm) != 0.0
    ensures Good(x)
    ensures forall p: Point :: Within(x.corners, p) <==>
      t0 < (if alongY then p.y else p.x) < t1 && lo < cl * p.x + cm * p.y < hi
  {
    var l := if alongY then HalfPlane(0.0, 1.0, 0.0) else HalfPlane(1.0, 0.0, 0.0);
    var h := HalfPlane(cl, cm, 0.0);
    assert Determinant(l, h) == if alongY then -cl else cm;
    x := Turned(l, t0, t1, h, lo, hi);
    forall p: Point
      ensures In(x.planes, p) <==> t0 < (if alongY then p.y else p.x) < t1 && lo < cl * p.x + cm * p.y < hi
    {
      InStrips(l, t0, t1, h, lo, hi, p);
      LevelIs(l, h, alongY, cl, cm, p);
    }
    hide Strips, Convex, Within, In;
  }

  lemma LevelIs(l: HalfPlane, h: HalfPlane, alongY: bool, cl: real, cm: real, p: Point)
    requires h.a == cl && h.b == cm
    requires if alongY then l.a == 0.0 && l.b == 1.0 else l.a == 1.0 && l.b == 0.0
    ensures Level(l, p) == (if alongY then p.y else p.x) && Level(h, p) == cl * p.x + cm * p.y
  {
  }

  lemma QuadTurned(l: HalfPlane, t0: real, t1: real, h: HalfPlane, lo: real, hi: real)
    requires t0 < t1 && lo < hi && Determinant(l, h) != 0.0
    ensures var q := Quad(l, t0, t1, h, lo, hi); Shoelace(q, |q|) < 0.0 <==> Determinant(l, h) > 0.0
  {
    var q := Quad(l, t0, t1, h, lo, hi);
    QuadGood(l, t0, t1, h, lo, hi);
    hide Quad, Strips, Convex, Within, In, Shoelace, Backwards, Determinant;
    if Determinant(l, h) < 0.0 {
      ConvexTurns(q);
      AreaSign(q, 1.0);
    } else {
      BackwardsTurns(q);
      AreaSign(q, -1.0);
    }
  }

  // ------------------------------------------------------------------ difference

  /** After m half-planes: the pieces cut off hold the points of q outside one of them, each once, and rest the
      others. */
  ghost predicate CutTo(pieces: seq<Polygon>, rest: Polygon, q: Polygon, hs: seq<HalfPlane>, m: nat)
    requires m <= |hs|
  {
    ConvexOrNone(rest) && AllConvex(pieces) && forall p: Point :: Off(hs, p) ==> CutAt(pieces, rest, q, hs, m, p)
  }

  ghost predicate CutAt(pieces: seq<Polygon>, rest: Polygon, q: Polygon, hs: seq<HalfPlane>, m: nat, p: Point)
    requires m <= |hs|
  {
    && (Within(rest, p) <==> Within(q, p) && In(hs[..m], p))
    && Held(pieces, p) == (if Within(q, p) && !In(hs[..m], p) then 1 else 0)
    && (OffEdges(q, p) ==> OffEdges(rest, p) && OffAll(pieces, p))
  }

  lemma CutStepAt(pieces: seq<Polygon>, rest: Polygon, q: Polygon, hs: seq<HalfPlane>, m: nat, outside: Polygon,
                  left: Polygon, p: Point)
    requires m < |hs| && Off(hs, p) && CutAt(pieces, rest, q, hs, m, p)
    requires Halved(outside, rest, Opposite(hs[m])) && Halved(left, rest, hs[m])
    ensures CutAt(if outside != [] then pieces + [outside] else pieces, left, q, hs, m + 1, p)
  {
    hide In, Held, Off, OffAll, OffEdges, Within, Side, Convex;
    OppositeSide(hs[m], p);
    OffAt(hs, m, p);
    InPrefix(hs, m, p);
    assert HalvedAt(outside, rest, Opposite(hs[m]), p) && HalvedAt(left, rest, hs[m], p);
    HeldAppend(pieces, outside, p);
    NotWithinNothing(p);
  }

  lemma CutStep(pieces: seq<Polygon>, rest: Polygon, q: Polygon, hs: seq<HalfPlane>, m: nat, outside: Polygon,
                left: Polygon)
    requires m < |hs| && CutTo(pieces, rest, q, hs, m)
    requires Halved(outside, rest, Opposite(hs[m])) && Halved(left, rest, hs[m])
    ensures CutTo(if outside != [] then pieces + [outside] else pieces, left, q, hs, m + 1)
  {
    HalvedConvex(outside, rest, Opposite(hs[m]));
    HalvedConvex(left, rest, hs[m]);
    hide Halved, Convex, CutAt, Off;
    var more := if outside != [] then pieces + [outside] else pieces;
    forall p: Point | Off(hs, p)
      ensures CutAt(more, left, q, hs, m + 1, p)
    {
      CutStepAt(pieces, rest, q, hs, m, outside, left, p);
    }
  }

  lemma HalvedConvex(r: Polygon, q: Polygon, h: HalfPlane)
    requires Halved(r, q, h)
    ensures ConvexOrNone(r)
  {
    hide Convex;
  }

  /** Off the lines, each point of q outside the convex region lies in exactly one of the pieces. */
  ghost predicate Difference(pieces: seq<Polygon>, q: Polygon, hs: seq<HalfPlane>) {
    AllConvex(pieces) && forall p: Point :: Off(hs, p) ==> DifferenceAt(pieces, q, hs, p)
  }

  predicate DifferenceAt(pieces: seq<Polygon>, q: Polygon, hs: seq<HalfPlane>, p: Point) {
    && Held(pieces, p) == (if Within(q, p) && !In(hs, p) then 1 else 0)
    && (OffEdges(q, p) ==> OffAll(pieces, p))
  }

  lemma CutAll(pieces: seq<Polygon>, rest: Polygon, q: Polygon, hs: seq<HalfPlane>)
    requires CutTo(pieces, rest, q, hs, |hs|)
    ensures Difference(pieces, q, hs)
  {
    hide In, Held, Within, OffEdges, OffAll, Convex, Off;
    assert hs[..|hs|] == hs;
    forall p: Point | Off(hs, p)
      ensures DifferenceAt(pieces, q, hs, p)
    {
      assert CutAt(pieces, rest, q, hs, |hs|, p);
    }
  }

  /** Nothing is left to cut. */
  lemma CutEmpty(pieces: seq<Polygon>, q: Polygon, hs: seq<HalfPlane>, m: nat)
    requires m <= |hs| && CutTo(pieces, [], q, hs, m)
    ensures Difference(pieces, q, hs)
  {
    hide Held, Within, OffEdges, OffAll, Convex, Off, Side;
    forall p: Point | Off(hs, p)
      ensures DifferenceAt(pieces, q, hs, p)
    {
      assert CutAt(pieces, [], q, hs, m, p);
      NotWithinNothing(p);
      InFewer(hs, m, p);
    }
  }

  lemma InFewer(hs: seq<HalfPlane>, m: nat, p: Point)
    requires m <= |hs|
    ensures In(hs, p) ==> In(hs[..m], p)
  {
    hide Side;
  }

  lemma CutNothing(q: Polygon, hs: seq<HalfPlane>)
    requires ConvexOrNone(q)
    ensures CutTo([], q, q, hs, 0)
  {
    hide Convex, Within, OffEdges;
  }

  /** `difference` */
  method Subtract(q: Polygon, hs: seq<HalfPlane>) returns (pieces: seq<Polygon>)
    requires ConvexOrNone(q)
    ensures Difference(pieces, q, hs)
  {
    hide *;
    var rest := q;
    pieces := [];
    CutNothing(q, hs);
    for m := 0 to |hs|
      invariant CutTo(pieces, rest, q, hs, m)
    {
      CutConvex(pieces, rest, q, hs, m);
      var outside := ClipPart(rest, Opposite(hs[m]));
      var left := ClipPart(rest, hs[m]);
      CutStep(pieces, rest, q, hs, m, outside, left);
      if outside != [] {
        pieces := pieces + [outside];
      }
      rest := left;
      if rest == [] {
        CutEmpty(pieces, q, hs, m + 1);
        return;
      }
    }
    CutAll(pieces, rest, q, hs);
  }

  lemma CutConvex(pieces: seq<Polygon>, rest: Polygon, q: Polygon, hs: seq<HalfPlane>, m: nat)
    requires m <= |hs| && CutTo(pieces, rest, q, hs, m)
    ensures ConvexOrNone(rest)
  {
    hide Convex, CutAt;
  }

  /** `clip` on a convex polygon. */
  method ClipPart(q: Polygon, h: HalfPlane) returns (r: Polygon)
    requires ConvexOrNone(q)
    ensures Halved(r, q, h)
  {
    ClippedHalved(q, h);
    hide Convex, Halved, Clipped;
    r := Clip(q, h);
  }

  // ------------------------------------------------------------------ the three operations

  /** Membership in a set given by disjoint pieces. */
  predicate Member(s: seq<Piece>, p: Point) {
    Held(Corners(s), p) > 0
  }

  /** Good pieces; and off the lines of both sets, a point lies in exactly one piece of the result if the operation
      holds of its memberships, and in none otherwise, and is off the result's lines. */
  ghost predicate Refines(op: Op, out: seq<Piece>, s: seq<Piece>, t: seq<Piece>) {
    && AllGood(out)
    && forall p: Point :: Clear(s, p) && Clear(t, p) && Held(Corners(s), p) <= 1 && Held(Corners(t), p) <= 1 ==>
      RefinesAt(op, out, s, t, p)
  }

  predicate RefinesAt(op: Op, out: seq<Piece>, s: seq<Piece>, t: seq<Piece>, p: Point) {
    Held(Corners(out), p) == (if Apply(op, Member(s, p), Member(t, p)) then 1 else 0) && Clear(out, p)
  }

  // ------------------------------------------------------------------ common

  /** q clipped by the first m half-planes. */
  ghost predicate ClippedTo(r: Polygon, q: Polygon, hs: seq<HalfPlane>, m: nat)
    requires m <= |hs|
  {
    ConvexOrNone(r) && forall p: Point :: Off(hs, p) ==> ClippedAt(r, q, hs, m, p)
  }

  predicate ClippedAt(r: Polygon, q: Polygon, hs: seq<HalfPlane>, m: nat, p: Point)
    requires m <= |hs|
  {
    (Within(r, p) <==> Within(q, p) && In(hs[..m], p)) && (OffEdges(q, p) ==> OffEdges(r, p))
  }

  lemma ClipStep(r: Polygon, next: Polygon, q: Polygon, hs: seq<HalfPlane>, m: nat)
    requires m < |hs| && ClippedTo(r, q, hs, m) && Halved(next, r, hs[m])
    ensures ClippedTo(next, q, hs, m + 1)
  {
    HalvedConvex(next, r, hs[m]);
    hide In, Within, OffEdges, Side, Convex, Off;
    forall p: Point | Off(hs, p)
      ensures ClippedAt(next, q, hs, m + 1, p)
    {
      assert ClippedAt(r, q, hs, m, p);
      OffAt(hs, m, p);
      InPrefix(hs, m, p);
      assert HalvedAt(next, r, hs[m], p);
    }
  }

  lemma ClippedNothing(q: Polygon, hs: seq<HalfPlane>)
    requires ConvexOrNone(q)
    ensures ClippedTo(q, q, hs, 0)
  {
    hide Convex, Within, OffEdges;
  }

  lemma ClippedConvex(r: Polygon, q: Polygon, hs: seq<HalfPlane>, m: nat)
    requires m <= |hs| && ClippedTo(r, q, hs, m)
    ensures ConvexOrNone(r)
  {
    hide Convex, ClippedAt;
  }

  /** Once nothing is left, nothing is. */
  lemma ClippedAway(q: Polygon, hs: seq<HalfPlane>, m: nat)
    requires m <= |hs| && ClippedTo([], q, hs, m)
    ensures ClippedTo([], q, hs, |hs|)
  {
    hide Within, OffEdges, Convex, Off, Side;
    forall p: Point | Off(hs, p)
      ensures ClippedAt([], q, hs, |hs|, p)
    {
      assert ClippedAt([], q, hs, m, p);
      NotWithinNothing(p);
      InFewer(hs, m, p);
      assert hs[..|hs|] == hs;
    }
  }

  /** One piece clipped by a convex region's half-planes. */
  method ClipAll(q: Polygon, hs: seq<HalfPlane>) returns (r: Polygon)
    requires ConvexOrNone(q)
    ensures ClippedTo(r, q, hs, |hs|)
  {
    hide *;
    r := q;
    ClippedNothing(q, hs);
    for m := 0 to |hs|
      invariant ClippedTo(r, q, hs, m)
    {
      ClippedConvex(r, q, hs, m);
      var next := ClipPart(r, hs[m]);
      ClipStep(r, next, q, hs, m);
      r := next;
      if r == [] {
        ClippedAway(q, hs, m + 1);
        return;
      }
    }
  }

  /** A list of corners with their own half-planes, as the result is stored. */
  predicate Own(x: Piece) {
    Convex(x.corners) && x.planes == EdgePlanes(x.corners)
  }

  lemma OwnGood(x: Piece)
    requires Own(x)
    ensures Good(x) && forall p: Point :: Off(x.planes, p) <==> OffEdges(x.corners, p)
  {
    ConvexSize(x.corners);
    hide Within, OffEdges, In, Off, Convex, EdgePlanes;
    forall p: Point
      ensures In(x.planes, p) <==> Within(x.corners, p)
      ensures Off(x.planes, p) <==> OffEdges(x.corners, p)
    {
      EdgePlanesDescribe(x.corners, p);
    }
  }

  lemma ConvexSize(q: Polygon)
    requires Convex(q)
    ensures |q| >= 3
  {
  }

  /** `ccw` and `halfplanes_of` on a polygon that is convex already. */
  method Finish(q: Polygon) returns (x: Piece)
    requires Convex(q)
    ensures x.corners == q && Own(x)
  {
    CcwConvex(q);
    hide Convex, CounterClockwise, EdgePlanes;
    var r := Ccw(q);
    var hs := HalfPlanesOf(r);
    x := Piece(r, hs);
  }

  /** The pieces of s before the i-th, met with t, and of the i-th met with the first j of t. */
  ghost predicate MetTo(out: seq<Piece>, s: seq<Piece>, t: seq<Piece>, i: nat, j: nat)
    requires i < |s| && j <= |t|
  {
    AllGood(out) && forall p: Point :: Clear(t, p) ==> MetAt(out, s, t, i, j, p)
  }

  predicate MetAt(out: seq<Piece>, s: seq<Piece>, t: seq<Piece>, i: nat, j: nat, p: Point)
    requires i < |s| && j <= |t|
  {
    && Held(Corners(out), p) == Held(Corners(s[..i]), p) * Held(Corners(t), p) +
         (if Within(s[i].corners, p) then Held(Corners(t[..j]), p) else 0)
    && (Clear(s, p) ==> Clear(out, p))
  }

  /** A piece more, or none. */
  lemma MoreAt(out: seq<Piece>, q: Polygon, x: Piece, p: Point)
    requires q != [] ==> x.corners == q && Own(x)
    ensures var more := if q != [] then out + [x] else out;
      && Held(Corners(more), p) == Held(Corners(out), p) + (if Within(q, p) then 1 else 0)
      && (Clear(out, p) && OffEdges(q, p) ==> Clear(more, p))
  {
    NotWithinNothing(p);
    if q != [] {
      CornersAppend(out, x);
      HeldAppend(Corners(out), q, p);
      OwnGood(x);
      OffPlanesAppend(out, x, p);
      hide Within, OffEdges, Held, Own, Good, Corners, OffPlanes, Off, OffAll;
    }
  }

  lemma OffPlanesAppend(s: seq<Piece>, x: Piece, p: Point)
    ensures OffPlanes(s + [x], p) <==> OffPlanes(s, p) && Off(x.planes, p)
  {
    hide Off;
    assert (s + [x])[|s|] == x && forall k :: 0 <= k < |s| ==> (s + [x])[k] == s[k];
  }

  lemma MoreGood(out: seq<Piece>, q: Polygon, x: Piece)
    requires AllGood(out) && (q != [] ==> Own(x))
    ensures AllGood(if q != [] then out + [x] else out)
  {
    if q != [] {
      OwnGood(x);
      hide Good, Own;
    }
  }

  lemma PieceClear(s: seq<Piece>, k: nat, p: Point)
    requires k < |s| && Clear(s, p)
    ensures Off(s[k].planes, p) && OffEdges(s[k].corners, p)
  {
    hide Off, OffEdges;
    assert Corners(s)[k] == s[k].corners;
  }

  lemma HeldNext(t: seq<Piece>, j: nat, p: Point)
    requires j < |t|
    ensures Held(Corners(t[..j + 1]), p) == Held(Corners(t[..j]), p) + if Within(t[j].corners, p) then 1 else 0
  {
    assert t[..j + 1] == t[..j] + [t[j]];
    CornersAppend(t[..j], t[j]);
    hide Within, Held, Corners, OffAll, OffEdges;
    HeldAppend(Corners(t[..j]), t[j].corners, p);
  }

  lemma MetStepAt(out: seq<Piece>, s: seq<Piece>, t: seq<Piece>, i: nat, j: nat, q: Polygon, x: Piece, p: Point)
    requires i < |s| && j < |t| && MetAt(out, s, t, i, j, p) && Clear(t, p) && Good(t[j])
    requires ClippedTo(q, s[i].corners, t[j].planes, |t[j].planes|) && (q != [] ==> x.corners == q && Own(x))
    ensures MetAt(if q != [] then out + [x] else out, s, t, i, j + 1, p)
  {
    PieceClear(t, j, p);
    assert In(t[j].planes, p) <==> Within(t[j].corners, p);
    assert t[j].planes[..|t[j].planes|] == t[j].planes;
    assert ClippedAt(q, s[i].corners, t[j].planes, |t[j].planes|, p);
    if Clear(s, p) {
      PieceClear(s, i, p);
    }
    hide Within, OffEdges, Held, Own, Good, Corners, OffPlanes, Off, OffAll, In, ClippedTo, Clear;
    HeldNext(t, j, p);
    MoreAt(out, q, x, p);
  }

  lemma MetStep(out: seq<Piece>, s: seq<Piece>, t: seq<Piece>, i: nat, j: nat, q: Polygon, x: Piece)
    requires i < |s| && j < |t| && MetTo(out, s, t, i, j) && Good(t[j])
    requires ClippedTo(q, s[i].corners, t[j].planes, |t[j].planes|) && (q != [] ==> x.corners == q && Own(x))
    ensures MetTo(if q != [] then out + [x] else out, s, t, i, j + 1)
  {
    hide MetAt, Good, Own, ClippedTo, Clear, AllGood;
    MoreGood(out, q, x);
    forall p: Point | Clear(t, p)
      ensures MetAt(if q != [] then out + [x] else out, s, t, i, j + 1, p)
    {
      MetStepAt(out, s, t, i, j, q, x, p);
    }
  }

  lemma NextProduct(a: nat, b: nat, inside: bool)
    ensures (a + if inside then 1 else 0) * b == a * b + if inside then b else 0
  {
  }

  ghost predicate MetRows(out: seq<Piece>, s: seq<Piece>, t: seq<Piece>, i: nat)
    requires i <= |s|
  {
    AllGood(out) && forall p: Point :: Clear(t, p) ==> MetRowsAt(out, s, t, i, p)
  }

  predicate MetRowsAt(out: seq<Piece>, s: seq<Piece>, t: seq<Piece>, i: nat, p: Point)
    requires i <= |s|
  {
    && Held(Corners(out), p) == Held(Corners(s[..i]), p) * Held(Corners(t), p)
    && (Clear(s, p) ==> Clear(out, p))
  }

  lemma MetRow(out: seq<Piece>, s: seq<Piece>, t: seq<Piece>, i: nat)
    requires i < |s|
    ensures MetRows(out, s, t, i) ==> MetTo(out, s, t, i, 0)
    ensures MetTo(out, s, t, i, |t|) ==> MetRows(out, s, t, i + 1)
  {
    hide Clear, AllGood, Corners, Held, Within;
    forall p: Point
      ensures MetRowsAt(out, s, t, i, p) ==> MetAt(out, s, t, i, 0, p)
      ensures MetAt(out, s, t, i, |t|, p) ==> MetRowsAt(out, s, t, i + 1, p)
    {
      MetRowAt(s, t, i, p);
    }
    hide MetRowsAt, MetAt;
  }

  lemma MetRowAt(s: seq<Piece>, t: seq<Piece>, i: nat, p: Point)
    requires i < |s|
    ensures Held(Corners(t[..0]), p) == 0 && Held(Corners(t[..|t|]), p) == Held(Corners(t), p)
    ensures Held(Corners(s[..i + 1]), p) * Held(Corners(t), p) ==
      Held(Corners(s[..i]), p) * Held(Corners(t), p) + (if Within(s[i].corners, p) then Held(Corners(t), p) else 0)
  {
    assert t[..|t|] == t && Corners(t[..0]) == [];
    hide Corners, Within;
    HeldNext(s, i, p);
    NextProduct(Held(Corners(s[..i]), p), Held(Corners(t), p), Within(s[i].corners, p));
  }

  lemma MetNothing(s: seq<Piece>, t: seq<Piece>)
    ensures MetRows([], s, t, 0)
  {
    hide Good;
    forall p: Point
      ensures MetRowsAt([], s, t, 0, p)
    {
      assert s[..0] == [] && Corners([]) == [];
    }
  }

  lemma MetAll(out: seq<Piece>, s: seq<Piece>, t: seq<Piece>)
    requires MetRows(out, s, t, |s|)
    ensures Refines(Common, out, s, t)
  {
    hide Corners, Held, Clear, AllGood;
    assert s[..|s|] == s;
    forall p: Point | Clear(s, p) && Clear(t, p) && Held(Corners(s), p) <= 1 && Held(Corners(t), p) <= 1
      ensures RefinesAt(Common, out, s, t, p)
    {
      assert MetRowsAt(out, s, t, |s|, p);
      assert Held(Corners(s), p) == 0 || Held(Corners(s), p) == 1;
    }
    hide RefinesAt;
  }

  lemma GoodAt(s: seq<Piece>, k: nat)
    requires AllGood(s) && k < |s|
    ensures Good(s[k]) && Convex(s[k].corners) && ConvexOrNone(s[k].corners)
  {
    hide Convex;
  }

  /** `piece_common` */
  method PieceCommon(s: seq<Piece>, t: seq<Piece>) returns (out: seq<Piece>)
    requires AllGood(s) && AllGood(t)
    ensures Refines(Common, out, s, t)
  {
    hide *;
    out := [];
    MetNothing(s, t);
    for i := 0 to |s|
      invariant MetRows(out, s, t, i)
    {
      MetRow(out, s, t, i);
      GoodAt(s, i);
      for j := 0 to |t|
        invariant MetTo(out, s, t, i, j)
      {
        GoodAt(t, j);
        var q := ClipAll(s[i].corners, t[j].planes);
        var x := Piece([], []);
        if q != [] {
          ClippedConvex(q, s[i].corners, t[j].planes, |t[j].planes|);
          ConvexThere(q);
          x := Finish(q);
        }
        MetStep(out, s, t, i, j, q, x);
        if q != [] {
          out := out + [x];
        }
      }
      MetRow(out, s, t, i);
    }
    MetAll(out, s, t);
  }

  lemma ConvexThere(q: Polygon)
    requires ConvexOrNone(q) && q != []
    ensures Convex(q)
  {
  }

  // ------------------------------------------------------------------ cut

  /** The first k of rest, less a convex region. */
  ghost predicate LessTo(more: seq<Polygon>, rest: seq<Polygon>, hs: seq<HalfPlane>, k: nat)
    requires k <= |rest|
  {
    AllConvex(more) && forall p: Point :: Off(hs, p) ==> LessAt(more, rest, hs, k, p)
  }

  predicate LessAt(more: seq<Polygon>, rest: seq<Polygon>, hs: seq<HalfPlane>, k: nat, p: Point)
    requires k <= |rest|
  {
    && Held(more, p) == (if In(hs, p) then 0 else Held(rest[..k], p))
    && (OffAll(rest, p) ==> OffAll(more, p))
  }

  lemma LessStep(more: seq<Polygon>, rest: seq<Polygon>, hs: seq<HalfPlane>, k: nat, pieces: seq<Polygon>)
    requires k < |rest| && LessTo(more, rest, hs, k) && Difference(pieces, rest[k], hs)
    ensures LessTo(more + pieces, rest, hs, k + 1)
  {
    hide In, Held, Within, OffEdges, OffAll, Convex, Off;
    assert rest[..k + 1] == rest[..k] + [rest[k]];
    forall p: Point | Off(hs, p)
      ensures LessAt(more + pieces, rest, hs, k + 1, p)
    {
      assert LessAt(more, rest, hs, k, p) && DifferenceAt(pieces, rest[k], hs, p);
      HeldConcat(more, pieces, p);
      HeldAppend(rest[..k], rest[k], p);
      OffConcat(more, pieces, p);
      OffOne(rest, k, p);
    }
  }

  lemma OffOne(polygons: seq<Polygon>, k: nat, p: Point)
    requires k < |polygons|
    ensures OffAll(polygons, p) ==> OffEdges(polygons[k], p)
  {
    hide OffEdges;
  }

  lemma LessNothing(rest: seq<Polygon>, hs: seq<HalfPlane>)
    ensures LessTo([], rest, hs, 0)
  {
    assert rest[..0] == [];
    hide OffEdges;
  }

  lemma ConvexAt(rest: seq<Polygon>, k: nat)
    requires AllConvex(rest) && k < |rest|
    ensures Convex(rest[k]) && ConvexOrNone(rest[k])
  {
    hide Convex;
  }

  /** All pieces less a convex region: one turn of the loop over the tool's pieces. */
  method SubtractAll(rest: seq<Polygon>, hs: seq<HalfPlane>) returns (more: seq<Polygon>)
    requires AllConvex(rest)
    ensures LessTo(more, rest, hs, |rest|)
  {
    hide *;
    more := [];
    LessNothing(rest, hs);
    for k := 0 to |rest|
      invariant LessTo(more, rest, hs, k)
    {
      ConvexAt(rest, k);
      var pieces := Subtract(rest[k], hs);
      LessStep(more, rest, hs, k, pieces);
      more := more + pieces;
    }
  }

  /** rest: what the first j pieces of t leave of q, in convex polygons. */
  ghost predicate Remains(rest: seq<Polygon>, q: Polygon, t: seq<Piece>, j: nat)
    requires j <= |t|
  {
    AllConvex(rest) && forall p: Point :: Clear(t, p) ==> RemainsAt(rest, q, t, j, p)
  }

  predicate RemainsAt(rest: seq<Polygon>, q: Polygon, t: seq<Piece>, j: nat, p: Point)
    requires j <= |t|
  {
    && Held(rest, p) == (if Within(q, p) && Held(Corners(t[..j]), p) == 0 then 1 else 0)
    && (OffEdges(q, p) ==> OffAll(rest, p))
  }

  lemma RemainsStepAt(rest: seq<Polygon>, more: seq<Polygon>, q: Polygon, t: seq<Piece>, j: nat, p: Point)
    requires j < |t| && Clear(t, p) && RemainsAt(rest, q, t, j, p) && Good(t[j])
    requires LessTo(more, rest, t[j].planes, |rest|)
    ensures RemainsAt(more, q, t, j + 1, p)
  {
    PieceClear(t, j, p);
    assert In(t[j].planes, p) <==> Within(t[j].corners, p);
    assert LessAt(more, rest, t[j].planes, |rest|, p);
    assert rest[..|rest|] == rest;
    hide In, Held, Within, OffEdges, OffAll, Clear, Good, Corners, LessTo;
    HeldNext(t, j, p);
  }

  lemma RemainsStep(rest: seq<Polygon>, more: seq<Polygon>, q: Polygon, t: seq<Piece>, j: nat)
    requires j < |t| && Remains(rest, q, t, j) && Good(t[j]) && LessTo(more, rest, t[j].planes, |rest|)
    ensures Remains(more, q, t, j + 1)
  {
    assert AllConvex(more);
    hide LessTo, RemainsAt, Clear, Good, AllConvex;
    forall p: Point | Clear(t, p)
      ensures RemainsAt(more, q, t, j + 1, p)
    {
      RemainsStepAt(rest, more, q, t, j, p);
    }
  }

  lemma RemainsStart(q: Polygon, t: seq<Piece>)
    requires Convex(q)
    ensures Remains([q], q, t, 0)
  {
    assert t[..0] == [] && Corners([]) == [] && [] + [q] == [q];
    hide Within, OffEdges, Convex, Clear;
    forall p: Point
      ensures RemainsAt([q], q, t, 0, p)
    {
      HeldAppend([], q, p);
    }
  }

  lemma {:induction false} HeldPrefix(t: seq<Polygon>, j: nat, p: Point)
    requires j <= |t|
    ensures Held(t[..j], p) <= Held(t, p)
  {
    assert t == t[..j] + t[j..];
    HeldConcat(t[..j], t[j..], p);
  }

  lemma RemainsNothing(q: Polygon, t: seq<Piece>, j: nat)
    requires j <= |t| && Remains([], q, t, j)
    ensures Remains([], q, t, |t|)
  {
    hide Within, OffEdges, Clear;
    assert t[..|t|] == t && Corners(t)[..j] == Corners(t[..j]);
    forall p: Point | Clear(t, p)
      ensures RemainsAt([], q, t, |t|, p)
    {
      assert RemainsAt([], q, t, j, p);
      HeldPrefix(Corners(t), j, p);
    }
  }

  lemma RemainsConvex(rest: seq<Polygon>, q: Polygon, t: seq<Piece>, j: nat)
    requires j <= |t| && Remains(rest, q, t, j)
    ensures AllConvex(rest)
  {
    hide AllConvex, RemainsAt;
  }

  /** One piece less the whole tool. */
  method Carve(q: Polygon, t: seq<Piece>) returns (rest: seq<Polygon>)
    requires Convex(q) && AllGood(t)
    ensures Remains(rest, q, t, |t|)
  {
    hide *;
    rest := [q];
    RemainsStart(q, t);
    for j := 0 to |t|
      invariant Remains(rest, q, t, j)
    {
      GoodAt(t, j);
      RemainsConvex(rest, q, t, j);
      var more := SubtractAll(rest, t[j].planes);
      RemainsStep(rest, more, q, t, j);
      rest := more;
      if rest == [] {
        RemainsNothing(q, t, j + 1);
        return;
      }
    }
  }

  /** The pieces as they are stored. */
  ghost predicate AllOwn(s: seq<Piece>) {
    forall k :: 0 <= k < |s| ==> Own(s[k])
  }

  method FinishAll(rest: seq<Polygon>) returns (s: seq<Piece>)
    requires AllConvex(rest)
    ensures Corners(s) == rest && AllOwn(s)
  {
    hide Convex, Own;
    s := [];
    for k := 0 to |rest|
      invariant Corners(s) == rest[..k] && AllOwn(s)
    {
      var x := Finish(rest[k]);
      CornersAppend(s, x);
      s := s + [x];
      assert rest[..k + 1] == rest[..k] + [rest[k]];
    }
    assert rest[..|rest|] == rest;
  }

  lemma OwnAll(s: seq<Piece>)
    requires AllOwn(s)
    ensures AllGood(s) && forall p: Point :: Clear(s, p) <==> OffAll(Corners(s), p)
  {
    hide Own, Good, OffEdges, Off;
    forall k | 0 <= k < |s|
      ensures Good(s[k]) && forall p: Point :: Off(s[k].planes, p) <==> OffEdges(s[k].corners, p)
    {
      OwnGood(s[k]);
    }
    forall p: Point
      ensures Clear(s, p) <==> OffAll(Corners(s), p)
    {
      if OffAll(Corners(s), p) {
        forall k | 0 <= k < |s|
          ensures Off(s[k].planes, p)
        {
          assert Corners(s)[k] == s[k].corners;
        }
      }
    }
  }

  ghost predicate CarvedTo(out: seq<Piece>, s: seq<Piece>, t: seq<Piece>, i: nat)
    requires i <= |s|
  {
    AllGood(out) && forall p: Point :: Clear(t, p) ==> CarvedAt(out, s, t, i, p)
  }

  predicate CarvedAt(out: seq<Piece>, s: seq<Piece>, t: seq<Piece>, i: nat, p: Point)
    requires i <= |s|
  {
    && Held(Corners(out), p) == (if Held(Corners(t), p) == 0 then Held(Corners(s[..i]), p) else 0)
    && (Clear(s, p) ==> Clear(out, p))
  }

  lemma ClearConcat(s: seq<Piece>, t: seq<Piece>, p: Point)
    ensures Clear(s + t, p) <==> Clear(s, p) && Clear(t, p)
    ensures Held(Corners(s + t), p) == Held(Corners(s), p) + Held(Corners(t), p)
  {
    hide Within, OffEdges, Off;
    CornersConcat(s, t);
    HeldConcat(Corners(s), Corners(t), p);
    OffConcat(Corners(s), Corners(t), p);
    hide Corners, OffAll, Held;
    var both := s + t;
    if OffPlanes(both, p) {
      assert forall k :: 0 <= k < |s| ==> both[k] == s[k];
      assert forall k :: 0 <= k < |t| ==> both[|s| + k] == t[k];
    }
  }

  lemma GoodConcat(s: seq<Piece>, t: seq<Piece>)
    requires AllGood(s) && AllGood(t)
    ensures AllGood(s + t)
  {
    hide Good;
  }

  lemma CarvedStepAt(out: seq<Piece>, s: seq<Piece>, t: seq<Piece>, i: nat, more: seq<Piece>, p: Point)
    requires i < |s| && Clear(t, p) && CarvedAt(out, s, t, i, p) && RemainsAt(Corners(more), s[i].corners, t, |t|, p)
    requires AllOwn(more)
    ensures CarvedAt(out + more, s, t, i + 1, p)
  {
    assert t[..|t|] == t;
    hide In, Held, Within, OffEdges, OffAll, Corners, AllOwn;
    if Clear(s, p) {
      PieceClear(s, i, p);
    }
    hide Clear;
    HeldNext(s, i, p);
    ClearConcat(out, more, p);
    OwnAll(more);
  }

  lemma CarvedStep(out: seq<Piece>, s: seq<Piece>, t: seq<Piece>, i: nat, rest: seq<Polygon>, more: seq<Piece>)
    requires i < |s| && CarvedTo(out, s, t, i) && Remains(rest, s[i].corners, t, |t|)
    requires Corners(more) == rest && AllOwn(more)
    ensures CarvedTo(out + more, s, t, i + 1)
  {
    hide CarvedAt, RemainsAt, Clear, AllGood, AllOwn, AllConvex, Corners;
    OwnAll(more);
    GoodConcat(out, more);
    forall p: Point | Clear(t, p)
      ensures CarvedAt(out + more, s, t, i + 1, p)
    {
      CarvedStepAt(out, s, t, i, more, p);
    }
  }

  lemma CarvedNothing(s: seq<Piece>, t: seq<Piece>)
    ensures CarvedTo([], s, t, 0)
  {
    hide Good;
    forall p: Point
      ensures CarvedAt([], s, t, 0, p)
    {
      assert s[..0] == [] && Corners([]) == [];
    }
    hide CarvedAt;
  }

  lemma CarvedAll(out: seq<Piece>, s: seq<Piece>, t: seq<Piece>)
    requires CarvedTo(out, s, t, |s|) && AllGood(t)
    ensures Refines(Cut, out, s, t) && Refines(Fuse, out + t, s, t)
  {
    GoodConcat(out, t);
    hide Held, Clear, Corners, AllGood;
    assert s[..|s|] == s;
    forall p: Point | Clear(s, p) && Clear(t, p) && Held(Corners(s), p) <= 1 && Held(Corners(t), p) <= 1
      ensures RefinesAt(Cut, out, s, t, p) && RefinesAt(Fuse, out + t, s, t, p)
    {
      assert CarvedAt(out, s, t, |s|, p);
      ClearConcat(out, t, p);
    }
    hide RefinesAt;
  }

  /** `piece_cut` */
  method PieceCut(s: seq<Piece>, t: seq<Piece>) returns (out: seq<Piece>)
    requires AllGood(s) && AllGood(t)
    ensures Refines(Cut, out, s, t) && Refines(Fuse, out + t, s, t)
  {
    hide *;
    out := [];
    CarvedNothing(s, t);
    for i := 0 to |s|
      invariant CarvedTo(out, s, t, i)
    {
      GoodAt(s, i);
      var rest := Carve(s[i].corners, t);
      RemainsConvex(rest, s[i].corners, t, |t|);
      var more := FinishAll(rest);
      CarvedStep(out, s, t, i, rest, more);
      out := out + more;
    }
    CarvedAll(out, s, t);
  }

  /** `piece_op` */
  method PieceOp(op: Op, s: seq<Piece>, t: seq<Piece>) returns (out: seq<Piece>)
    requires AllGood(s) && AllGood(t)
    ensures Refines(op, out, s, t)
  {
    hide *;
    if op == Common {
      out := PieceCommon(s, t);
    } else if op == Cut {
      out := PieceCut(s, t);
    } else {
      var carved := PieceCut(s, t);
      out := carved + t;
    }
  }

  // ------------------------------------------------------------------ chains

  /** `chained`: the chain's set function of three memberships, with a selector of four. */
  function Chained(op1: Op, op2: Op, swapped: bool, a: bool, b: bool, c: bool, d: Option<bool>): bool {
    var first := if d.Some? then Apply(op1, a, b) && d.value else Apply(op1, a, b);
    if swapped then Apply(op2, c, first) else Apply(op2, first, c)
  }

  /** p lies on no line of a section, and in at most one of its pieces. */
  predicate Placed(section: seq<Piece>, p: Point) {
    Clear(section, p) && Held(Corners(section), p) <= 1
  }

  /** `Slicing3.pieces` for one second operation: where the sections' pieces are disjoint, a point off all lines lies
      in exactly one piece of the result if the chained function holds of its memberships, and in none otherwise. */
  method ChainPieces(op1: Op, op2: Op, swapped: bool, pa: seq<Piece>, pb: seq<Piece>, pc: seq<Piece>,
                     pd: Option<seq<Piece>>) returns (out: seq<Piece>)
    requires AllGood(pa) && AllGood(pb) && AllGood(pc) && (pd.Some? ==> AllGood(pd.value))
    ensures AllGood(out)
    ensures forall p: Point :: Placed(pa, p) && Placed(pb, p) && Placed(pc, p) && (pd.Some? ==> Placed(pd.value, p)) ==>
      Held(Corners(out), p) == if Chained(op1, op2, swapped, Member(pa, p), Member(pb, p), Member(pc, p),
                                          if pd.Some? then Some(Member(pd.value, p)) else None) then 1 else 0
  {
    hide Held, Clear, Corners, AllGood, Apply;
    var first := PieceOp(op1, pa, pb);
    ghost var base := first;
    if pd.Some? {
      first := PieceCommon(first, pd.value);
    }
    CommonIsAnd();
    if swapped {
      out := PieceOp(op2, pc, first);
    } else {
      out := PieceOp(op2, first, pc);
    }
    forall p: Point | Placed(pa, p) && Placed(pb, p) && Placed(pc, p) && (pd.Some? ==> Placed(pd.value, p))
      ensures Held(Corners(out), p) == if Chained(op1, op2, swapped, Member(pa, p), Member(pb, p), Member(pc, p),
                                                  if pd.Some? then Some(Member(pd.value, p)) else None) then 1 else 0
    {
      assert RefinesAt(op1, base, pa, pb, p);
      assert pd.Some? ==> RefinesAt(Common, first, base, pd.value, p);
      assert if swapped then RefinesAt(op2, out, pc, first, p) else RefinesAt(op2, out, first, pc, p);
    }
  }

  lemma CommonIsAnd()
    ensures forall a: bool, b: bool :: Apply(Common, a, b) == (a && b)
  {
  }
  /** The chained function is the chain's: of three solids, and with a selector that of the first operation's result
      kept where the selector is. */
  lemma ChainedIsChain(op1: Op, op2: Op, swapped: bool, a: bool, b: bool, c: bool, d: bool)
    ensures Chained(op1, op2, swapped, a, b, c, None) == ChainValue(op1, op2, swapped, [], [a, b, c])
    ensures Chained(op1, op2, swapped, a, b, c, Some(d))
         == ChainValue(Common, op2, swapped, [], [ChainValue(op1, Common, false, [], [a, b, true]), d, c])
  {
  }
}

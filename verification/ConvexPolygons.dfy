/** Convex polygons by their corners: clipping by a half-plane, and the half-planes of the edges. */
module ConvexPolygons {
  import opened Reals

  datatype Point = Point(x: real, y: real)

  /** a x + b y <= c */
  datatype HalfPlane = HalfPlane(a: real, b: real, c: real)

  function Side(h: HalfPlane, p: Point): real {
    h.a * p.x + h.b * p.y - h.c
  }

  predicate On(h: HalfPlane, p: Point) {
    Side(h, p) == 0.0
  }

  /** p lies on none of the lines. */
  predicate Off(lines: seq<HalfPlane>, p: Point) {
    forall k :: 0 <= k < |lines| ==> !On(lines[k], p)
  }

  /** p lies in all the open half-planes. */
  predicate In(hs: seq<HalfPlane>, p: Point) {
    forall k :: 0 <= k < |hs| ==> Side(hs[k], p) < 0.0
  }

  function Opposite(h: HalfPlane): HalfPlane {
    HalfPlane(-h.a, -h.b, -h.c)
  }

  lemma OppositeSide(h: HalfPlane, p: Point)
    ensures Side(Opposite(h), p) == -Side(h, p)
  {
  }

  // ------------------------------------------------------------------ turns

  /** Twice the signed area of a triangle: positive if it turns left. */
  function Orient(a: Point, b: Point, c: Point): real {
    (b.x - a.x) * (c.y - a.y) - (b.y - a.y) * (c.x - a.x)
  }

  lemma OrientCycles(a: Point, b: Point, c: Point)
    ensures Orient(a, b, c) == Orient(b, c, a) == Orient(c, a, b)
  {
  }

  lemma OrientSwaps(a: Point, b: Point, c: Point)
    ensures Orient(a, b, c) == -Orient(b, a, c)
  {
  }

  lemma OrientSame(a: Point, b: Point)
    ensures Orient(a, a, b) == 0.0 && Orient(a, b, a) == 0.0 && Orient(a, b, b) == 0.0
  {
  }

  /** The point at t on the way from p to q. */
  function Along(p: Point, q: Point, t: real): Point {
    Point(p.x + t * (q.x - p.x), p.y + t * (q.y - p.y))
  }

  /** Between x and y. */
  function Mixed(t: real, x: real, y: real): real {
    (1.0 - t) * x + t * y
  }

  lemma AlongEnds(p: Point, q: Point)
    ensures Along(p, q, 0.0) == p && Along(p, q, 1.0) == q
  {
  }

  lemma SideAlong(h: HalfPlane, p: Point, q: Point, t: real)
    ensures Side(h, Along(p, q, t)) == Mixed(t, Side(h, p), Side(h, q))
  {
  }

  lemma OrientAlong(a: Point, b: Point, p: Point, q: Point, t: real)
    ensures Orient(a, b, Along(p, q, t)) == Mixed(t, Orient(a, b, p), Orient(a, b, q))
  {
  }

  lemma OrientOnward(p: Point, q: Point, r: Point, t: real)
    ensures Orient(p, Along(p, q, t), r) == Times(t, Orient(p, q, r))
    ensures Orient(Along(p, q, t), q, r) == Times(1.0 - t, Orient(p, q, r))
  {
  }

  /** p in the barycentric coordinates of a, b, c. */
  lemma Barycentric(h: HalfPlane, a: Point, b: Point, c: Point, p: Point)
    ensures Orient(a, b, c) * Side(h, p)
         == Orient(b, c, p) * Side(h, a) + Orient(c, a, p) * Side(h, b) + Orient(a, b, p) * Side(h, c)
  {
  }

  /** Where the line meets the way from p to q. */
  function Meet(h: HalfPlane, p: Point, q: Point): Point
    requires Side(h, p) != Side(h, q)
  {
    Along(p, q, Side(h, p) / (Side(h, p) - Side(h, q)))
  }

  lemma MeetOn(h: HalfPlane, p: Point, q: Point)
    requires Side(h, p) != Side(h, q)
    ensures On(h, Meet(h, p, q))
  {
    hide Mixed;
    var f, g := Side(h, p), Side(h, q);
    var t := f / (f - g);
    SideAlong(h, p, q, t);
    MeetArithmetic(f, g);
  }

  lemma MeetArithmetic(f: real, g: real)
    requires f != g
    ensures Mixed(f / (f - g), f, g) == 0.0
  {
  }

  /** Two points of h's line and any two others. */
  lemma LineSides(h: HalfPlane, x: Point, y: Point, p: Point, r: Point)
    requires On(h, x) && On(h, y)
    ensures Times(Orient(x, y, p), Side(h, r)) == Times(Orient(x, y, r), Side(h, p))
  {
    LineArithmetic(h.a, h.b, y.x - x.x, y.y - x.y, p.x - x.x, p.y - x.y, r.x - x.x, r.y - x.y);
  }

  lemma LineArithmetic(a: real, b: real, dx: real, dy: real, px: real, py: real, rx: real, ry: real)
    requires a * dx + b * dy == 0.0
    ensures (dx * py - dy * px) * (a * rx + b * ry) == (dx * ry - dy * rx) * (a * px + b * py)
  {
    assert (dx * py - dy * px) * (a * rx + b * ry) - (dx * ry - dy * rx) * (a * px + b * py)
        == (a * dx + b * dy) * (rx * py - px * ry);
  }

  // ------------------------------------------------------------------ convex polygons

  predicate LeftTurn(q: seq<Point>, i: nat, j: nat, k: nat)
    requires i < |q| && j < |q| && k < |q|
  {
    Orient(q[i], q[j], q[k]) > 0.0
  }

  /** Corners counter-clockwise round a convex polygon, no three on a line. */
  predicate Convex(q: seq<Point>) {
    |q| >= 3 && forall i, j, k :: 0 <= i < j < k < |q| ==> LeftTurn(q, i, j, k)
  }

  function After(n: nat, i: nat): nat
    requires i < n
  {
    if i + 1 == n then 0 else i + 1
  }

  /** p lies to the left of edge i. */
  predicate LeftOf(q: seq<Point>, i: nat, p: Point)
    requires i < |q|
  {
    Orient(q[i], q[After(|q|, i)], p) > 0.0
  }

  /** p lies inside the polygon. */
  predicate Within(q: seq<Point>, p: Point) {
    |q| >= 3 && forall i :: 0 <= i < |q| ==> LeftOf(q, i, p)
  }

  predicate OnEdge(q: seq<Point>, i: nat, p: Point)
    requires i < |q|
  {
    Orient(q[i], q[After(|q|, i)], p) == 0.0
  }

  /** p lies on no edge's line. */
  predicate OffEdges(q: seq<Point>, p: Point) {
    forall i :: 0 <= i < |q| ==> !OnEdge(q, i, p)
  }

  lemma Turn(q: seq<Point>, i: nat, j: nat, k: nat)
    requires Convex(q) && i < j < k < |q|
    ensures Orient(q[i], q[j], q[k]) > 0.0 && Orient(q[j], q[k], q[i]) > 0.0 && Orient(q[k], q[i], q[j]) > 0.0
  {
    hide Orient;
    assert LeftTurn(q, i, j, k);
    OrientCycles(q[i], q[j], q[k]);
  }

  // ------------------------------------------------------------------ linear functions on a polygon

  lemma FanArithmetic(d: real, s: real, c0: real, c1: real, c2: real, s0: real, s1: real, s2: real)
    requires d > 0.0 && c0 > 0.0 && c1 >= 0.0 && c2 >= 0.0 && s0 <= 0.0 && s1 <= 0.0 && s2 <= 0.0
    requires d * s == c0 * s0 + c1 * s1 + c2 * s2
    ensures s <= 0.0 && (s0 < 0.0 ==> s < 0.0)
  {
    assert c1 * s1 <= 0.0 && c2 * s2 <= 0.0 && c0 * s0 <= 0.0;
    if s0 < 0.0 {
      assert c0 * s0 < 0.0;
    }
  }

  /** The triangle at corner 0 that p lies in. */
  lemma {:induction false} FanFrom(q: seq<Point>, p: Point, k: nat) returns (i: nat)
    requires Convex(q) && Within(q, p) && 1 <= k < |q| && Orient(q[0], q[k], p) > 0.0
    ensures k <= i < |q| - 1 && Orient(q[0], q[i], p) > 0.0 && Orient(q[0], q[i + 1], p) <= 0.0
    decreases |q| - k
  {
    hide Orient, Convex;
    if k == |q| - 1 {
      assert LeftOf(q, k, p);
      OrientSwaps(q[0], q[k], p);
      assert false;
    } else if Orient(q[0], q[k + 1], p) <= 0.0 {
      i := k;
    } else {
      i := FanFrom(q, p, k + 1);
    }
  }

  /** A linear function that is at most 0 at the corners is so inside, and less where it is at corner 0. */
  lemma WithinSide(q: seq<Point>, h: HalfPlane, p: Point)
    requires Convex(q) && Within(q, p) && forall i :: 0 <= i < |q| ==> Side(h, q[i]) <= 0.0
    ensures Side(h, p) <= 0.0 && (Side(h, q[0]) < 0.0 ==> Side(h, p) < 0.0)
  {
    hide Orient, Side, Convex;
    CornersThree(q);
    assert LeftOf(q, 0, p);
    var i := FanFrom(q, p, 1);
    var a, b, c := q[0], q[i], q[i + 1];
    Turn(q, 0, i, i + 1);
    Barycentric(h, a, b, c, p);
    assert LeftOf(q, i, p);
    OrientSwaps(a, c, p);
    FanArithmetic(Orient(a, b, c), Side(h, p), Orient(b, c, p), Orient(c, a, p), Orient(a, b, p), Side(h, a),
                  Side(h, b), Side(h, c));
  }

  lemma CornersThree(q: seq<Point>)
    requires Convex(q)
    ensures |q| >= 3
  {
  }

  /** Signs round a convex polygon do not alternate twice. */
  lemma Quadrilateral(q: seq<Point>, h: HalfPlane, i: nat, j: nat, k: nat, l: nat)
    requires Convex(q) && i < j < k < l < |q| && Side(h, q[i]) < 0.0 && Side(h, q[j]) >= 0.0 && Side(h, q[l]) >= 0.0
    ensures Side(h, q[k]) > 0.0
  {
    hide Orient, Side, Convex;
    Turn(q, i, j, k);
    Turn(q, i, j, l);
    Turn(q, i, k, l);
    Turn(q, j, k, l);
    var a, b, c, d := q[i], q[j], q[k], q[l];
    Barycentric(h, b, d, a, c);
    QuadrilateralSigns(a, b, c, d);
    QuadrilateralArithmetic(Orient(b, d, a), Side(h, c), Orient(d, a, c), Side(h, b), Orient(a, b, c), Side(h, d),
                            Orient(b, d, c), Side(h, a));
  }

  lemma QuadrilateralSigns(a: Point, b: Point, c: Point, d: Point)
    requires Orient(a, b, c) > 0.0 && Orient(a, b, d) > 0.0 && Orient(a, c, d) > 0.0 && Orient(b, c, d) > 0.0
    ensures Orient(b, d, a) > 0.0 && Orient(d, a, c) > 0.0 && Orient(b, d, c) < 0.0
  {
    hide Orient;
    OrientCycles(a, b, d);
    OrientCycles(a, c, d);
    OrientCycles(b, c, d);
    OrientCycles(b, d, c);
    OrientSwaps(b, d, c);
    OrientCycles(d, b, c);
  }

  lemma QuadrilateralArithmetic(d: real, s: real, u: real, sb: real, v: real, sd: real, w: real, sa: real)
    requires d > 0.0 && u > 0.0 && v > 0.0 && w < 0.0 && sb >= 0.0 && sd >= 0.0 && sa < 0.0
    requires d * s == u * sb + v * sd + w * sa
    ensures s > 0.0
  {
    assert u * sb >= 0.0 && v * sd >= 0.0 && w * sa > 0.0;
  }

  /** Three corners on a line put every point on it. */
  lemma ThreeOn(q: seq<Point>, h: HalfPlane, i: nat, j: nat, k: nat, p: Point)
    requires Convex(q) && i < j < k < |q| && On(h, q[i]) && On(h, q[j]) && On(h, q[k])
    ensures On(h, p)
  {
    Turn(q, i, j, k);
    Barycentric(h, q[i], q[j], q[k], p);
    hide Orient, Side, Convex;
  }

  // ------------------------------------------------------------------ clip

  /** What one edge adds: its start if that is in h, and where it crosses the line. */
  function Emit(h: HalfPlane, p: Point, q: Point): seq<Point> {
    var f, g := Side(h, p), Side(h, q);
    (if f <= 0.0 then [p] else []) + (if (f < 0.0 < g) || (g < 0.0 < f) then [Meet(h, p, q)] else [])
  }

  /** What the edges of a path add. */
  function Emitted(h: HalfPlane, s: seq<Point>): seq<Point> {
    if |s| < 2 then []
    else Emitted(h, s[..|s| - 1]) + Emit(h, s[|s| - 2], s[|s| - 1])
  }

  /** The polygon's corners and its first again. */
  function Round(q: seq<Point>): seq<Point> {
    if q == [] then [] else q + [q[0]]
  }

  function Clipped(q: seq<Point>, h: HalfPlane): seq<Point> {
    var out := Emitted(h, Round(q));
    if |out| >= 3 then out else []
  }

  /** The part of a convex polygon in h; a list of fewer than three corners is no area. */
  method Clip(q: seq<Point>, h: HalfPlane) returns (r: seq<Point>)
    ensures r == Clipped(q, h)
  {
    if q == [] {
      return [];
    }
    var n, out := |q|, [];
    var values := Values(q, h);
    hide *;
    EmittedFirst(h, q);
    for i := 0 to n
      invariant out == Emitted(h, Round(q)[..i + 1])
    {
      var j := (i + 1) % n;
      NextIndex(n, i);
      EmittedStep(h, q, i);
      var f, g := values[i], values[j];
      EmitIs(h, q[i], q[j], f, g);
      if f <= 0.0 {
        out := out + [q[i]];
      }
      if (f < 0.0 < g) || (g < 0.0 < f) {
        var t := f / (f - g);
        out := out + [Along(q[i], q[j], t)];
      }
    }
    ClippedIs(q, h);
    return if |out| >= 3 then out else [];
  }

  method Values(q: seq<Point>, h: HalfPlane) returns (values: seq<real>)
    ensures |values| == |q| && forall k :: 0 <= k < |q| ==> values[k] == Side(h, q[k])
  {
    values := [];
    for i := 0 to |q|
      invariant |values| == i && forall k :: 0 <= k < i ==> values[k] == Side(h, q[k])
    {
      values := values + [h.a * q[i].x + h.b * q[i].y - h.c];
    }
  }

  lemma EmittedFirst(h: HalfPlane, q: seq<Point>)
    requires q != []
    ensures |Round(q)| == |q| + 1 && Emitted(h, Round(q)[..1]) == []
  {
  }

  lemma ClippedIs(q: seq<Point>, h: HalfPlane)
    requires q != []
    ensures |Round(q)| == |q| + 1
    ensures var out := Emitted(h, Round(q)[..|q| + 1]); Clipped(q, h) == if |out| >= 3 then out else []
  {
    hide Emitted;
    assert Round(q)[..|q| + 1] == Round(q);
  }

  lemma EmitIs(h: HalfPlane, p: Point, q: Point, f: real, g: real)
    requires f == Side(h, p) && g == Side(h, q)
    ensures ((f < 0.0 < g) || (g < 0.0 < f)) ==> f - g != 0.0
    ensures Emit(h, p, q) == (if f <= 0.0 then [p] else []) +
      if (f < 0.0 < g) || (g < 0.0 < f) then [Along(p, q, f / (f - g))] else []
  {
    hide Side, Along;
  }

  lemma EmittedStep(h: HalfPlane, q: seq<Point>, i: nat)
    requires i < |q|
    ensures Emitted(h, Round(q)[..i + 2]) == Emitted(h, Round(q)[..i + 1]) + Emit(h, q[i], q[After(|q|, i)])
  {
    hide Emit;
    var s := Round(q)[..i + 2];
    assert s[..i + 1] == Round(q)[..i + 1];
    assert s[i] == q[i] && s[i + 1] == q[After(|q|, i)];
  }

  lemma NextIndex(n: nat, i: nat)
    requires i < n
    ensures (i + 1) % n == After(n, i)
  {
    if i + 1 == n {
      assert n % n == 0;
    }
  }

  /** A path's edges are those of its two parts. */
  lemma {:induction false} EmittedSplit(h: HalfPlane, s: seq<Point>, p: Point, t: seq<Point>)
    ensures Emitted(h, s + [p] + t) == Emitted(h, s + [p]) + Emitted(h, [p] + t)
    decreases t
  {
    hide Emit, Emitted;
    if t == [] {
      assert s + [p] + t == s + [p] && [p] + t == [p];
      EmittedOne(h, p);
    } else {
      var k := |t| - 1;
      EmittedSplit(h, s, p, t[..k]);
      var whole, part := s + [p] + t[..k], [p] + t[..k];
      assert s + [p] + t == whole + [t[k]] && [p] + t == part + [t[k]];
      EmittedAppend(h, whole, t[k]);
      EmittedAppend(h, part, t[k]);
      assert whole[|whole| - 1] == part[|part| - 1];
    }
  }

  lemma EmittedAppend(h: HalfPlane, s: seq<Point>, p: Point)
    requires s != []
    ensures Emitted(h, s + [p]) == Emitted(h, s) + Emit(h, s[|s| - 1], p)
  {
    hide Emit;
    assert (s + [p])[..|s|] == s;
  }

  /** Two paths joined have one edge more. */
  lemma EmittedJoin(h: HalfPlane, s: seq<Point>, t: seq<Point>)
    requires s != [] && t != []
    ensures Emitted(h, s + t) == Emitted(h, s) + Emit(h, s[|s| - 1], t[0]) + Emitted(h, t)
  {
    hide Emit, Emitted;
    var before, p := s[..|s| - 1], s[|s| - 1];
    assert s == before + [p] && t == [t[0]] + t[1..];
    assert s + t == before + [p] + t;
    EmittedSplit(h, before, p, t);
    assert [p] + t == [p] + [t[0]] + t[1..];
    EmittedSplit(h, [p], t[0], t[1..]);
    assert [p] + [t[0]] == [p, t[0]];
    EmittedPair(h, p, t[0]);
  }

  lemma EmittedPair(h: HalfPlane, p: Point, q: Point)
    ensures Emitted(h, [p, q]) == Emit(h, p, q)
  {
    assert [p, q][..1] == [p];
  }

  // ------------------------------------------------------------------ a polygon cut in two

  /** The first k corners lie inside h and the others outside it, only the first and last of them perhaps on its
      line. */
  predicate CutAfter(q: seq<Point>, h: HalfPlane, k: nat) {
    && Convex(q) && 1 <= k < |q|
    && (forall i :: 0 <= i < k ==> Side(h, q[i]) < 0.0)
    && Side(h, q[k]) >= 0.0 && Side(h, q[|q| - 1]) >= 0.0 && (k == |q| - 1 ==> Side(h, q[k]) > 0.0)
    && forall i :: k < i < |q| - 1 ==> Side(h, q[i]) > 0.0
  }

  function Exit(q: seq<Point>, h: HalfPlane, k: nat): Point
    requires CutAfter(q, h, k)
  {
    Meet(h, q[k - 1], q[k])
  }

  function Entry(q: seq<Point>, h: HalfPlane, k: nat): Point
    requires CutAfter(q, h, k)
  {
    Meet(h, q[|q| - 1], q[0])
  }

  function Inner(q: seq<Point>, h: HalfPlane, k: nat): seq<Point>
    requires CutAfter(q, h, k)
  {
    q[..k] + [Exit(q, h, k), Entry(q, h, k)]
  }

  lemma {:induction false} InsidePath(h: HalfPlane, s: seq<Point>)
    requires s != [] && forall i :: 0 <= i < |s| ==> Side(h, s[i]) < 0.0
    ensures Emitted(h, s) == s[..|s| - 1]
  {
    hide Side, Meet;
    var n := |s| - 1;
    if n > 0 {
      InsidePath(h, s[..n]);
      assert s[..n] == s[..n][..n - 1] + [s[n - 1]];
    }
  }

  lemma {:induction false} OutsidePath(h: HalfPlane, s: seq<Point>)
    requires s != [] && forall i :: 0 < i < |s| - 1 ==> Side(h, s[i]) > 0.0
    requires Side(h, s[0]) >= 0.0 && Side(h, s[|s| - 1]) >= 0.0
    ensures Emitted(h, s) == if |s| > 1 && On(h, s[0]) then [s[0]] else []
  {
    hide Side, Meet;
    var n := |s| - 1;
    if n > 0 {
      OutsidePath(h, s[..n]);
    }
  }

  lemma MeetAtEnd(h: HalfPlane, p: Point, q: Point)
    requires Side(h, p) != Side(h, q)
    ensures On(h, q) ==> Meet(h, p, q) == q
    ensures On(h, p) ==> Meet(h, p, q) == p
  {
    AlongEnds(p, q);
    hide Side, Along;
    if On(h, q) {
      QuotientOne(Side(h, p));
    }
  }

  lemma QuotientOne(f: real)
    requires f != 0.0
    ensures f / (f - 0.0) == 1.0
  {
  }

  lemma EmittedRuns(q: seq<Point>, h: HalfPlane, k: nat)
    requires CutAfter(q, h, k)
    ensures Emitted(h, q[..k]) == q[..k - 1]
    ensures Emitted(h, q[k..]) == if k < |q| - 1 && On(h, q[k]) then [q[k]] else []
  {
    hide Side, Convex, Emitted;
    var inside, outside := q[..k], q[k..];
    assert outside[|outside| - 1] == q[|q| - 1] && outside[0] == q[k];
    forall i | 0 < i < |outside| - 1
      ensures Side(h, outside[i]) > 0.0
    {
      assert outside[i] == q[k + i];
    }
    InsidePath(h, inside);
    OutsidePath(h, outside);
    assert inside[..k - 1] == q[..k - 1];
  }

  lemma EmittedWhole(q: seq<Point>, h: HalfPlane, k: nat)
    requires 1 <= k < |q|
    ensures Emitted(h, Round(q)) == Emitted(h, q[..k]) + Emit(h, q[k - 1], q[k]) +
      (Emitted(h, q[k..]) + Emit(h, q[|q| - 1], q[0]) + [])
  {
    hide Emit, Emitted;
    var inside, outside, last := q[..k], q[k..], [q[0]];
    assert Round(q) == inside + (outside + last);
    EmittedJoin(h, inside, outside + last);
    EmittedJoin(h, outside, last);
    EmittedOne(h, q[0]);
  }

  /** Clipping such a polygon leaves the inside corners and the two points where the line leaves and enters it. */
  lemma EmittedInner(q: seq<Point>, h: HalfPlane, k: nat)
    requires CutAfter(q, h, k)
    ensures Emitted(h, Round(q)) == Inner(q, h, k)
  {
    EmittedRuns(q, h, k);
    EmittedWhole(q, h, k);
    EmittedParts(q, h, k);
    hide *;
  }

  lemma EmittedOne(h: HalfPlane, p: Point)
    ensures Emitted(h, [p]) == []
  {
  }

  lemma EmittedParts(q: seq<Point>, h: HalfPlane, k: nat)
    requires CutAfter(q, h, k)
    ensures var n := |q|; var outside := if k < n - 1 && On(h, q[k]) then [q[k]] else [];
      q[..k - 1] + Emit(h, q[k - 1], q[k]) + (outside + Emit(h, q[n - 1], q[0]) + []) == Inner(q, h, k)
  {
    var n := |q|;
    MeetAtEnd(h, q[k - 1], q[k]);
    MeetAtEnd(h, q[n - 1], q[0]);
    hide Side, Meet, Convex;
    assert q[..k] == q[..k - 1] + [q[k - 1]];
    var outside := if k < n - 1 && On(h, q[k]) then [q[k]] else [];
    assert Emit(h, q[k - 1], q[k]) + outside == [q[k - 1], Exit(q, h, k)];
    assert Emit(h, q[n - 1], q[0]) == [Entry(q, h, k)];
  }

  // ------------------------------------------------------------------ what is left is convex

  lemma MeetShare(h: HalfPlane, p: Point, q: Point) returns (t: real)
    requires Side(h, p) < 0.0 <= Side(h, q)
    ensures 0.0 < t <= 1.0 && Meet(h, p, q) == Along(p, q, t) && (Side(h, q) > 0.0 ==> t < 1.0)
    ensures 0.0 <= 1.0 - t < 1.0 && Meet(h, q, p) == Along(q, p, 1.0 - t)
  {
    hide Side, Along;
    var f, g := Side(h, p), Side(h, q);
    t := f / (f - g);
    ShareArithmetic(f, g);
  }

  lemma ShareArithmetic(f: real, g: real)
    requires f < 0.0 <= g
    ensures 0.0 < f / (f - g) <= 1.0 && (g > 0.0 ==> f / (f - g) < 1.0) && g / (g - f) == 1.0 - f / (f - g)
  {
    var d := g - f;
    assert f / (f - g) == -f / d;
    assert -f / d + g / d == 1.0;
    assert -f / d > 0.0 && g / d >= 0.0 && (g > 0.0 ==> g / d > 0.0);
  }

  lemma TurnWeak(q: seq<Point>, i: nat, j: nat, k: nat)
    requires Convex(q) && i <= j <= k < |q|
    ensures Orient(q[i], q[j], q[k]) >= 0.0 && Orient(q[k], q[i], q[j]) >= 0.0
  {
    hide Orient, Convex;
    if i < j < k {
      Turn(q, i, j, k);
    } else {
      OrientSame(q[i], q[k]);
      OrientSame(q[k], q[i]);
    }
  }

  lemma Mix(t: real, x: real, y: real)
    requires 0.0 <= t <= 1.0 && x >= 0.0 && y >= 0.0
    ensures Mixed(t, x, y) >= 0.0
    ensures (t > 0.0 && y > 0.0) || (t < 1.0 && x > 0.0) ==> Mixed(t, x, y) > 0.0
  {
    assert (1.0 - t) * x >= 0.0 && t * y >= 0.0;
    assert t > 0.0 && y > 0.0 ==> t * y > 0.0;
    assert t < 1.0 && x > 0.0 ==> (1.0 - t) * x > 0.0;
  }

  /** The turn from corners i and j to the exit. */
  lemma TurnToExit(q: seq<Point>, h: HalfPlane, k: nat, i: nat, j: nat)
    requires CutAfter(q, h, k) && i < j < k
    ensures Orient(q[i], q[j], Exit(q, h, k)) > 0.0
  {
    CutParts(q, h, k);
    hide Mixed, Times, Orient, Convex, Side, Along, CutAfter, Meet;
    var t := MeetShare(h, q[k - 1], q[k]);
    OrientAlong(q[i], q[j], q[k - 1], q[k], t);
    TurnWeak(q, i, j, k - 1);
    Turn(q, i, j, k);
    Mix(t, Orient(q[i], q[j], q[k - 1]), Orient(q[i], q[j], q[k]));
  }

  lemma TurnToEntry(q: seq<Point>, h: HalfPlane, k: nat, i: nat, j: nat)
    requires CutAfter(q, h, k) && i < j < k
    ensures Orient(q[i], q[j], Entry(q, h, k)) > 0.0
  {
    CutParts(q, h, k);
    hide Mixed, Times, Orient, Convex, Side, Along, CutAfter, Meet;
    var n := |q|;
    var t := MeetShare(h, q[0], q[n - 1]);
    OrientAlong(q[i], q[j], q[n - 1], q[0], 1.0 - t);
    TurnWeak(q, 0, i, j);
    OrientCycles(q[0], q[i], q[j]);
    Turn(q, i, j, n - 1);
    Mix(1.0 - t, Orient(q[i], q[j], q[n - 1]), Orient(q[i], q[j], q[0]));
  }

  lemma CutParts(q: seq<Point>, h: HalfPlane, k: nat)
    requires CutAfter(q, h, k)
    ensures Convex(q) && |q| >= 3 && 1 <= k < |q| && Side(h, q[k - 1]) < 0.0 <= Side(h, q[k])
    ensures Side(h, q[0]) < 0.0 <= Side(h, q[|q| - 1]) && (k == |q| - 1 ==> Side(h, q[k]) > 0.0)
    ensures forall i :: 0 <= i < k ==> Side(h, q[i]) < 0.0
  {
    hide Side;
  }

  /** Seen from corner i, the exit against corner r. */
  lemma ExitSeen(q: seq<Point>, k: nat, i: nat, r: nat, t: real)
    requires Convex(q) && i < k < |q| && (k <= r < |q| || r <= i) && 0.0 < t <= 1.0
    ensures Orient(q[i], Along(q[k - 1], q[k], t), q[r]) >= 0.0
    ensures r < i || k < r || (k == r && i < k - 1 && t < 1.0) ==>
      Orient(q[i], Along(q[k - 1], q[k], t), q[r]) > 0.0
  {
    hide Mixed, Times, Orient, Convex, Along;
    var x := Along(q[k - 1], q[k], t);
    OrientCycles(q[i], x, q[r]);
    OrientAlong(q[r], q[i], q[k - 1], q[k], t);
    var u, v := Orient(q[r], q[i], q[k - 1]), Orient(q[r], q[i], q[k]);
    if r <= i {
      TurnWeak(q, r, i, k - 1);
      TurnWeak(q, r, i, k);
      if r < i {
        Turn(q, r, i, k);
      }
    } else {
      TurnWeak(q, i, k - 1, r);
      TurnWeak(q, i, k, r);
      if k < r {
        Turn(q, i, k, r);
      } else if i < k - 1 {
        Turn(q, i, k - 1, r);
      }
    }
    Mix(t, u, v);
  }

  /** The line from exit to entry turns left seen from an inside corner. */
  lemma TurnAcross(q: seq<Point>, h: HalfPlane, k: nat, i: nat)
    requires CutAfter(q, h, k) && i < k
    ensures Orient(q[i], Exit(q, h, k), Entry(q, h, k)) > 0.0
  {
    CutParts(q, h, k);
    hide Mixed, Times, Orient, Convex, Side, Along, CutAfter, Meet;
    var n := |q|;
    var t := MeetShare(h, q[k - 1], q[k]);
    var u := MeetShare(h, q[0], q[n - 1]);
    var x := Along(q[k - 1], q[k], t);
    ExitSeen(q, k, i, n - 1, t);
    ExitSeen(q, k, i, 0, t);
    OrientAlong(q[i], x, q[n - 1], q[0], 1.0 - u);
    Mix(1.0 - u, Orient(q[i], x, q[n - 1]), Orient(q[i], x, q[0]));
  }

  lemma InnerConvex(q: seq<Point>, h: HalfPlane, k: nat)
    requires CutAfter(q, h, k)
    ensures Convex(Inner(q, h, k))
  {
    CutParts(q, h, k);
    hide Orient, Side, Along, CutAfter, Meet, Exit, Entry, Convex;
    var r := Inner(q, h, k);
    forall i, j, l | 0 <= i < j < l < |r|
      ensures Orient(r[i], r[j], r[l]) > 0.0
    {
      if l < k {
        Turn(q, i, j, l);
      } else if j == k {
        TurnAcross(q, h, k, i);
      } else if l == k {
        TurnToExit(q, h, k, i, j);
      } else {
        TurnToEntry(q, h, k, i, j);
      }
    }
    ConvexFrom(r);
  }

  lemma ConvexFrom(q: seq<Point>)
    requires |q| >= 3 && forall i, j, k :: 0 <= i < j < k < |q| ==> Orient(q[i], q[j], q[k]) > 0.0
    ensures Convex(q)
  {
    hide Orient;
  }

  // ------------------------------------------------------------------ and holds what it should

  /** An edge's turn to p, of either sign. */
  function EdgeTurn(q: seq<Point>, i: nat, p: Point): real
    requires i < |q|
  {
    Orient(q[i], q[After(|q|, i)], p)
  }

  predicate SameSign(x: real, y: real) {
    (x > 0.0 <==> y > 0.0) && (x == 0.0 <==> y == 0.0)
  }

  lemma ScaledSign(t: real, x: real)
    requires t > 0.0
    ensures SameSign(Times(t, x), x)
  {
    if x > 0.0 {
      assert t * x > 0.0;
    } else if x < 0.0 {
      assert t * x < 0.0;
    }
  }

  /** The edges of what is left are on the lines of the polygon's edges 0 to k - 1 and its last, and on h's line. */
  lemma InnerEdges(q: seq<Point>, h: HalfPlane, k: nat, p: Point)
    requires CutAfter(q, h, k)
    ensures var r := Inner(q, h, k);
      && (forall i :: 0 <= i < k ==> SameSign(EdgeTurn(r, i, p), EdgeTurn(q, i, p)))
      && SameSign(EdgeTurn(r, k, p), -Side(h, p)) && SameSign(EdgeTurn(r, k + 1, p), EdgeTurn(q, |q| - 1, p))
  {
    CutParts(q, h, k);
    hide Mixed, Times, Orient, Side, Along, CutAfter, Meet, Convex;
    var n, r := |q|, Inner(q, h, k);
    var t := MeetShare(h, q[k - 1], q[k]);
    var u := MeetShare(h, q[0], q[n - 1]);
    OrientOnward(q[k - 1], q[k], p, t);
    ScaledSign(t, Orient(q[k - 1], q[k], p));
    OrientOnward(q[n - 1], q[0], p, 1.0 - u);
    ScaledSign(u, Orient(q[n - 1], q[0], p));
    AcrossSign(q, h, k, p);
    hide SameSign;
    forall i | 0 <= i < k - 1
      ensures EdgeTurn(r, i, p) == EdgeTurn(q, i, p)
    {
    }
  }

  lemma AcrossSign(q: seq<Point>, h: HalfPlane, k: nat, p: Point)
    requires CutAfter(q, h, k)
    ensures SameSign(Orient(Exit(q, h, k), Entry(q, h, k), p), -Side(h, p))
  {
    CutParts(q, h, k);
    TurnAcross(q, h, k, 0);
    MeetOn(h, q[k - 1], q[k]);
    MeetOn(h, q[|q| - 1], q[0]);
    hide Mixed, Times, Orient, Side, Along, CutAfter, Meet, Convex;
    var x, y := Exit(q, h, k), Entry(q, h, k);
    OrientCycles(x, y, q[0]);
    LineSides(h, x, y, p, q[0]);
    AcrossArithmetic(Orient(x, y, p), Side(h, q[0]), Orient(x, y, q[0]), Side(h, p));
  }

  lemma AcrossArithmetic(o: real, f: real, d: real, g: real)
    requires f < 0.0 && d > 0.0 && Times(o, f) == Times(d, g)
    ensures SameSign(o, -g)
  {
    assert o * f == d * g;
    if g > 0.0 {
      assert d * g > 0.0;
      assert o < 0.0;
    } else if g < 0.0 {
      assert d * g < 0.0;
      assert o > 0.0;
    } else {
      assert d * g == 0.0;
    }
  }

  /** The half-plane to the left of an edge. */
  function EdgePlane(p: Point, q: Point): HalfPlane {
    var a, b := q.y - p.y, -(q.x - p.x);
    HalfPlane(a, b, a * p.x + b * p.y)
  }

  lemma EdgePlaneSide(p: Point, q: Point, r: Point)
    ensures Side(EdgePlane(p, q), r) == -Orient(p, q, r)
  {
  }

  lemma CornersLeft(q: seq<Point>, i: nat, j: nat)
    requires Convex(q) && i < |q| && j < |q|
    ensures EdgeTurn(q, i, q[j]) >= 0.0 && (j != i && j != After(|q|, i) ==> EdgeTurn(q, i, q[j]) > 0.0)
  {
    hide Orient, Convex;
    var n, k := |q|, After(|q|, i);
    OrientSame(q[i], q[k]);
    if i + 1 < n {
      if j < i {
        Turn(q, j, i, i + 1);
      } else if j > i + 1 {
        Turn(q, i, i + 1, j);
      }
    } else if 0 < j < i {
      Turn(q, 0, j, i);
    }
  }

  /** A point inside what is left is to the left of the edges that were cut off. */
  lemma LeftOfOuter(q: seq<Point>, h: HalfPlane, k: nat, p: Point, i: nat)
    requires CutAfter(q, h, k) && Within(Inner(q, h, k), p) && k <= i < |q| - 1
    ensures LeftOf(q, i, p)
  {
    CutParts(q, h, k);
    InnerConvex(q, h, k);
    hide Orient, Side, Along, CutAfter, Meet, Convex, Within;
    var n, r, e := |q|, Inner(q, h, k), EdgePlane(q[i], q[i + 1]);
    forall j | 0 <= j < |r|
      ensures Side(e, r[j]) <= 0.0
    {
      EdgePlaneSide(q[i], q[i + 1], r[j]);
      OuterTurn(q, h, k, i, j);
    }
    EdgePlaneSide(q[i], q[i + 1], q[0]);
    CornersLeft(q, i, 0);
    WithinSide(r, e, p);
    EdgePlaneSide(q[i], q[i + 1], p);
  }

  lemma OuterTurn(q: seq<Point>, h: HalfPlane, k: nat, i: nat, j: nat)
    requires CutAfter(q, h, k) && k <= i < |q| - 1 && j < |Inner(q, h, k)|
    ensures Orient(q[i], q[i + 1], Inner(q, h, k)[j]) >= 0.0
  {
    CutParts(q, h, k);
    hide Mixed, Times, Orient, Side, Along, CutAfter, Meet, Convex;
    var n := |q|;
    var t := MeetShare(h, q[k - 1], q[k]);
    var u := MeetShare(h, q[0], q[n - 1]);
    if j < k {
      CornersLeft(q, i, j);
    } else if j == k {
      CornersLeft(q, i, k - 1);
      CornersLeft(q, i, k);
      OrientAlong(q[i], q[i + 1], q[k - 1], q[k], t);
      Mix(t, Orient(q[i], q[i + 1], q[k - 1]), Orient(q[i], q[i + 1], q[k]));
    } else {
      CornersLeft(q, i, n - 1);
      CornersLeft(q, i, 0);
      OrientAlong(q[i], q[i + 1], q[n - 1], q[0], 1.0 - u);
      Mix(1.0 - u, Orient(q[i], q[i + 1], q[n - 1]), Orient(q[i], q[i + 1], q[0]));
    }
  }

  /** r is the part of q in h: convex, or nothing, and of the points off the line it holds those of q in h. */
  ghost predicate Halved(r: seq<Point>, q: seq<Point>, h: HalfPlane) {
    (r == [] || Convex(r)) && forall p: Point :: !On(h, p) ==> HalvedAt(r, q, h, p)
  }

  predicate HalvedAt(r: seq<Point>, q: seq<Point>, h: HalfPlane, p: Point) {
    (Within(r, p) <==> Within(q, p) && Side(h, p) < 0.0) && (OffEdges(q, p) ==> OffEdges(r, p))
  }

  /** The polygon's edge on whose line edge i of what is left is, unless that is the new one. */
  function OldEdge(q: seq<Point>, k: nat, i: nat): nat
    requires q != []
  {
    if i < k then i else |q| - 1
  }

  lemma InnerEdge(q: seq<Point>, h: HalfPlane, k: nat, p: Point, i: nat)
    requires CutAfter(q, h, k) && i < k + 2
    ensures |Inner(q, h, k)| == k + 2 && OldEdge(q, k, i) < |q|
    ensures i == k ==> SameSign(EdgeTurn(Inner(q, h, k), i, p), -Side(h, p))
    ensures i != k ==> SameSign(EdgeTurn(Inner(q, h, k), i, p), EdgeTurn(q, OldEdge(q, k, i), p))
  {
    InnerEdges(q, h, k, p);
    hide EdgeTurn, SameSign, Side, Convex;
  }

  lemma LeftByTurn(q: seq<Point>, i: nat, p: Point)
    requires i < |q|
    ensures LeftOf(q, i, p) <==> EdgeTurn(q, i, p) > 0.0
    ensures OnEdge(q, i, p) <==> EdgeTurn(q, i, p) == 0.0
  {
    hide Orient;
  }

  /** Inside what is left is inside the polygon and in h. */
  lemma InnerWithin(q: seq<Point>, h: HalfPlane, k: nat, p: Point)
    requires CutAfter(q, h, k) && Within(Inner(q, h, k), p)
    ensures Within(q, p) && Side(h, p) < 0.0
  {
    CutParts(q, h, k);
    var r := Inner(q, h, k);
    InnerEdge(q, h, k, p, k);
    LeftByTurn(r, k, p);
    hide CutAfter, Convex, LeftOf, EdgeTurn, Side, Inner;
    forall i | 0 <= i < |q|
      ensures LeftOf(q, i, p)
    {
      if k <= i < |q| - 1 {
        LeftOfOuter(q, h, k, p, i);
      } else {
        var j := if i < k then i else k + 1;
        InnerEdge(q, h, k, p, j);
        LeftByTurn(r, j, p);
        LeftByTurn(q, i, p);
      }
    }
  }

  lemma WithinInner(q: seq<Point>, h: HalfPlane, k: nat, p: Point)
    requires CutAfter(q, h, k) && Within(q, p) && Side(h, p) < 0.0
    ensures Within(Inner(q, h, k), p)
  {
    CutParts(q, h, k);
    var r := Inner(q, h, k);
    hide CutAfter, Convex, LeftOf, EdgeTurn, Side, Inner;
    InnerEdge(q, h, k, p, k);
    forall i | 0 <= i < |r|
      ensures LeftOf(r, i, p)
    {
      InnerEdge(q, h, k, p, i);
      LeftByTurn(r, i, p);
      LeftByTurn(q, OldEdge(q, k, i), p);
    }
  }

  lemma OffInner(q: seq<Point>, h: HalfPlane, k: nat, p: Point)
    requires CutAfter(q, h, k) && OffEdges(q, p) && !On(h, p)
    ensures OffEdges(Inner(q, h, k), p)
  {
    CutParts(q, h, k);
    var r := Inner(q, h, k);
    hide CutAfter, Convex, OnEdge, EdgeTurn, Side, Inner;
    InnerEdge(q, h, k, p, k);
    forall i | 0 <= i < |r|
      ensures !OnEdge(r, i, p)
    {
      InnerEdge(q, h, k, p, i);
      LeftByTurn(r, i, p);
      LeftByTurn(q, OldEdge(q, k, i), p);
    }
  }

  lemma InnerHolds(q: seq<Point>, h: HalfPlane, k: nat, p: Point)
    requires CutAfter(q, h, k) && !On(h, p)
    ensures HalvedAt(Inner(q, h, k), q, h, p)
  {
    hide CutAfter, Within, OffEdges, Side, Inner;
    if Within(Inner(q, h, k), p) {
      InnerWithin(q, h, k, p);
    }
    if Within(q, p) && Side(h, p) < 0.0 {
      WithinInner(q, h, k, p);
    }
    if OffEdges(q, p) {
      OffInner(q, h, k, p);
    }
  }

  lemma InnerHalved(q: seq<Point>, h: HalfPlane, k: nat)
    requires CutAfter(q, h, k)
    ensures Halved(Inner(q, h, k), q, h)
  {
    InnerConvex(q, h, k);
    hide CutAfter, Convex, HalvedAt, On, Inner;
    forall p: Point | !On(h, p)
      ensures HalvedAt(Inner(q, h, k), q, h, p)
    {
      InnerHolds(q, h, k, p);
    }
  }

  // ------------------------------------------------------------------ the corners from another one on

  lemma TurnedConvex(a: seq<Point>, b: seq<Point>)
    requires Convex(a + b)
    ensures Convex(b + a)
  {
    var q, r := a + b, b + a;
    hide Orient, Convex;
    CornersThree(q);
    forall i, j, k | 0 <= i < j < k < |r|
      ensures Orient(r[i], r[j], r[k]) > 0.0
    {
      var m := |b|;
      if k < m {
        Turn(q, |a| + i, |a| + j, |a| + k);
      } else if j < m {
        Turn(q, k - m, |a| + i, |a| + j);
      } else if i < m {
        Turn(q, j - m, k - m, |a| + i);
      } else {
        Turn(q, i - m, j - m, k - m);
      }
    }
    ConvexFrom(r);
  }

  /** Where an edge goes. */
  function Moved(a: seq<Point>, b: seq<Point>, i: nat): nat
    requires i < |a + b|
  {
    if i < |a| then |b| + i else i - |a|
  }

  lemma TurnedEdge(a: seq<Point>, b: seq<Point>, i: nat, p: Point)
    requires i < |a + b|
    ensures Moved(a, b, i) < |b + a| && EdgeTurn(b + a, Moved(a, b, i), p) == EdgeTurn(a + b, i, p)
  {
    hide Orient;
    var q, r, k := a + b, b + a, Moved(a, b, i);
    assert r[k] == q[i];
    assert r[After(|r|, k)] == q[After(|q|, i)];
  }

  lemma TurnedWithin(a: seq<Point>, b: seq<Point>, p: Point)
    ensures Within(a + b, p) ==> Within(b + a, p)
    ensures OffEdges(a + b, p) ==> OffEdges(b + a, p)
  {
    hide Orient;
    var q, r := a + b, b + a;
    forall k | 0 <= k < |r|
      ensures Within(q, p) ==> LeftOf(r, k, p)
      ensures OffEdges(q, p) ==> !OnEdge(r, k, p)
    {
      var i := Moved(b, a, k);
      TurnedEdge(b, a, k, p);
      assert Within(q, p) ==> LeftOf(q, i, p);
      assert OffEdges(q, p) ==> !OnEdge(q, i, p);
    }
  }

  /** Clipping goes round with the corners. */
  lemma TurnedEmitted(h: HalfPlane, a: seq<Point>, b: seq<Point>)
    requires a != [] && b != []
    ensures var u, v := Emitted(h, a + [b[0]]), Emitted(h, b + [a[0]]);
      Emitted(h, Round(a + b)) == u + v && Emitted(h, Round(b + a)) == v + u
  {
    hide Emitted;
    RoundSplit(h, a, b);
    RoundSplit(h, b, a);
  }

  lemma RoundSplit(h: HalfPlane, a: seq<Point>, b: seq<Point>)
    requires a != [] && b != []
    ensures Emitted(h, Round(a + b)) == Emitted(h, a + [b[0]]) + Emitted(h, b + [a[0]])
  {
    hide Emitted;
    var rest := b[1..] + [a[0]];
    assert Round(a + b) == a + [b[0]] + rest;
    assert b + [a[0]] == [b[0]] + rest;
    EmittedSplit(h, a, b[0], rest);
  }

  lemma TurnedHalved(h: HalfPlane, a: seq<Point>, b: seq<Point>, u: seq<Point>, v: seq<Point>)
    requires Halved(v + u, b + a, h)
    ensures Halved(u + v, a + b, h)
  {
    if v + u != [] {
      TurnedConvex(v, u);
    } else {
      assert u + v == [];
    }
    hide Convex, Within, OffEdges, On, Side;
    forall p: Point | !On(h, p)
      ensures HalvedAt(u + v, a + b, h, p)
    {
      assert HalvedAt(v + u, b + a, h, p);
      TurnedWithin(u, v, p);
      TurnedWithin(v, u, p);
      TurnedWithin(a, b, p);
      TurnedWithin(b, a, p);
    }
  }

  /** If clipping the corners from m on round to it leaves the right part, so does clipping them from 0 on. */
  lemma TurnBack(h: HalfPlane, q: seq<Point>, m: nat)
    requires 0 < m < |q|
    requires var r := q[m..] + q[..m]; Halved(Emitted(h, Round(r)), r, h) && |Emitted(h, Round(r))| >= 3
    ensures Halved(Emitted(h, Round(q)), q, h) && |Emitted(h, Round(q))| >= 3
  {
    hide Emitted, Halved, Round;
    var a, b := q[..m], q[m..];
    assert q == a + b;
    TurnedEmitted(h, a, b);
    TurnedHalved(h, a, b, Emitted(h, a + [b[0]]), Emitted(h, b + [a[0]]));
  }

  // ------------------------------------------------------------------ the three cases

  lemma {:induction false} KeptPath(h: HalfPlane, s: seq<Point>)
    requires s != [] && forall i :: 0 <= i < |s| ==> Side(h, s[i]) <= 0.0
    ensures Emitted(h, s) == s[..|s| - 1]
  {
    hide Side, Meet;
    var n := |s| - 1;
    if n > 0 {
      KeptPath(h, s[..n]);
      assert s[..n] == s[..n][..n - 1] + [s[n - 1]];
    }
  }

  /** No corner outside: nothing is cut off. */
  lemma AllInside(q: seq<Point>, h: HalfPlane)
    requires Convex(q) && forall i :: 0 <= i < |q| ==> Side(h, q[i]) <= 0.0
    ensures Clipped(q, h) == q && Halved(q, q, h)
  {
    CornersThree(q);
    hide Side, Convex, Within, OffEdges, Emitted;
    KeptPath(h, Round(q));
    forall p: Point | !On(h, p)
      ensures HalvedAt(q, q, h, p)
    {
      if Within(q, p) {
        WithinSide(q, h, p);
      }
    }
  }

  /** The corners on the line. */
  function OnLine(h: HalfPlane, q: seq<Point>): seq<Point> {
    if q == [] then []
    else OnLine(h, q[..|q| - 1]) + if On(h, q[|q| - 1]) then [q[|q| - 1]] else []
  }

  lemma {:induction false} LeftPath(h: HalfPlane, s: seq<Point>)
    requires s != [] && forall i :: 0 <= i < |s| ==> Side(h, s[i]) >= 0.0
    ensures Emitted(h, s) == OnLine(h, s[..|s| - 1])
  {
    hide Side, Meet;
    var n := |s| - 1;
    if n > 0 {
      LeftPath(h, s[..n]);
      assert s[..n][..n - 1] == s[..n - 1];
    }
  }

  lemma {:induction false} OneOn(h: HalfPlane, q: seq<Point>) returns (i: nat)
    requires |OnLine(h, q)| >= 1
    ensures i < |q| && On(h, q[i])
  {
    hide On;
    i := |q| - 1;
    if !On(h, q[i]) {
      i := OneOn(h, q[..i]);
    }
  }

  lemma {:induction false} TwoOn(h: HalfPlane, q: seq<Point>) returns (i: nat, j: nat)
    requires |OnLine(h, q)| >= 2
    ensures i < j < |q| && On(h, q[i]) && On(h, q[j])
  {
    hide On;
    j := |q| - 1;
    if On(h, q[j]) {
      i := OneOn(h, q[..j]);
    } else {
      i, j := TwoOn(h, q[..j]);
    }
  }

  lemma {:induction false} ThreeOnLine(h: HalfPlane, q: seq<Point>) returns (i: nat, j: nat, k: nat)
    requires |OnLine(h, q)| >= 3
    ensures i < j < k < |q| && On(h, q[i]) && On(h, q[j]) && On(h, q[k])
  {
    hide On;
    k := |q| - 1;
    if On(h, q[k]) {
      i, j := TwoOn(h, q[..k]);
    } else {
      i, j, k := ThreeOnLine(h, q[..k]);
    }
  }

  /** No corner inside, and one outside: nothing is left. */
  lemma NoneInside(q: seq<Point>, h: HalfPlane, b: nat)
    requires Convex(q) && (forall i :: 0 <= i < |q| ==> Side(h, q[i]) >= 0.0) && b < |q| && Side(h, q[b]) > 0.0
    ensures Clipped(q, h) == [] && Halved([], q, h)
  {
    CornersThree(q);
    hide Side, Convex, OffEdges, Emitted, OnLine;
    LeftPath(h, Round(q));
    assert Round(q)[..|q|] == q;
    if |OnLine(h, q)| >= 3 {
      var i, j, k := ThreeOnLine(h, q);
      ThreeOn(q, h, i, j, k, q[b]);
    }
    NothingHalved(q, h);
  }

  lemma NothingHalved(q: seq<Point>, h: HalfPlane)
    requires Convex(q) && forall i :: 0 <= i < |q| ==> Side(h, q[i]) >= 0.0
    ensures Halved([], q, h)
  {
    hide Side, Convex;
    forall p: Point | !On(h, p)
      ensures HalvedAt([], q, h, p)
    {
      if Within(q, p) {
        OppositeSides(q, h);
        OppositeSide(h, p);
        WithinSide(q, Opposite(h), p);
      }
    }
  }

  lemma OppositeSides(q: seq<Point>, h: HalfPlane)
    requires forall i :: 0 <= i < |q| ==> Side(h, q[i]) >= 0.0
    ensures forall i :: 0 <= i < |q| ==> Side(Opposite(h), q[i]) <= 0.0
  {
    hide Side;
    forall i | 0 <= i < |q|
      ensures Side(Opposite(h), q[i]) <= 0.0
    {
      OppositeSide(h, q[i]);
    }
  }

  /** The first corner from k on that is not inside. */
  lemma {:induction false} FirstOut(q: seq<Point>, h: HalfPlane, k: nat) returns (j: nat)
    requires k < |q| && Side(h, q[|q| - 1]) >= 0.0 && forall i :: 0 <= i < k ==> Side(h, q[i]) < 0.0
    ensures k <= j < |q| && Side(h, q[j]) >= 0.0 && forall i :: 0 <= i < j ==> Side(h, q[i]) < 0.0
    decreases |q| - k
  {
    hide Side;
    j := k;
    if Side(h, q[k]) < 0.0 {
      j := FirstOut(q, h, k + 1);
    }
  }

  lemma {:induction false} FirstIn(q: seq<Point>, h: HalfPlane, k: nat, a: nat) returns (j: nat)
    requires k <= a < |q| && Side(h, q[a]) < 0.0 && forall i :: 0 <= i < k ==> Side(h, q[i]) >= 0.0
    ensures k <= j <= a && Side(h, q[j]) < 0.0 && forall i :: 0 <= i < j ==> Side(h, q[i]) >= 0.0
    decreases a - k
  {
    hide Side;
    j := k;
    if Side(h, q[k]) >= 0.0 {
      j := FirstIn(q, h, k + 1, a);
    }
  }

  /** The inside corners first, an outside one last: they are together. */
  lemma StartsInside(q: seq<Point>, h: HalfPlane, b: nat)
    requires Convex(q) && Side(h, q[0]) < 0.0 <= Side(h, q[|q| - 1]) && b < |q| && Side(h, q[b]) > 0.0
    ensures Halved(Emitted(h, Round(q)), q, h) && |Emitted(h, Round(q))| >= 3
  {
    hide Side, Convex, Halved, Emitted, Round, Exit, Entry;
    CornersThree(q);
    var k := FirstOut(q, h, 1);
    forall i | k < i < |q| - 1
      ensures Side(h, q[i]) > 0.0
    {
      Quadrilateral(q, h, 0, k, i, |q| - 1);
    }
    EmittedInner(q, h, k);
    InnerHalved(q, h, k);
  }

  /** An outside corner first and inside ones later. */
  lemma StartsOutside(q: seq<Point>, h: HalfPlane, a: nat)
    requires Convex(q) && Side(h, q[0]) > 0.0 && a < |q| && Side(h, q[a]) < 0.0
    ensures Halved(Emitted(h, Round(q)), q, h) && |Emitted(h, Round(q))| >= 3
  {
    hide Side, Convex, Halved, Emitted, Round;
    var m := FirstIn(q, h, 0, a);
    var r := q[m..] + q[..m];
    assert q == q[..m] + q[m..];
    TurnedConvex(q[..m], q[m..]);
    assert r[0] == q[m] && r[|r| - 1] == q[m - 1] && r[|q| - m] == q[0];
    StartsInside(r, h, |q| - m);
    TurnBack(h, q, m);
  }

  /** Corners on both sides: the part in h is left. */
  lemma BothSides(q: seq<Point>, h: HalfPlane, a: nat, b: nat)
    requires Convex(q) && a < |q| && b < |q| && Side(h, q[a]) < 0.0 < Side(h, q[b])
    ensures Halved(Emitted(h, Round(q)), q, h) && |Emitted(h, Round(q))| >= 3
  {
    hide Side, Convex, Halved, Emitted, Round;
    if b == 0 {
      StartsOutside(q, h, a);
    } else {
      var r := q[b..] + q[..b];
      assert q == q[..b] + q[b..];
      TurnedConvex(q[..b], q[b..]);
      var k := if a < b then |q| - b + a else a - b;
      assert r[0] == q[b] && r[k] == q[a];
      StartsOutside(r, h, k);
      TurnBack(h, q, b);
    }
  }

  /** Clipping a convex polygon, or nothing, by any half-plane leaves a convex polygon, or nothing; of the points off
      the line, those inside it are those inside the polygon and in the half-plane; and its edges are on lines of the
      polygon's edges or on the half-plane's. */
  lemma ClippedHalved(q: seq<Point>, h: HalfPlane)
    requires q == [] || Convex(q)
    ensures Halved(Clipped(q, h), q, h)
  {
    if q != [] {
      hide Side, Convex, Halved, Emitted, Round;
      if forall i :: 0 <= i < |q| ==> Side(h, q[i]) <= 0.0 {
        AllInside(q, h);
      } else {
        var b :| 0 <= b < |q| && Side(h, q[b]) > 0.0;
        if a :| 0 <= a < |q| && Side(h, q[a]) < 0.0 {
          BothSides(q, h, a, b);
        } else {
          NoneInside(q, h, b);
        }
      }
    }
  }

  // ------------------------------------------------------------------ half-planes of the edges

  function EdgePlanes(q: seq<Point>): (hs: seq<HalfPlane>)
    ensures |hs| == |q|
  {
    seq(|q|, i requires 0 <= i < |q| => EdgePlane(q[i], q[After(|q|, i)]))
  }

  /** `halfplanes_of` */
  method HalfPlanesOf(q: seq<Point>) returns (hs: seq<HalfPlane>)
    ensures hs == EdgePlanes(q)
  {
    var n := |q|;
    hs := [];
    for i := 0 to n
      invariant |hs| == i && forall k :: 0 <= k < i ==> hs[k] == EdgePlanes(q)[k]
    {
      var p, r := q[i], q[(i + 1) % n];
      NextIndex(n, i);
      var a, b := r.y - p.y, -(r.x - p.x);
      hs := hs + [HalfPlane(a, b, a * p.x + b * p.y)];
    }
  }

  /** They describe the polygon: their common interior is its inside, and their lines are its edges' lines. */
  lemma EdgePlanesDescribe(q: seq<Point>, p: Point)
    requires |q| >= 3
    ensures In(EdgePlanes(q), p) <==> Within(q, p)
    ensures Off(EdgePlanes(q), p) <==> OffEdges(q, p)
  {
    hide Side, Orient, EdgePlane;
    var hs := EdgePlanes(q);
    forall i | 0 <= i < |q|
      ensures Side(hs[i], p) < 0.0 <==> LeftOf(q, i, p)
      ensures On(hs[i], p) <==> OnEdge(q, i, p)
    {
      EdgePlaneSide(q[i], q[After(|q|, i)], p);
    }
    hide LeftOf, On, OnEdge, EdgePlanes;
  }

  // ------------------------------------------------------------------ orientation

  function Cross(p: Point, q: Point): real {
    p.x * q.y - q.x * p.y
  }

  /** The first m terms of twice the area. */
  function Shoelace(q: seq<Point>, m: nat): real
    requires m <= |q|
  {
    if m == 0 then 0.0 else Shoelace(q, m - 1) + Cross(q[m - 1], q[After(|q|, m - 1)])
  }

  lemma CrossFan(a: Point, b: Point, c: Point)
    ensures Cross(b, c) + Cross(c, a) - Cross(b, a) == Orient(a, b, c)
    ensures Cross(a, b) + Cross(b, a) == 0.0
  {
  }

  /** Corners all of whose turns have this sign. */
  predicate TurnsAll(q: seq<Point>, sign: real) {
    |q| >= 3 && forall i, j, k :: 0 <= i < j < k < |q| ==> TurnHas(q, sign, i, j, k)
  }

  predicate TurnHas(q: seq<Point>, sign: real, i: nat, j: nat, k: nat)
    requires i < |q| && j < |q| && k < |q|
  {
    sign * Orient(q[i], q[j], q[k]) > 0.0
  }

  lemma {:induction false} FanArea(q: seq<Point>, sign: real, m: nat)
    requires TurnsAll(q, sign) && 1 <= m < |q|
    ensures sign * (Shoelace(q, m) + Cross(q[m], q[0])) >= 0.0
    ensures m >= 2 ==> sign * (Shoelace(q, m) + Cross(q[m], q[0])) > 0.0
    decreases m
  {
    hide Cross, Orient;
    CrossFan(q[0], q[m - 1], q[m]);
    if m == 1 {
      CrossFan(q[0], q[1], q[1]);
      assert Shoelace(q, 0) == 0.0;
    } else {
      FanArea(q, sign, m - 1);
      assert TurnHas(q, sign, 0, m - 1, m);
      FanSum(sign, Shoelace(q, m - 1) + Cross(q[m - 1], q[0]), Orient(q[0], q[m - 1], q[m]));
    }
  }

  lemma FanSum(sign: real, x: real, y: real)
    requires sign * x >= 0.0 && sign * y > 0.0
    ensures sign * (x + y) > 0.0
  {
  }

  /** The area has the turns' sign. */
  lemma AreaSign(q: seq<Point>, sign: real)
    requires TurnsAll(q, sign)
    ensures sign * Shoelace(q, |q|) > 0.0
  {
    FanArea(q, sign, |q| - 1);
  }

  function Backwards(q: seq<Point>): (r: seq<Point>)
    ensures |r| == |q|
  {
    seq(|q|, i requires 0 <= i < |q| => q[|q| - 1 - i])
  }

  lemma ConvexTurns(q: seq<Point>)
    requires Convex(q)
    ensures TurnsAll(q, 1.0)
  {
    hide Orient;
    forall i, j, k | 0 <= i < j < k < |q|
      ensures TurnHas(q, 1.0, i, j, k)
    {
      assert LeftTurn(q, i, j, k);
    }
  }

  lemma BackwardsTurns(q: seq<Point>)
    requires Convex(Backwards(q))
    ensures TurnsAll(q, -1.0)
  {
    hide Orient;
    var r, n := Backwards(q), |q|;
    forall i, j, k | 0 <= i < j < k < n
      ensures TurnHas(q, -1.0, i, j, k)
    {
      assert LeftTurn(r, n - 1 - k, n - 1 - j, n - 1 - i);
      OrientCycles(q[k], q[j], q[i]);
      OrientSwaps(q[i], q[k], q[j]);
      OrientCycles(q[i], q[j], q[k]);
      OrientCycles(q[k], q[i], q[j]);
    }
  }

  /** No corner is repeated. */
  lemma CornersDiffer(q: seq<Point>, sign: real, i: nat, j: nat)
    requires TurnsAll(q, sign) && i < j < |q|
    ensures q[i] != q[j]
  {
    if j + 1 < |q| {
      assert TurnHas(q, sign, i, j, j + 1);
      TurnDiffers(q[i], q[j], q[j + 1], sign);
    } else if i > 0 {
      assert TurnHas(q, sign, 0, i, j);
      TurnDiffers(q[0], q[i], q[j], sign);
    } else {
      assert TurnHas(q, sign, 0, 1, j);
      TurnDiffers(q[0], q[1], q[j], sign);
    }
  }

  lemma TurnDiffers(a: Point, b: Point, c: Point, sign: real)
    requires sign * Orient(a, b, c) > 0.0
    ensures a != b && b != c && a != c
  {
    OrientSame(a, b);
    OrientSame(a, c);
  }

  /** The corners without one that repeats the one before it. */
  function Deduped(q: seq<Point>): seq<Point> {
    if q == [] then []
    else
      var d, p := Deduped(q[..|q| - 1]), q[|q| - 1];
      if d == [] || p != d[|d| - 1] then d + [p] else d
  }

  /** And without last ones that repeat the first. */
  function Popped(q: seq<Point>): seq<Point>
    decreases |q|
  {
    if |q| > 1 && q[0] == q[|q| - 1] then Popped(q[..|q| - 1]) else q
  }

  function CounterClockwise(q: seq<Point>): seq<Point> {
    var d := Popped(Deduped(q));
    if |d| < 3 then [] else if Shoelace(d, |d|) < 0.0 then Backwards(d) else d
  }

  /** Twice the area, as `poly_moments` sums it. */
  method Area2(q: seq<Point>) returns (a: real)
    ensures a == Shoelace(q, |q|)
  {
    a := 0.0;
    var n := |q|;
    for i := 0 to n
      invariant a == Shoelace(q, i)
    {
      NextIndex(n, i);
      var p, r := q[i], q[(i + 1) % n];
      a := a + (p.x * r.y - r.x * p.y);
    }
  }

  /** `ccw`, with corners that coincide where the source asks for nearer than its tolerance. */
  method Ccw(q: seq<Point>) returns (r: seq<Point>)
    ensures r == CounterClockwise(q)
  {
    hide Shoelace;
    var out: seq<Point> := [];
    for i := 0 to |q|
      invariant out == Deduped(q[..i])
    {
      assert q[..i + 1][..i] == q[..i];
      if out == [] || q[i] != out[|out| - 1] {
        out := out + [q[i]];
      }
    }
    assert q[..|q|] == q;
    while |out| > 1 && out[0] == out[|out| - 1]
      invariant Popped(out) == Popped(Deduped(q))
    {
      out := out[..|out| - 1];
    }
    if |out| < 3 {
      return [];
    }
    var a := Area2(out);
    return if a < 0.0 then Backwards(out) else out;
  }

  lemma {:induction false} NothingDeduped(q: seq<Point>, m: nat)
    requires m <= |q| && forall i :: 0 < i < |q| ==> q[i - 1] != q[i]
    ensures Deduped(q[..m]) == q[..m]
    decreases m
  {
    if m > 0 {
      NothingDeduped(q, m - 1);
      assert q[..m][..m - 1] == q[..m - 1];
      assert q[..m] == q[..m - 1] + [q[m - 1]];
    }
  }

  lemma NothingDropped(q: seq<Point>, sign: real)
    requires TurnsAll(q, sign)
    ensures Popped(Deduped(q)) == q
  {
    hide TurnsAll, Deduped;
    TurnsThree(q, sign);
    forall i | 0 < i < |q|
      ensures q[i - 1] != q[i]
    {
      CornersDiffer(q, sign, i - 1, i);
    }
    NothingDeduped(q, |q|);
    assert q[..|q|] == q;
    CornersDiffer(q, sign, 0, |q| - 1);
  }

  lemma TurnsThree(q: seq<Point>, sign: real)
    requires TurnsAll(q, sign)
    ensures |q| >= 3
  {
  }

  /** Convex corners stay as they are, and clockwise ones are reversed. */
  lemma CcwConvex(q: seq<Point>)
    ensures Convex(q) ==> CounterClockwise(q) == q
    ensures Convex(Backwards(q)) ==> CounterClockwise(q) == Backwards(q)
  {
    hide Convex, Shoelace, Deduped, Popped, TurnsAll;
    if Convex(q) {
      ConvexTurns(q);
      TurnsThree(q, 1.0);
      NothingDropped(q, 1.0);
      AreaSign(q, 1.0);
    }
    if Convex(Backwards(q)) {
      BackwardsTurns(q);
      TurnsThree(q, -1.0);
      NothingDropped(q, -1.0);
      AreaSign(q, -1.0);
    }
  }
}

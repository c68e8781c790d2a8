/** The two topology models: a seamed one of faces with loops of edge uses, and the seamless cell complex. */
module CellModel {
  import opened Basics
  import opened SeamRuns

  datatype SurfaceKind = Plane | Cylinder | Cone | Sphere | Torus | Spline

  /** A surface or curve by what the topology asks of it; `shape` stands for its parameters. */
  datatype Surface = Surface(kind: SurfaceKind, shape: nat)

  datatype Curve = Curve(closed: bool, shape: nat)

  datatype Vertex = Vertex(x: real, y: real, z: real)

  predicate PeriodicU(s: Surface) {
    s.kind == Cylinder || s.kind == Cone || s.kind == Sphere || s.kind == Torus
  }

  predicate PeriodicV(s: Surface) {
    s.kind == Torus
  }

  // ------------------------------------------------------------------ seamed

  datatype SEdge = SEdge(start: nat, end: nat, curve: Curve)

  datatype SFace = SFace(surface: Surface, forward: bool, loops: seq<seq<Use>>)

  datatype Kind = Solid | ClosedShell | Sheet | Wire | Acorn

  datatype Seamed = Seamed(vertices: seq<Vertex>, edges: seq<SEdge>, faces: seq<SFace>, shells: seq<seq<nat>>,
                           kind: Kind, wire: seq<nat>)

  // ------------------------------------------------------------------ seamless

  /** A ring edge has neither start nor end. */
  datatype CEdge = CEdge(start: Option<nat>, end: Option<nat>, curve: Curve, fins: seq<nat>)

  datatype Fin = Fin(edge: nat, forward: bool, pcurve: PCurve)

  datatype Loop = Loop(fins: seq<nat>, winding: int, vertex: Option<nat>, windingV: int)

  datatype CFace = CFace(surface: Surface, forward: bool, loops: seq<nat>, front: nat, back: nat)

  datatype Side = Front | Back

  datatype Shell = Shell(region: nat, sides: seq<(nat, Side)>, wireEdges: seq<nat>, acorns: seq<nat>)

  datatype RegionKind = SolidRegion | Void

  datatype Region = Region(kind: RegionKind, shells: seq<nat>)

  datatype CellData = CellData(vertices: seq<Vertex>, edges: seq<CEdge>, fins: seq<Fin>, loops: seq<Loop>,
                               faces: seq<CFace>, shells: seq<Shell>, regions: seq<Region>)

  // ------------------------------------------------------------------ counting

  function CountOf(s: seq<nat>, x: nat): nat {
    if s == [] then 0 else CountOf(s[..|s| - 1], x) + if s[|s| - 1] == x then 1 else 0
  }

  function Interval(a: nat, n: nat): (s: seq<nat>)
    ensures |s| == n && forall k :: 0 <= k < n ==> s[k] == a + k
  {
    seq(n, k requires 0 <= k < n => a + k)
  }

  lemma {:induction false} CountInterval(a: nat, n: nat, x: nat)
    ensures CountOf(Interval(a, n), x) == if a <= x < a + n then 1 else 0
  {
    if n > 0 {
      assert Interval(a, n)[..n - 1] == Interval(a, n - 1);
      CountInterval(a, n - 1, x);
    }
  }

  /** How many loops' fin lists hold a fin, with repetitions. */
  function FinCount(loops: seq<Loop>, k: nat): nat {
    if loops == [] then 0 else FinCount(loops[..|loops| - 1], k) + CountOf(loops[|loops| - 1].fins, k)
  }

  function LoopCount(faces: seq<CFace>, l: nat): nat {
    if faces == [] then 0 else LoopCount(faces[..|faces| - 1], l) + CountOf(faces[|faces| - 1].loops, l)
  }

  /** The fins of an edge, in order. */
  function FinsOn(fins: seq<Fin>, e: nat): seq<nat> {
    if fins == [] then []
    else FinsOn(fins[..|fins| - 1], e) + if fins[|fins| - 1].edge == e then [|fins| - 1] else []
  }

  lemma {:induction false} FinsOnIs(fins: seq<Fin>, e: nat, k: nat)
    ensures k in FinsOn(fins, e) <==> k < |fins| && fins[k].edge == e
  {
    if fins != [] {
      FinsOnIs(fins[..|fins| - 1], e, k);
    }
  }

  function Copies(n: nat, k: nat): (s: seq<nat>)
    ensures |s| == n && forall i :: 0 <= i < n ==> s[i] == k
  {
    seq(n, _ => k)
  }

  /** The shells that list a face's side, with repetitions, among shells s and up. */
  function Listing(shells: seq<Shell>, side: (nat, Side)): seq<nat> {
    if shells == [] then []
    else
      var k := |shells| - 1;
      Listing(shells[..k], side) + Copies(CountSides(shells[k].sides, side), k)
  }

  function CountSides(s: seq<(nat, Side)>, x: (nat, Side)): nat {
    if s == [] then 0 else CountSides(s[..|s| - 1], x) + if s[|s| - 1] == x then 1 else 0
  }
}

/** Valid models whose cells the validator rejects: the empty one, one with an edge that a face runs along and back, a
    cylinder whose lower rim meets another circle at the end of its seam, and one whose seam leads back to where it
    starts. */
module RejectedModels {
  import opened Reals
  import opened SeamRuns
  import opened CellModel
  import opened CellConversion
  import opened CellChecks
  import opened ConversionAccepted
  import opened ClosedRuns
  import opened FinPlaces
  import opened SenseCounts
  import opened Acceptance
  import opened CellEuler
  import opened AccountedModels
  import opened AcceptedModels
  import opened RadialOrder
  import opened VertexLinks

  // ------------------------------------------------------------------ short lists

  lemma Singles<T>(x: T)
    ensures [x][..0] == []
  {
  }

  lemma Pairs<T>(x: T, y: T)
    ensures [x, y][..1] == [x]
  {
  }

  lemma Threes<T>(x: T, y: T, z: T)
    ensures [x, y, z][..2] == [x, y]
  {
  }

  lemma Fours<T>(x: T, y: T, z: T, w: T)
    ensures [x, y, z, w][..3] == [x, y, z]
  {
  }

  function OneIf(u: Use, e: nat, forward: bool): nat {
    if u.edge == e && u.forward == forward then 1 else 0
  }

  lemma CountPair(u: Use, w: Use, e: nat, forward: bool)
    ensures CountSense([u], e, forward) == OneIf(u, e, forward)
    ensures CountSense([u, w], e, forward) == OneIf(u, e, forward) + OneIf(w, e, forward)
  {
    Singles(u);
    Pairs(u, w);
  }

  lemma CountFour(a: Use, b: Use, c: Use, d: Use, e: nat, forward: bool)
    ensures CountSense([a, b, c, d], e, forward)
         == OneIf(a, e, forward) + OneIf(b, e, forward) + OneIf(c, e, forward) + OneIf(d, e, forward)
  {
    CountPair(a, b, e, forward);
    Threes(a, b, c);
    Fours(a, b, c, d);
  }

  lemma CountInPair(u: Use, w: Use, e: nat)
    ensures Count([u], e) == if u.edge == e then 1 else 0
    ensures Count([u, w], e) == (if u.edge == e then 1 else 0) + if w.edge == e then 1 else 0
  {
    Singles(u);
    Pairs(u, w);
    assert Where([u], e) == Where([], e) + if u.edge == e then [0] else [];
    assert Where([u, w], e) == Where([u], e) + if w.edge == e then [1] else [];
  }

  lemma CountInFour(a: Use, b: Use, c: Use, d: Use, e: nat)
    ensures Count([a, b, c, d], e)
         == (if a.edge == e then 1 else 0) + (if b.edge == e then 1 else 0) + (if c.edge == e then 1 else 0)
            + if d.edge == e then 1 else 0
  {
    CountInPair(a, b, e);
    Threes(a, b, c);
    Fours(a, b, c, d);
    assert Where([a, b, c], e) == Where([a, b], e) + if c.edge == e then [2] else [];
    assert Where([a, b, c, d], e) == Where([a, b, c], e) + if d.edge == e then [3] else [];
  }

  lemma CountLoop(loop: seq<Use>, e: nat, forward: bool)
    ensures LoopsCount([loop], e, forward) == CountSense(loop, e, forward)
  {
    hide CountSense;
    Singles(loop);
  }

  /** A face with one loop, and what it becomes off cylinders. */
  function OneLoop(kind: SurfaceKind, loop: seq<Use>): SFace {
    SFace(Surface(kind, 0), true, [loop])
  }

  lemma OneLoopSplit(kind: SurfaceKind, loop: seq<Use>, tau: real, part: Part)
    requires tau > 0.0 && PartOf(kind == Cylinder, loop, tau, part)
    ensures FaceSplit(OneLoop(kind, loop), tau, part.runs, part.gone)
  {
    hide PartOf;
    var parts := [part];
    Singles(part);
    assert PartRuns(parts) == [] + part.runs == part.runs;
    assert PartsOf(OneLoop(kind, loop), tau, parts, 1);
    assert GoneIs(parts, part.gone) by {
      forall e
        ensures e in part.gone <==> exists j :: 0 <= j < |parts| && e in parts[j].gone
      {
        assert parts[0] == part;
      }
    }
  }

  lemma FlatSplit(loop: seq<Use>, tau: real)
    requires tau > 0.0
    ensures FaceSplit(OneLoop(Plane, loop), tau, [Run(loop, 0)], {})
  {
    hide FaceSplit, IsSeam, Consistent, AllWind, SeamList, FirstSeam;
    OneLoopSplit(Plane, loop, tau, Part([Run(loop, 0)], {}));
  }

  lemma GoodOneLoop(m: Seamed, kind: SurfaceKind, loop: seq<Use>)
    requires loop != [] && forall u :: u in loop ==> u.edge < |m.edges|
    ensures GoodFace(m, OneLoop(kind, loop))
    ensures forall u :: u in loop ==> UsedIn(OneLoop(kind, loop), u.edge)
  {
    var face := OneLoop(kind, loop);
    assert face.loops[0] == loop;
  }

  // ------------------------------------------------------------------ the empty model

  /** The empty model is valid, and its cell is rejected. */
  lemma EmptyModelRejected(tau: real)
    requires tau > 0.0
    ensures var m, plan := Seamed([], [], [], [], Solid, []), Plan([], [], {}, {}, map[], [], map[], []);
      && ValidSeamed(m) && PlanOf(m, tau, plan) && PlanFits(m, plan)
      && Raises(CellOf(m, plan), RegionWithoutShell(1))
  {
    hide *;
    var m, plan := Seamed([], [], [], [], Solid, []), Plan([], [], {}, {}, map[], [], map[], []);
    EmptyPlan(tau);
    ConversionIsAccepted(m, tau, plan, RegionWithoutShell(1));
    ExceptionalNamed(m, plan, RegionWithoutShell(1));
  }

  lemma EmptyPlan(tau: real)
    requires tau > 0.0
    ensures var m, plan := Seamed([], [], [], [], Solid, []), Plan([], [], {}, {}, map[], [], map[], []);
      ValidSeamed(m) && PlanOf(m, tau, plan) && PlanFits(m, plan)
  {
    hide FaceSplit, InRuns;
  }

  // ------------------------------------------------------------------ along an edge and back

  function Along(forward: bool): Use {
    var p, q := Point(0.0, 0.0), Point(1.0, 0.0);
    Use(0, forward, if forward then Line2(p, q) else Line2(q, p))
  }

  function ThereAndBack(): seq<Use> {
    [Along(true), Along(false)]
  }

  /** One plane face whose one loop runs along an edge and back. */
  function Folded(): Seamed {
    Seamed([Vertex(0.0, 0.0, 0.0), Vertex(1.0, 0.0, 0.0)], [SEdge(0, 1, Curve(false, 0))],
           [OneLoop(Plane, ThereAndBack())], [[0]], Solid, [])
  }

  function FoldedPlan(): Plan {
    Plan([[Run(ThereAndBack(), 0)]], [{}], {}, {}, map[0 := 0], [0], map[0 := 0, 1 := 1], [0, 1])
  }

  lemma FoldedValid()
    ensures ValidSeamed(Folded()) && ClosedLoops(Folded())
  {
    var m := Folded();
    GoodOneLoop(m, Plane, ThereAndBack());
    assert Along(true) in ThereAndBack();
    assert UsedIn(m.faces[0], 0);
    assert EdgeInUse(m, 0);
    assert VertexInUse(m, 0) && VertexInUse(m, 1) by {
      assert m.edges[0].start == 0 && m.edges[0].end == 1;
    }
    OneOwner(0);
    hide GoodFace, UsedIn, OneLoop, Owners;
    assert ThereAndBack()[0] == Along(true) && ThereAndBack()[1] == Along(false);
  }

  lemma OneOwner(f: nat)
    requires f == 0
    ensures |Owners([[0]], f)| == 1
  {
    Singles([0]);
    Singles(0);
    assert CountOf([0], 0) == 1;
  }

  lemma FoldedAccounted()
    ensures Accounted(Folded()) && BothWays(Folded().faces[0], 0)
  {
    var m := Folded();
    Singles(m.faces[0]);
    forall forward: bool
      ensures ModelCount(m.faces, 0, forward) == 1 && LoopsCount(m.faces[0].loops, 0, forward) == 1
    {
      CountPair(Along(true), Along(false), 0, forward);
      CountLoop(ThereAndBack(), 0, forward);
    }
    hide ModelCount, LoopsCount, UsedIn, Owner;
  }

  lemma FoldedPlanned(tau: real)
    requires tau > 0.0
    ensures PlanOf(Folded(), tau, FoldedPlan()) && PlanFits(Folded(), FoldedPlan())
  {
    FlatSplit(ThereAndBack(), tau);
    hide FaceSplit, InRuns, OneLoop, ThereAndBack;
    var m, plan := Folded(), FoldedPlan();
    assert FacesSplit(m, tau, plan.runs, plan.gone);
    assert RemovedIs(plan.runs, plan.gone, plan.removed);
    assert DropIs(m.edges, plan.removed, plan.drop);
    assert Renumbered(1, {}, map[0 := 0], [0]);
    assert Renumbered(2, {}, map[0 := 0, 1 := 1], [0, 1]);
  }

  /** It is valid, its loop closes and its edge is accounted for; its cell has a seam edge. */
  lemma FoldedRejected(tau: real)
    requires tau > 0.0
    ensures ValidSeamed(Folded()) && ClosedLoops(Folded()) && Accounted(Folded())
    ensures PlanOf(Folded(), tau, FoldedPlan()) && Raises(CellOf(Folded(), FoldedPlan()), SeamEdge(0))
  {
    var m, plan := Folded(), FoldedPlan();
    assert m.kind == Solid && plan.keptEdges == [0] && |m.faces| == 1;
    hide *;
    FoldedValid();
    FoldedAccounted();
    FoldedPlanned(tau);
    SoundFrom(m, tau, plan);
    ConversionIsAccepted(m, tau, plan, SeamEdge(0));
    AccountedExceptional(m, tau, plan, SeamEdge(0));
    RemainingSeam(m, plan, 0, 0);
  }

  lemma SoundFrom(m: Seamed, tau: real, plan: Plan)
    requires tau > 0.0 && PlanOf(m, tau, plan) && PlanFits(m, plan) && ValidSeamed(m) && Accounted(m)
    ensures Sound(m, tau, plan)
  {
    hide PlanOf, PlanFits, ValidSeamed, Accounted;
  }

  lemma RemainingSeam(m: Seamed, plan: Plan, i: nat, f: nat)
    requires i < |plan.keptEdges| && f < |m.faces| && BothWays(m.faces[f], plan.keptEdges[i])
    ensures Remaining(m, plan, SeamEdge(i))
  {
    hide BothWays;
  }

  // ------------------------------------------------------------------ a second circle through the seam's end

  /** The uses: rims 0 below and 1 above, seam 2, and circle 3 that touches the lower rim at the seam's end. */
  function Rim(e: nat, forward: bool, tau: real, height: real): Use {
    var p, q := Point(0.0, height), Point(tau, height);
    Use(e, forward, if forward then Line2(p, q) else Line2(q, p))
  }

  function Up(tau: real): Use {
    Use(2, true, Line2(Point(tau, 0.0), Point(tau, 1.0)))
  }

  function Down(): Use {
    Use(2, false, Line2(Point(0.0, 1.0), Point(0.0, 0.0)))
  }

  function Circle(e: nat, forward: bool, radius: real): Use {
    Use(e, forward, Arc2(Point(radius, 0.0), Point(radius, 0.0)))
  }

  function Side(tau: real): seq<Use> {
    [Rim(0, true, tau, 0.0), Up(tau), Rim(1, false, tau, 1.0), Down()]
  }

  function Crescent(): seq<Use> {
    [Circle(0, false, 1.0), Circle(3, true, 0.5)]
  }

  /** A cylinder between two planes; the lower plane is two faces, a crescent and the disc within it. */
  function Touching(tau: real): Seamed {
    var ring := Curve(true, 0);
    Seamed([Vertex(1.0, 0.0, 0.0), Vertex(1.0, 0.0, 1.0)],
           [SEdge(0, 0, ring), SEdge(1, 1, ring), SEdge(0, 1, Curve(false, 0)), SEdge(0, 0, ring)],
           [OneLoop(Cylinder, Side(tau)), OneLoop(Plane, [Circle(1, true, 1.0)]), OneLoop(Plane, Crescent()),
            OneLoop(Plane, [Circle(3, false, 0.5)])],
           [[0, 1, 2, 3]], Solid, [])
  }

  function SideRuns(tau: real): seq<Run> {
    [Run([Rim(1, false, tau, 1.0)], -1), Run([Rim(0, true, tau, 0.0)], 1)]
  }

  function TouchingPlan(tau: real): Plan {
    Plan([SideRuns(tau), [Run([Circle(1, true, 1.0)], 0)], [Run(Crescent(), 0)], [Run([Circle(3, false, 0.5)], 0)]],
         [{2}, {}, {}, {}], {2}, {0, 1}, map[0 := 0, 1 := 1, 3 := 2], [0, 1, 3], map[], [])
  }

  // the cylinder's loop merges

  /** A loop of a cylinder with one seam, first used at a, merges into these runs. */
  lemma OneSeamMerges(loop: seq<Use>, tau: real, x: nat, a: nat, uses: seq<seq<Use>>, runs: seq<Run>)
    requires tau > 0.0 && (forall e :: IsSeam(loop, e) <==> e == x) && Consistent(loop, x, tau)
    requires 0 < a < |loop| && loop[a].edge == x && forall k :: 0 <= k < a ==> loop[k].edge != x
    requires forall seams: seq<nat> :: (forall e :: e in seams <==> e == x) ==> RunsOf(Rotated(loop, a), seams) == uses
    requires AllWind(uses, tau) && RunsAre(runs, uses, tau)
    ensures PartOf(true, loop, tau, Part(runs, {x}))
  {
    hide IsSeam, Consistent, AllWind, RunsOf, Rotated, RunsAre;
    assert !IsSeam(loop, loop[0].edge);
    forall seams, first | SeamList(loop, seams) && FirstSeam(loop, seams, first)
      ensures AllWind(RunsOf(Rotated(loop, first), seams), tau)
    {
      assert first == a;
    }
    assert SeamList(loop, [x]) && FirstSeam(loop, [x], a);
    assert MergeOf(loop, tau, Merged([x], runs));
    assert (set e | e in [x]) == {x};
  }

  lemma SideSeam(tau: real, e: nat)
    ensures IsSeam(Side(tau), e) <==> e == 2
  {
    CountInFour(Rim(0, true, tau, 0.0), Up(tau), Rim(1, false, tau, 1.0), Down(), e);
  }

  lemma SideConsistent(tau: real)
    requires tau > 0.0
    ensures Consistent(Side(tau), 2, tau)
  {
    assert PairAt(Side(tau), 2, tau, 1, 3);
  }

  lemma SideUses(tau: real, seams: seq<nat>)
    requires forall e :: e in seams <==> e == 2
    ensures RunsOf(Rotated(Side(tau), 1), seams) == [[Rim(1, false, tau, 1.0)], [Rim(0, true, tau, 0.0)]]
  {
    var x, y := [Rim(1, false, tau, 1.0)], [Rim(0, true, tau, 0.0)];
    SplitTwo(x, Down(), y, Up(tau), seams);
    assert Rotated(Side(tau), 1) == x + [Down()] + y + [Up(tau)];
  }

  lemma SideWinds(tau: real)
    requires tau > 0.0
    ensures AllWind([[Rim(1, false, tau, 1.0)], [Rim(0, true, tau, 0.0)]], tau)
    ensures RunsAre(SideRuns(tau), [[Rim(1, false, tau, 1.0)], [Rim(0, true, tau, 0.0)]], tau)
  {
    OneTurn(tau);
    var down, up := [Rim(1, false, tau, 1.0)], [Rim(0, true, tau, 0.0)];
    assert Turn(down) / tau == -1.0 && Turn(up) / tau == 1.0;
    hide Rim, Turn;
    assert Winds(down, tau) && Winds(up, tau);
    hide Winds;
  }

  lemma OneTurn(tau: real)
    requires tau > 0.0
    ensures (0.0 - tau) / tau == -1.0 && (tau - 0.0) / tau == 1.0
    ensures (-1.0).Floor == -1 && (1.0).Floor == 1
  {
  }

  lemma SideMerges(tau: real)
    requires tau > 0.0
    ensures PartOf(true, Side(tau), tau, Part(SideRuns(tau), {2}))
  {
    var loop, uses := Side(tau), [[Rim(1, false, tau, 1.0)], [Rim(0, true, tau, 0.0)]];
    assert |loop| == 4 && loop[0].edge == 0 && loop[1].edge == 2;
    hide *;
    forall e
      ensures IsSeam(loop, e) <==> e == 2
    {
      SideSeam(tau, e);
    }
    SideConsistent(tau);
    SideWinds(tau);
    forall seams: seq<nat> | forall e :: e in seams <==> e == 2
      ensures RunsOf(Rotated(loop, 1), seams) == uses
    {
      SideUses(tau, seams);
    }
    OneSeamMerges(loop, tau, 2, 1, uses, SideRuns(tau));
  }

  // the plan

  lemma TouchingSplit(tau: real)
    requires tau > 0.0
    ensures FacesSplit(Touching(tau), tau, TouchingPlan(tau).runs, TouchingPlan(tau).gone)
  {
    hide PartOf, FaceSplit, Side, SideRuns, Crescent, Circle;
    SideMerges(tau);
    OneLoopSplit(Cylinder, Side(tau), tau, Part(SideRuns(tau), {2}));
    FlatSplit([Circle(1, true, 1.0)], tau);
    FlatSplit(Crescent(), tau);
    FlatSplit([Circle(3, false, 0.5)], tau);
  }

  lemma TouchingRemoved(tau: real)
    ensures RemovedIs(TouchingPlan(tau).runs, TouchingPlan(tau).gone, {2})
  {
    var plan := TouchingPlan(tau);
    forall u, f | 0 <= f < 4 && InRuns(plan.runs[f], u)
      ensures u.edge != 2
    {
    }
    assert 2 in plan.gone[0];
    hide InRuns;
    forall e
      ensures GoneFrom(plan.gone, e) <==> e == 2
    {
    }
  }

  lemma TouchingDropped(tau: real)
    ensures DropIs(Touching(tau).edges, {2}, {0, 1})
  {
    var edges := Touching(tau).edges;
    assert edges[2].start == 0 && edges[2].end == 1;
  }

  lemma TouchingPlanned(tau: real)
    requires tau > 0.0
    ensures PlanOf(Touching(tau), tau, TouchingPlan(tau)) && PlanFits(Touching(tau), TouchingPlan(tau))
  {
    hide FacesSplit, RemovedIs, DropIs, Renumbered, SideRuns, Side, Crescent, Circle;
    TouchingSplit(tau);
    TouchingRemoved(tau);
    TouchingDropped(tau);
    TouchingNumbers();
  }

  lemma TouchingNumbers()
    ensures Renumbered(4, {2}, map[0 := 0, 1 := 1, 3 := 2], [0, 1, 3])
    ensures Renumbered(2, {0, 1}, map[], [])
  {
  }

  // validity

  lemma TouchingLoops(tau: real)
    ensures var m := Touching(tau);
      && |m.faces| == 4 && |m.edges| == 4 && m.faces[0] == OneLoop(Cylinder, Side(tau))
      && m.faces[1] == OneLoop(Plane, [Circle(1, true, 1.0)]) && m.faces[2] == OneLoop(Plane, Crescent())
      && m.faces[3] == OneLoop(Plane, [Circle(3, false, 0.5)])
    ensures forall u :: u in Side(tau) || u in Crescent() ==> u.edge < 4
  {
    hide OneLoop;
  }

  lemma TouchingFaces(tau: real)
    ensures |Touching(tau).faces| == 4 && forall f :: 0 <= f < 4 ==> GoodFace(Touching(tau), Touching(tau).faces[f])
    ensures UsedIn(Touching(tau).faces[0], 0) && UsedIn(Touching(tau).faces[0], 1) && UsedIn(Touching(tau).faces[0], 2)
    ensures UsedIn(Touching(tau).faces[3], 3)
  {
    hide Touching, GoodFace, UsedIn, OneLoop;
    var m, side, disc := Touching(tau), Side(tau), [Circle(3, false, 0.5)];
    TouchingLoops(tau);
    assert side[0] in side && side[1] in side && side[2] in side && disc[0] in disc;
    GoodOneLoop(m, Cylinder, side);
    GoodOneLoop(m, Plane, [Circle(1, true, 1.0)]);
    GoodOneLoop(m, Plane, Crescent());
    GoodOneLoop(m, Plane, disc);
  }

  lemma FourOwned(f: nat)
    requires f < 4
    ensures |Owners([[0, 1, 2, 3]], f)| == 1
  {
    Singles([0, 1, 2, 3]);
    Singles(0);
    Pairs(0, 1);
    Threes(0, 1, 2);
    Fours(0, 1, 2, 3);
    assert CountOf([0], f) == if f == 0 then 1 else 0;
    assert CountOf([0, 1], f) == if f <= 1 then 1 else 0;
    assert CountOf([0, 1, 2], f) == if f <= 2 then 1 else 0;
    assert CountOf([0, 1, 2, 3], f) == 1;
  }

  lemma TouchingInUse(tau: real)
    ensures var m := Touching(tau);
      && VertexInUse(m, 0) && VertexInUse(m, 1) && EdgeInUse(m, 0) && EdgeInUse(m, 1) && EdgeInUse(m, 2)
      && EdgeInUse(m, 3)
  {
    var m := Touching(tau);
    TouchingFaces(tau);
    assert m.edges[0].start == 0 && m.edges[1].start == 1;
    hide GoodFace, UsedIn, OneLoop, Side, Crescent, Circle;
  }

  lemma TouchingShape(tau: real)
    ensures var m := Touching(tau);
      && |m.vertices| == 2 && |m.edges| == 4 && |m.faces| == 4 && m.shells == [[0, 1, 2, 3]]
      && forall e :: 0 <= e < 4 ==> m.edges[e].start < 2 && m.edges[e].end < 2
  {
    hide OneLoop, Side, Crescent, Circle;
  }

  lemma TouchingValid(tau: real)
    ensures ValidSeamed(Touching(tau))
  {
    hide Touching, GoodFace, UsedIn, VertexInUse, EdgeInUse, Owners;
    TouchingShape(tau);
    TouchingFaces(tau);
    TouchingInUse(tau);
    forall f: nat | f < 4
      ensures |Owners(Touching(tau).shells, f)| == 1
    {
      FourOwned(f);
    }
  }

  lemma TouchingCloses(tau: real)
    ensures ClosedLoops(Touching(tau))
  {
    var m := Touching(tau);
    assert Closed(m, Side(tau));
    assert Closed(m, [Circle(1, true, 1.0)]);
    assert Closed(m, Crescent());
    assert Closed(m, [Circle(3, false, 0.5)]);
    hide Closed, Side, Crescent, Circle;
  }

  lemma {:induction false} CountFaces(faces: seq<SFace>, e: nat, forward: bool)
    requires |faces| == 4
    ensures ModelCount(faces, e, forward)
         == LoopsCount(faces[0].loops, e, forward) + LoopsCount(faces[1].loops, e, forward)
            + LoopsCount(faces[2].loops, e, forward) + LoopsCount(faces[3].loops, e, forward)
  {
    hide LoopsCount;
    var a, b, c, d := faces[0], faces[1], faces[2], faces[3];
    assert faces == [a, b, c, d];
    Singles(a);
    Pairs(a, b);
    Threes(a, b, c);
    Fours(a, b, c, d);
    assert ModelCount([a], e, forward) == LoopsCount(a.loops, e, forward);
    assert ModelCount([a, b], e, forward) == LoopsCount(a.loops, e, forward) + LoopsCount(b.loops, e, forward);
  }

  lemma TouchingCounts(tau: real, e: nat, forward: bool)
    ensures var faces := Touching(tau).faces;
      && LoopsCount(faces[0].loops, e, forward) ==
           (if (e == 0 && forward) || (e == 1 && !forward) || e == 2 then 1 else 0)
      && LoopsCount(faces[1].loops, e, forward) == (if e == 1 && forward then 1 else 0)
      && LoopsCount(faces[2].loops, e, forward) == (if (e == 0 && !forward) || (e == 3 && forward) then 1 else 0)
      && LoopsCount(faces[3].loops, e, forward) == (if e == 3 && !forward then 1 else 0)
  {
    var top, disc := Circle(1, true, 1.0), Circle(3, false, 0.5);
    CountLoop(Side(tau), e, forward);
    CountLoop([top], e, forward);
    CountLoop(Crescent(), e, forward);
    CountLoop([disc], e, forward);
    CountFour(Rim(0, true, tau, 0.0), Up(tau), Rim(1, false, tau, 1.0), Down(), e, forward);
    CountPair(top, top, e, forward);
    CountPair(Circle(0, false, 1.0), Circle(3, true, 0.5), e, forward);
    CountPair(disc, disc, e, forward);
    hide CountSense, LoopsCount;
  }

  lemma TouchingAccounted(tau: real)
    ensures Accounted(Touching(tau))
  {
    var m := Touching(tau);
    forall e, forward | 0 <= e < 4
      ensures ModelCount(m.faces, e, forward) == 1
    {
      CountFaces(m.faces, e, forward);
      TouchingCounts(tau, e, forward);
    }
    hide ModelCount, UsedIn, OneLoop, Side, Crescent, Circle;
    assert forall f :: 0 <= f < 4 ==> Owner(m.shells, f) == 0;
  }

  lemma TouchingStaysOpen(tau: real)
    ensures StaysOpen(Touching(tau), TouchingPlan(tau), TouchingPlan(tau).runs[2][0].uses)
  {
    var m, plan := Touching(tau), TouchingPlan(tau);
    var uses := plan.runs[2][0].uses;
    assert BecomesRing(m, plan, uses[0].edge);
    assert UseBreaks(m, plan, uses, 0);
  }

  /** It is valid, its loops close and its edges are accounted for; its cell has an open loop. */
  lemma TouchingRejected(tau: real)
    requires tau > 0.0
    ensures ValidSeamed(Touching(tau)) && ClosedLoops(Touching(tau)) && Accounted(Touching(tau))
    ensures PlanOf(Touching(tau), tau, TouchingPlan(tau))
    ensures Raises(CellOf(Touching(tau), TouchingPlan(tau)), OpenLoop(2, 0))
  {
    var m, plan := Touching(tau), TouchingPlan(tau);
    assert m.kind == Solid && |plan.runs| == 4 && |plan.runs[2]| == 1;
    hide *;
    TouchingValid(tau);
    TouchingCloses(tau);
    TouchingAccounted(tau);
    TouchingPlanned(tau);
    TouchingStaysOpen(tau);
    ConversionIsAccepted(m, tau, plan, OpenLoop(2, 0));
    OpenFrom(m, plan, 2, 0);
  }

  lemma OpenFrom(m: Seamed, plan: Plan, f: nat, j: nat)
    requires f < |plan.runs| && j < |plan.runs[f]| && StaysOpen(m, plan, plan.runs[f][j].uses)
    ensures Exceptional(m, plan, OpenLoop(f, j))
  {
    hide StaysOpen;
  }

  // ------------------------------------------------------------------ a seam from a vertex to itself

  /** Edges 0 and 1 go round below, from the neck and back to it; 2 is the seam; ring 3 goes round above. */
  function Below(tau: real): seq<Use> {
    var half := tau / 2.0;
    [Use(0, true, Line2(Point(0.0, 0.0), Point(half, 0.0))), Use(1, true, Line2(Point(half, 0.0), Point(tau, 0.0)))]
  }

  function Neck(tau: real): seq<Use> {
    Below(tau) + [Up(tau), Rim(3, false, tau, 1.0), Down()]
  }

  function Lower(): seq<Use> {
    [Circle(1, false, 1.0), Circle(0, false, 1.0)]
  }

  /** Both rims of the cylinder meet in one vertex. */
  function Necked(tau: real): Seamed {
    var line, ring := Curve(false, 0), Curve(true, 0);
    Seamed([Vertex(1.0, 0.0, 0.0), Vertex(-1.0, 0.0, 0.0)],
           [SEdge(0, 1, line), SEdge(1, 0, line), SEdge(0, 0, line), SEdge(0, 0, ring)],
           [OneLoop(Cylinder, Neck(tau)), OneLoop(Plane, [Circle(3, true, 1.0)]), OneLoop(Plane, Lower())],
           [[0, 1, 2]], Solid, [])
  }

  function NeckRuns(tau: real): seq<Run> {
    [Run([Rim(3, false, tau, 1.0)], -1), Run(Below(tau), 1)]
  }

  function NeckedPlan(tau: real): Plan {
    Plan([NeckRuns(tau), [Run([Circle(3, true, 1.0)], 0)], [Run(Lower(), 0)]], [{2}, {}, {}], {2}, {},
         map[0 := 0, 1 := 1, 3 := 2], [0, 1, 3], map[0 := 0, 1 := 1], [0, 1])
  }

  // its loop merges

  lemma NeckSeam(tau: real, e: nat)
    ensures IsSeam(Neck(tau), e) <==> e == 2
  {
    var p, q := Below(tau)[0], Below(tau)[1];
    CountInFour(p, q, Up(tau), Rim(3, false, tau, 1.0), e);
    var four := [p, q, Up(tau), Rim(3, false, tau, 1.0)];
    assert Neck(tau) == four + [Down()];
    assert (four + [Down()])[..4] == four;
    assert Where(four + [Down()], e) == Where(four, e) + if 2 == e then [4] else [];
  }

  lemma NeckConsistent(tau: real)
    requires tau > 0.0
    ensures Consistent(Neck(tau), 2, tau)
  {
    var loop := Neck(tau);
    assert loop == [Below(tau)[0], Below(tau)[1], Up(tau), Rim(3, false, tau, 1.0), Down()];
    assert PairAt(loop, 2, tau, 2, 4);
  }

  lemma NeckUses(tau: real, seams: seq<nat>)
    requires forall e :: e in seams <==> e == 2
    ensures RunsOf(Rotated(Neck(tau), 2), seams) == [[Rim(3, false, tau, 1.0)], Below(tau)]
  {
    var x, y := [Rim(3, false, tau, 1.0)], Below(tau);
    SplitTwo(x, Down(), y, Up(tau), seams);
    assert Rotated(Neck(tau), 2) == x + [Down()] + y + [Up(tau)];
  }

  lemma NeckWinds(tau: real)
    requires tau > 0.0
    ensures AllWind([[Rim(3, false, tau, 1.0)], Below(tau)], tau)
    ensures RunsAre(NeckRuns(tau), [[Rim(3, false, tau, 1.0)], Below(tau)], tau)
  {
    OneTurn(tau);
    var down, up := [Rim(3, false, tau, 1.0)], Below(tau);
    assert Turn(down) / tau == -1.0 && Turn(up) / tau == 1.0;
    hide Rim, Turn;
    assert Winds(down, tau) && Winds(up, tau);
    hide Winds;
  }

  lemma NeckEdges(tau: real)
    ensures var loop := Neck(tau);
      && |loop| == 5 && loop[0].edge == 0 && loop[1].edge == 1 && loop[2].edge == 2
      && loop[3].edge == 3 && loop[4].edge == 2
  {
  }

  lemma NeckMerges(tau: real)
    requires tau > 0.0
    ensures PartOf(true, Neck(tau), tau, Part(NeckRuns(tau), {2}))
  {
    var loop, uses := Neck(tau), [[Rim(3, false, tau, 1.0)], Below(tau)];
    hide *;
    NeckEdges(tau);
    forall e
      ensures IsSeam(loop, e) <==> e == 2
    {
      NeckSeam(tau, e);
    }
    NeckConsistent(tau);
    NeckWinds(tau);
    forall seams: seq<nat> | forall e :: e in seams <==> e == 2
      ensures RunsOf(Rotated(loop, 2), seams) == uses
    {
      NeckUses(tau, seams);
    }
    OneSeamMerges(loop, tau, 2, 2, uses, NeckRuns(tau));
  }

  // its plan

  lemma NeckedSplit(tau: real)
    requires tau > 0.0
    ensures FacesSplit(Necked(tau), tau, NeckedPlan(tau).runs, NeckedPlan(tau).gone)
  {
    hide PartOf, FaceSplit, Neck, NeckRuns, Lower, Circle;
    NeckMerges(tau);
    OneLoopSplit(Cylinder, Neck(tau), tau, Part(NeckRuns(tau), {2}));
    FlatSplit([Circle(3, true, 1.0)], tau);
    FlatSplit(Lower(), tau);
  }

  lemma NeckedRemoved(tau: real)
    ensures RemovedIs(NeckedPlan(tau).runs, NeckedPlan(tau).gone, {2})
  {
    var plan := NeckedPlan(tau);
    forall u, f | 0 <= f < 3 && InRuns(plan.runs[f], u)
      ensures u.edge != 2
    {
    }
    assert 2 in plan.gone[0];
    hide InRuns;
    forall e
      ensures GoneFrom(plan.gone, e) <==> e == 2
    {
    }
  }

  lemma NeckedDropped(tau: real)
    ensures DropIs(Necked(tau).edges, {2}, {})
  {
    var edges := Necked(tau).edges;
    assert !RingLike(edges[0]) && edges[0].start == 0 && edges[0].end == 1;
  }

  lemma NeckedNumbers()
    ensures Renumbered(4, {2}, map[0 := 0, 1 := 1, 3 := 2], [0, 1, 3])
    ensures Renumbered(2, {}, map[0 := 0, 1 := 1], [0, 1])
  {
  }

  lemma NeckedPlanned(tau: real)
    requires tau > 0.0
    ensures PlanOf(Necked(tau), tau, NeckedPlan(tau)) && PlanFits(Necked(tau), NeckedPlan(tau))
  {
    hide FacesSplit, RemovedIs, DropIs, Renumbered, NeckRuns, Neck, Lower, Circle;
    NeckedSplit(tau);
    NeckedRemoved(tau);
    NeckedDropped(tau);
    NeckedNumbers();
  }

  // validity

  lemma NeckedLoops(tau: real)
    ensures var m := Necked(tau);
      && |m.vertices| == 2 && |m.faces| == 3 && |m.edges| == 4 && m.shells == [[0, 1, 2]]
      && m.faces[0] == OneLoop(Cylinder, Neck(tau)) && m.faces[1] == OneLoop(Plane, [Circle(3, true, 1.0)])
      && m.faces[2] == OneLoop(Plane, Lower())
      && forall e :: 0 <= e < 4 ==> m.edges[e].start < 2 && m.edges[e].end < 2
    ensures forall u :: u in Neck(tau) || u in Lower() ==> u.edge < 4
  {
    hide OneLoop;
  }

  lemma NeckedFaces(tau: real)
    ensures |Necked(tau).faces| == 3 && forall f :: 0 <= f < 3 ==> GoodFace(Necked(tau), Necked(tau).faces[f])
    ensures forall e :: 0 <= e < 4 ==> UsedIn(Necked(tau).faces[0], e)
  {
    NeckEdges(tau);
    hide Necked, GoodFace, UsedIn, OneLoop, Neck;
    var m, loop := Necked(tau), Neck(tau);
    NeckedLoops(tau);
    assert loop[0] in loop && loop[1] in loop && loop[2] in loop && loop[3] in loop;
    GoodOneLoop(m, Cylinder, loop);
    GoodOneLoop(m, Plane, [Circle(3, true, 1.0)]);
    GoodOneLoop(m, Plane, Lower());
  }

  lemma ThreeOwned(f: nat)
    requires f < 3
    ensures |Owners([[0, 1, 2]], f)| == 1
  {
    Singles([0, 1, 2]);
    Singles(0);
    Pairs(0, 1);
    Threes(0, 1, 2);
    assert CountOf([0], f) == if f == 0 then 1 else 0;
    assert CountOf([0, 1], f) == if f <= 1 then 1 else 0;
    assert CountOf([0, 1, 2], f) == 1;
  }

  lemma NeckedInUse(tau: real)
    ensures var m := Necked(tau);
      && VertexInUse(m, 0) && VertexInUse(m, 1) && forall e :: 0 <= e < 4 ==> EdgeInUse(m, e)
  {
    var m := Necked(tau);
    assert m.edges[0].start == 0 && m.edges[0].end == 1;
    hide Necked, UsedIn;
    NeckedLoops(tau);
    NeckedFaces(tau);
    forall e | 0 <= e < 4
      ensures EdgeInUse(m, e)
    {
      assert UsedIn(m.faces[0], e);
    }
  }

  lemma NeckedValid(tau: real)
    ensures ValidSeamed(Necked(tau))
  {
    hide Necked, GoodFace, UsedIn, VertexInUse, EdgeInUse, Owners;
    NeckedLoops(tau);
    NeckedFaces(tau);
    NeckedInUse(tau);
    forall f: nat | f < 3
      ensures |Owners(Necked(tau).shells, f)| == 1
    {
      ThreeOwned(f);
    }
  }

  lemma NeckedCloses(tau: real)
    ensures ClosedLoops(Necked(tau))
  {
    var m := Necked(tau);
    assert Closed(m, Neck(tau));
    assert Closed(m, [Circle(3, true, 1.0)]);
    assert Closed(m, Lower());
    hide Closed, Neck, Lower, Circle;
  }

  lemma NeckCounts(tau: real, e: nat, forward: bool)
    ensures CountSense(Neck(tau), e, forward) ==
      if ((e == 0 || e == 1) && forward) || e == 2 || (e == 3 && !forward) then 1 else 0
  {
    var p, q := Below(tau)[0], Below(tau)[1];
    var four := [p, q, Up(tau), Rim(3, false, tau, 1.0)];
    CountFour(p, q, Up(tau), Rim(3, false, tau, 1.0), e, forward);
    CountPair(Down(), Down(), e, forward);
    CountConcat(four, [Down()], e, forward);
    assert Neck(tau) == four + [Down()];
  }

  lemma NeckedCounts(tau: real, e: nat, forward: bool)
    requires e < 4
    ensures ModelCount(Necked(tau).faces, e, forward) == 1
  {
    var faces, top := Necked(tau).faces, Circle(3, true, 1.0);
    CountLoop(Neck(tau), e, forward);
    CountLoop([top], e, forward);
    CountLoop(Lower(), e, forward);
    NeckCounts(tau, e, forward);
    CountPair(top, top, e, forward);
    CountPair(Circle(1, false, 1.0), Circle(0, false, 1.0), e, forward);
    hide CountSense, LoopsCount, Neck, Lower, Circle;
    Singles(faces[0]);
    Pairs(faces[0], faces[1]);
    Threes(faces[0], faces[1], faces[2]);
    assert faces == [faces[0], faces[1], faces[2]];
    assert ModelCount([faces[0]], e, forward) == LoopsCount(faces[0].loops, e, forward);
    assert ModelCount([faces[0], faces[1]], e, forward) ==
      LoopsCount(faces[0].loops, e, forward) + LoopsCount(faces[1].loops, e, forward);
  }

  lemma NeckedAccounted(tau: real)
    ensures Accounted(Necked(tau))
  {
    var m := Necked(tau);
    assert forall f :: 0 <= f < 3 ==> Owner(m.shells, f) == 0;
    hide Necked, ModelCount, UsedIn, Owner;
    NeckedLoops(tau);
    forall e, forward | 0 <= e < 4
      ensures ModelCount(m.faces, e, forward) == 1
    {
      NeckedCounts(tau, e, forward);
    }
  }

  lemma NeckedSimple(tau: real)
    requires tau > 0.0
    ensures SimpleSeams(Necked(tau), tau)
  {
    var m := Necked(tau);
    NeckedLoops(tau);
    NeckSeamOnly(tau);
    hide Necked, Neck, Lower, Circle, OneSeam, IsSeam, Consistent, AllWind;
  }

  lemma NeckSeamOnly(tau: real)
    ensures OneSeam(Necked(tau), 0, 0)
  {
    var m := Necked(tau);
    forall e
      ensures IsSeam(Neck(tau), e) <==> e == 2
    {
      NeckSeam(tau, e);
    }
    forall u | u in Lower() || u in [Circle(3, true, 1.0)]
      ensures u.edge != 2
    {
    }
    hide IsSeam, Neck, Lower, Circle;
  }

  // its links at the neck

  lemma NeckNear(tau: real)
    ensures var m := Necked(tau);
      Near(m, [0, 1, 2], 0, 1, 2) && Near(m, [0, 1, 2], 0, 2, 3) && Near(m, [0, 1, 2], 0, 2, 0)
  {
    var m, loop, s := Necked(tau), Neck(tau), [0, 1, 2];
    NeckEdges(tau);
    assert m.faces[0].loops[0] == loop && s[0] == 0 && |m.faces| == 3 && |m.faces[0].loops| == 1;
    assert To(m, loop[1]) == 0 && To(m, loop[2]) == 0 && To(m, loop[4]) == 0;
    hide Necked, Neck, To, Corner, FaceCorner;
    IsCorner(m, loop, 1);
    IsCorner(m, loop, 2);
    IsCorner(m, loop, 4);
    InFace(m, 0, 0, 0, 1, 2);
    InFace(m, 0, 0, 0, 2, 3);
    InFace(m, 0, 0, 0, 2, 0);
    CornerNear(m, s, 0, 0, 1, 2);
    CornerNear(m, s, 0, 0, 2, 3);
    CornerNear(m, s, 0, 0, 2, 0);
  }

  lemma NearBelow(m: Seamed, s: seq<nat>, v: nat, d: nat, e: nat)
    requires ValidSeamed(m) && Near(m, s, v, d, e)
    ensures e < |m.edges|
  {
    var k := NearFace(m, s, v, d, e);
    var l := FaceBesideAt(m, s[k], v, d, e);
    hide Beside, Owners, VertexInUse, EdgeInUse, FaceBeside;
    BesideUsed(m, m.faces[s[k]].loops[l], v, d, e);
    assert GoodFace(m, m.faces[s[k]]);
  }

  /** In the model the neck's links hang together. */
  lemma NeckWhole(tau: real)
    ensures !Pinched(Links(Necked(tau), [0, 1, 2], 0))
  {
    hide *;
    var m, s := Necked(tau), [0, 1, 2];
    NeckNear(tau);
    NeckedValid(tau);
    NeckedLoops(tau);
    forall d, e | Near(m, s, 0, d, e)
      ensures d < 4 && Near(m, s, 0, e, d)
    {
      NearSwaps(m, s, 0, d, e);
      NearBelow(m, s, 0, e, d);
    }
    WholeFrom(m, s);
  }

  lemma WholeFrom(m: Seamed, s: seq<nat>)
    requires Near(m, s, 0, 1, 2) && Near(m, s, 0, 2, 3) && Near(m, s, 0, 2, 0)
    requires forall d, e :: Near(m, s, 0, d, e) ==> d < 4 && Near(m, s, 0, e, d)
    ensures !Pinched(Links(m, s, 0))
  {
    hide *;
    if Pinched(Links(m, s, 0)) {
      var part, d, e, a, b := PinchedNear(m, s, 0);
      SameSide(m, s, part, d, e);
      SameSide(m, s, part, a, b);
    }
  }

  lemma PinchedNear(m: Seamed, s: seq<nat>, v: nat) returns (part: set<nat>, d: nat, e: nat, a: nat, b: nat)
    requires Pinched(Links(m, s, v))
    ensures forall x, y :: Near(m, s, v, x, y) ==> (x in part <==> y in part)
    ensures Near(m, s, v, d, e) && d in part && Near(m, s, v, a, b) && a !in part
  {
    hide Near, Separates;
    part :| Separates(Links(m, s, v), part);
    d, e, a, b := SeparatesAt(Links(m, s, v), part);
    forall x, y | Near(m, s, v, x, y)
      ensures x in part <==> y in part
    {
      assert Links(m, s, v)(x, y);
    }
  }

  lemma SameSide(m: Seamed, s: seq<nat>, part: set<nat>, d: nat, e: nat)
    requires Near(m, s, 0, 1, 2) && Near(m, s, 0, 2, 3) && Near(m, s, 0, 2, 0) && Near(m, s, 0, d, e) && d < 4
    requires forall x, y :: Near(m, s, 0, x, y) ==> (x in part <==> y in part)
    ensures d in part <==> 2 in part
  {
    hide Near;
  }

  /** In the cell the ring stands apart. */
  lemma RunApart(m: Seamed, runs: seq<Run>, d: nat, e: nat)
    requires forall r, k :: 0 <= r < |runs| && 0 <= k < |runs[r].uses| && To(m, runs[r].uses[k]) == 0 ==>
      (runs[r].uses[k].edge == 3 <==> runs[r].uses[Next(|runs[r].uses|, k)].edge == 3)
    requires RunBeside(m, runs, 0, d, e)
    ensures d == 3 <==> e == 3
  {
    hide To;
    var a, b := Oriented(m, runs, 0, d, e);
    var r :| 0 <= r < |runs| && Corner(m, runs[r].uses, 0, a, b);
    var k :| 0 <= k < |runs[r].uses| && CornerAt(m, runs[r].uses, 0, a, b, k);
  }

  lemma NeckApart(tau: real, f: nat, d: nat, e: nat)
    requires f < 3 && RunBeside(Necked(tau), NeckedPlan(tau).runs[f], 0, d, e)
    ensures d == 3 <==> e == 3
  {
    var m, runs := Necked(tau), NeckedPlan(tau).runs[f];
    assert |m.edges| == 4;
    forall r, k | 0 <= r < |runs| && 0 <= k < |runs[r].uses| && To(m, runs[r].uses[k]) == 0
      ensures runs[r].uses[k].edge == 3 <==> runs[r].uses[Next(|runs[r].uses|, k)].edge == 3
    {
      OneOrTwo(|runs[r].uses|, k);
    }
    RunApart(m, runs, d, e);
  }

  lemma OneOrTwo(n: nat, k: nat)
    requires k < n <= 2
    ensures n == 1 ==> Next(n, k) == 0
    ensures n == 2 ==> Next(n, k) == 1 - k
  {
  }

  lemma NeckSplit(tau: real)
    ensures Pinched(KeptLinks(Necked(tau), NeckedPlan(tau), [0, 1, 2], 0))
  {
    var m, plan, s := Necked(tau), NeckedPlan(tau), [0, 1, 2];
    NeckCorners(tau);
    assert |plan.runs| == 3;
    hide Necked, NeckedPlan, RunBeside, Separates;
    forall d, e | NearKept(m, plan, s, 0, d, e)
      ensures d in {3} <==> e in {3}
    {
      var k := NearKeptFace(m, plan, s, 0, d, e);
      NeckApart(tau, s[k], d, e);
    }
    NearKeptAt(m, plan, s, 1, 0, 3, 3);
    NearKeptAt(m, plan, s, 2, 0, 0, 1);
    hide NearKept;
    SeparatesFrom(KeptLinks(m, plan, s, 0), {3}, 3, 3, 0, 1);
  }

  lemma NeckCorners(tau: real)
    ensures |NeckedPlan(tau).runs| == 3
    ensures RunBeside(Necked(tau), NeckedPlan(tau).runs[1], 0, 3, 3)
    ensures RunBeside(Necked(tau), NeckedPlan(tau).runs[2], 0, 0, 1)
  {
    var m, plan := Necked(tau), NeckedPlan(tau);
    var ring, low := plan.runs[1][0].uses, plan.runs[2][0].uses;
    assert To(m, ring[0]) == 0 && To(m, low[1]) == 0;
    assert |ring| == 1 && |low| == 2 && ring[0].edge == 3 && low[1].edge == 0 && low[0].edge == 1;
    hide Necked, To, Corner;
    LastCorner(m, ring);
    LastCorner(m, low);
    assert Corner(m, plan.runs[1][0].uses, 0, 3, 3) && Corner(m, plan.runs[2][0].uses, 0, 0, 1);
  }

  /** It is valid, its loops close, its edges are accounted for and its seam is one of one loop; the neck is pinched in
      its cell and not in the model. */
  lemma NeckedRejected(tau: real) returns (c: CellData)
    requires tau > 0.0
    ensures Good(c, Necked(tau), tau, NeckedPlan(tau))
    ensures ClosedLoops(Necked(tau)) && Accounted(Necked(tau)) && SimpleSeams(Necked(tau), tau)
    ensures !Pinched(Links(Necked(tau), [0, 1, 2], 0)) && Pinched(CellLinks(c, [0, 1, 2], 0))
  {
    hide *;
    var m, plan := Necked(tau), NeckedPlan(tau);
    NeckedKind(tau);
    NeckedValid(tau);
    NeckedCloses(tau);
    NeckedAccounted(tau);
    NeckedSimple(tau);
    NeckedPlanned(tau);
    NeckWhole(tau);
    NeckSplit(tau);
    c := CellOf(m, plan);
    CellIsConverted(m, plan);
    GoodFrom(c, m, tau, plan);
    PinchInCell(c, m, tau, plan, [0, 1, 2], 0);
  }

  lemma NeckedKind(tau: real)
    ensures var m, plan := Necked(tau), NeckedPlan(tau);
      m.kind == Solid && 0 in plan.vertexMap && plan.vertexMap[0] == 0 && AllBelow([0, 1, 2], |m.faces|)
  {
    hide Neck, Lower, Circle, NeckRuns;
  }

  lemma PinchInCell(c: CellData, m: Seamed, tau: real, plan: Plan, s: seq<nat>, v: nat)
    requires tau > 0.0 && Good(c, m, tau, plan) && AllBelow(s, |m.faces|) && v in plan.vertexMap
    requires Pinched(KeptLinks(m, plan, s, v))
    ensures Pinched(CellLinks(c, s, plan.vertexMap[v]))
  {
    hide Good, Separates;
    var part :| Separates(KeptLinks(m, plan, s, v), part);
    SeparatesNumbers(c, m, tau, plan, s, v, part);
  }
}

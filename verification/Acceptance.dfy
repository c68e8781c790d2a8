/** What the validator says of a converted cell, issue by issue. */
module Acceptance {
  import opened Basics
  import opened Reals
  import opened SeamRuns
  import opened CellModel
  import opened CellConversion
  import opened CellChecks
  import opened RadialOrder
  import opened ConversionAccepted
  import opened ClosedRuns
  import opened FinPlaces

  // ------------------------------------------------------------------ open loops

  /** A kept edge becomes a ring: a closed curve on a dropped vertex. */
  predicate BecomesRing(m: Seamed, plan: Plan, e: nat) {
    e < |m.edges| && RingLike(m.edges[e]) && m.edges[e].start in plan.drop
  }

  /** The use is of a ring, or the next one round does not start where it ends. */
  predicate UseBreaks(m: Seamed, plan: Plan, uses: seq<Use>, k: nat)
    requires k < |uses|
  {
    BecomesRing(m, plan, uses[k].edge) || To(m, uses[k]) != From(m, uses[Next(|uses|, k)])
  }

  /** The run does not close, or has a ring among others. */
  predicate StaysOpen(m: Seamed, plan: Plan, uses: seq<Use>) {
    && uses != [] && !(|uses| == 1 && BecomesRing(m, plan, uses[0].edge))
    && exists k :: 0 <= k < |uses| && UseBreaks(m, plan, uses, k)
  }

  function Shown(plan: Plan, v: nat): Option<nat> {
    Some(Get(plan.vertexMap, v))
  }

  /** The ends of a kept use's fin. */
  lemma FinEndsAre(c: CellData, m: Seamed, tau: real, plan: Plan, f: nat, u: Use, k: nat)
    requires tau > 0.0 && Good(c, m, tau, plan) && f < |c.faces| == |plan.runs| && InRuns(plan.runs[f], u)
    requires k < |c.fins| && c.fins[k] == FinOf(u, plan.edgeMap)
    ensures u.edge < |m.edges|
    ensures if BecomesRing(m, plan, u.edge) then FinEnds(c, k) == (None, None)
      else
        && FinEnds(c, k) == (Shown(plan, From(m, u)), Shown(plan, To(m, u)))
        && From(m, u) in plan.vertexMap && To(m, u) in plan.vertexMap
  {
    hide *;
    GoodPlan(c, m, tau, plan);
    SizesOf(c, m, tau, plan);
    KeptUse(m, tau, plan, f, u);
    NumberIs(u, plan.edgeMap);
    GoodEdge(c, m, tau, plan, plan.edgeMap[u.edge]);
    KeptEdge(m, tau, plan, u.edge);
    EndsFrom(c, m, plan, u, k);
  }

  lemma NumberIs(u: Use, edgeMap: map<nat, nat>)
    requires u.edge in edgeMap
    ensures FinOf(u, edgeMap) == Fin(edgeMap[u.edge], u.forward, u.pcurve)
  {
  }

  lemma SizesOf(c: CellData, m: Seamed, tau: real, plan: Plan)
    requires tau > 0.0 && Good(c, m, tau, plan)
    ensures |c.faces| == |m.faces| == |plan.runs| && |c.edges| == |plan.keptEdges|
    ensures Renumbered(|m.vertices|, plan.drop, plan.vertexMap, plan.keptVertices)
  {
    hide FacesSplit, RemovedIs, DropIs, Renumbered, FinsOnce, LoopsOnce, PlainLoops, FinsFrom, AllShown, ShellsBuilt,
         ValidSeamed, FinsOn;
  }

  lemma EndsFrom(c: CellData, m: Seamed, plan: Plan, u: Use, k: nat)
    requires k < |c.fins| && u.edge < |m.edges| && u.edge in plan.edgeMap && plan.edgeMap[u.edge] < |c.edges|
    requires c.fins[k] == Fin(plan.edgeMap[u.edge], u.forward, u.pcurve)
    requires var e, x := m.edges[u.edge], c.edges[plan.edgeMap[u.edge]];
      if RingLike(e) && e.start in plan.drop then x.start == None && x.end == None
      else
        && e.start in plan.vertexMap && e.end in plan.vertexMap
        && x.start == Some(plan.vertexMap[e.start]) && x.end == Some(plan.vertexMap[e.end])
    ensures if BecomesRing(m, plan, u.edge) then FinEnds(c, k) == (None, None)
      else
        && FinEnds(c, k) == (Shown(plan, From(m, u)), Shown(plan, To(m, u)))
        && From(m, u) in plan.vertexMap && To(m, u) in plan.vertexMap
  {
  }

  /** The loop of a run breaks where the run does. */
  lemma BreaksIff(c: CellData, m: Seamed, tau: real, plan: Plan, f: nat, fins: seq<nat>, uses: seq<Use>, k: nat)
    requires tau > 0.0 && Good(c, m, tau, plan) && f < |c.faces| == |plan.runs| && |fins| == |uses| && k < |fins|
    requires forall j :: 0 <= j < |fins| ==>
      fins[j] < |c.fins| && c.fins[fins[j]] == FinOf(uses[j], plan.edgeMap) && InRuns(plan.runs[f], uses[j])
    ensures Breaks(c, fins, k) <==> UseBreaks(m, plan, uses, k)
  {
    hide *;
    var n := NextBelow(|fins|, k);
    FinEndsAre(c, m, tau, plan, f, uses[k], fins[k]);
    FinEndsAre(c, m, tau, plan, f, uses[n], fins[n]);
    SizesOf(c, m, tau, plan);
    BreaksFrom(c, m, plan, fins, uses, k);
  }

  lemma NextBelow(n: nat, k: nat) returns (j: nat)
    requires k < n
    ensures j == Next(n, k) < n
  {
    j := Next(n, k);
  }

  lemma BreaksFrom(c: CellData, m: Seamed, plan: Plan, fins: seq<nat>, uses: seq<Use>, k: nat)
    requires |fins| == |uses| && k < |fins| && Renumbered(|m.vertices|, plan.drop, plan.vertexMap, plan.keptVertices)
    requires forall j :: j == k || j == Next(|fins|, k) ==>
      uses[j].edge < |m.edges| &&
      if BecomesRing(m, plan, uses[j].edge) then FinEnds(c, fins[j]) == (None, None)
      else
        && FinEnds(c, fins[j]) == (Shown(plan, From(m, uses[j])), Shown(plan, To(m, uses[j])))
        && From(m, uses[j]) in plan.vertexMap && To(m, uses[j]) in plan.vertexMap
    ensures Breaks(c, fins, k) <==> UseBreaks(m, plan, uses, k)
  {
    hide FinEnds;
    var n := Next(|fins|, k);
    var here, next := uses[k], uses[n];
    if !BecomesRing(m, plan, here.edge) {
      if BecomesRing(m, plan, next.edge) {
        assert From(m, next) in plan.drop;
        assert To(m, here) !in plan.drop;
      } else if Get(plan.vertexMap, To(m, here)) == Get(plan.vertexMap, From(m, next)) {
        assert plan.keptVertices[plan.vertexMap[To(m, here)]] == To(m, here);
      }
    }
  }

  /** A loop is reported open exactly if its run stays open. */
  lemma OpenIff(c: CellData, m: Seamed, tau: real, plan: Plan, f: nat, l: Loop, run: Run)
    requires tau > 0.0 && Good(c, m, tau, plan) && f < |c.faces| == |plan.runs|
    requires RunShown(c, l, run, plan.edgeMap) && forall u :: u in run.uses ==> InRuns(plan.runs[f], u)
    ensures IsOpen(c, l) <==> StaysOpen(m, plan, run.uses)
  {
    ShownParts(c, l, run, plan.edgeMap);
    hide RunShown, Good, InRuns, FinEnds, Breaks, UseBreaks, BecomesRing, FinOf;
    var fins, uses := l.fins, run.uses;
    forall k | 0 <= k < |fins|
      ensures Breaks(c, fins, k) <==> UseBreaks(m, plan, uses, k)
    {
      BreaksIff(c, m, tau, plan, f, fins, uses, k);
    }
    if |fins| == 1 {
      FinEndsAre(c, m, tau, plan, f, uses[0], fins[0]);
    }
  }

  lemma ShownParts(c: CellData, l: Loop, run: Run, edgeMap: map<nat, nat>)
    requires RunShown(c, l, run, edgeMap)
    ensures l.vertex == None && |l.fins| == |run.uses|
    ensures forall j :: 0 <= j < |l.fins| ==> l.fins[j] < |c.fins| && c.fins[l.fins[j]] == FinOf(run.uses[j], edgeMap)
  {
  }

  lemma OpenLoopIff(c: CellData, m: Seamed, tau: real, plan: Plan, f: nat, j: nat)
    requires tau > 0.0 && Good(c, m, tau, plan) && f < |c.faces| && AllBelow(c.faces[f].loops, |c.loops|)
    ensures f < |plan.runs|
    ensures LoopIssue(c, OpenLoop(f, j), f) <==> j < |plan.runs[f]| && StaysOpen(m, plan, plan.runs[f][j].uses)
  {
    hide *;
    SizesOf(c, m, tau, plan);
    var first := GoodFaceShown(c, m, tau, plan, f);
    var runs := plan.runs[f];
    OpenNamed(c, f, j);
    LoopsAre(c, f, first, |runs|);
    if j < |runs| {
      RunShownAt(c, first, runs, plan.edgeMap, j);
      UsesInRuns(runs, j);
      OpenIff(c, m, tau, plan, f, c.loops[first + j], runs[j]);
    }
  }

  lemma OpenNamed(c: CellData, f: nat, j: nat)
    requires f < |c.faces| && AllBelow(c.faces[f].loops, |c.loops|)
    ensures forall k :: 0 <= k < |c.faces[f].loops| ==> c.faces[f].loops[k] < |c.loops|
    ensures LoopIssue(c, OpenLoop(f, j), f) <==> j < |c.faces[f].loops| && IsOpen(c, c.loops[c.faces[f].loops[j]])
  {
    hide IsOpen;
  }

  lemma LoopsAre(c: CellData, f: nat, first: nat, n: nat)
    requires f < |c.faces| && c.faces[f].loops == Interval(first, n)
    ensures |c.faces[f].loops| == n && forall j :: 0 <= j < n ==> c.faces[f].loops[j] == first + j
  {
  }

  lemma RunShownAt(c: CellData, first: nat, runs: seq<Run>, edgeMap: map<nat, nat>, j: nat)
    requires RunsShown(c, first, runs, edgeMap) && j < |runs|
    ensures first + j < |c.loops| && RunShown(c, c.loops[first + j], runs[j], edgeMap)
  {
    hide RunShown;
  }

  lemma UsesInRuns(runs: seq<Run>, j: nat)
    requires j < |runs|
    ensures forall u :: u in runs[j].uses ==> InRuns(runs, u)
  {
  }

  // ------------------------------------------------------------------ around edges

  /** The fins of kept edge i: their numbers in the order of the plan. */
  function Users(plan: Plan, i: nat): seq<nat> {
    FinsOn(PlanFins(plan.runs, plan.edgeMap), i)
  }

  /** The face of fin k. */
  function PlaceOf(plan: Plan, k: nat): nat {
    var places := Places(plan.runs, plan.edgeMap);
    if k < |places| then places[k] else 0
  }

  /** Two kept uses of the edge lie in one face: a seam that stays. */
  predicate SeamStays(plan: Plan, i: nat) {
    var on := Users(plan, i);
    exists j, k :: 0 <= j < k < |on| && PlaceOf(plan, on[j]) == PlaceOf(plan, on[k])
  }

  /** The kept uses of edge i by sense and by their faces' shells and those shells' twins. */
  function Around(m: Seamed, plan: Plan, i: nat): (r: seq<RadialFin>)
    ensures |r| == |Users(plan, i)|
  {
    var on := Users(plan, i);
    seq(|on|, j requires 0 <= j < |on| => FinAround(m, plan, on[j]))
  }

  function FinAround(m: Seamed, plan: Plan, k: nat): RadialFin {
    var fins := PlanFins(plan.runs, plan.edgeMap);
    var shell := Owner(m.shells, PlaceOf(plan, k));
    RadialFin(k < |fins| && fins[k].forward, shell, Twin(m.shells, shell))
  }

  /** What is known of a converted cell's fins. */
  ghost predicate Placed(c: CellData, m: Seamed, plan: Plan) {
    && c.fins == PlanFins(plan.runs, plan.edgeMap)
    && (forall k :: 0 <= k < |c.fins| ==> FinFace(c, k) == Some(PlaceOf(plan, k)) && PlaceOf(plan, k) < |c.faces|)
    && forall f :: 0 <= f < |c.faces| ==> Sided(c, m, f)
  }

  /** The face's sides are listed as they should be, its owner's in front and the twin's behind. */
  predicate Sided(c: CellData, m: Seamed, f: nat)
    requires f < |c.faces|
  {
    var k := Owner(m.shells, f);
    !SideBad(c, f) && c.faces[f].front == k && c.faces[f].back == Twin(m.shells, k)
  }

  lemma CellPlaced(m: Seamed, tau: real, plan: Plan)
    requires tau > 0.0 && PlanOf(m, tau, plan) && PlanFits(m, plan) && ValidSeamed(m)
    requires m.kind == Solid || m.kind == ClosedShell
    ensures Placed(CellOf(m, plan), m, plan)
  {
    hide *;
    var c := CellOf(m, plan);
    CellIsConverted(m, plan);
    GoodFrom(c, m, tau, plan);
    CellFins(m, plan);
    PlacesAre(plan);
    forall f | 0 <= f < |c.faces|
      ensures Sided(c, m, f)
    {
      var first := GoodFaceShown(c, m, tau, plan, f);
      SideBadIff(c, f);
      forall x
        ensures !SideIssue(c, x, f)
      {
        NoSideIssue(c, m, tau, plan, f, x);
      }
      SidedFrom(c, m, f);
    }
    PlacedFrom(c, m, plan);
  }

  lemma PlacedFrom(c: CellData, m: Seamed, plan: Plan)
    requires c.fins == PlanFins(plan.runs, plan.edgeMap)
    requires forall k :: 0 <= k < |c.fins| ==> FinFace(c, k) == Some(PlaceOf(plan, k)) && PlaceOf(plan, k) < |c.faces|
    requires forall f :: 0 <= f < |c.faces| ==> Sided(c, m, f)
    ensures Placed(c, m, plan)
  {
    hide Sided, FinFace, PlaceOf, PlanFins;
  }

  lemma SidedFrom(c: CellData, m: Seamed, f: nat)
    requires f < |c.faces| && !SideBad(c, f)
    requires c.faces[f].front == Owner(m.shells, f) && c.faces[f].back == Twin(m.shells, Owner(m.shells, f))
    ensures Sided(c, m, f)
  {
    hide SideBad, Owner, Twin;
  }

  lemma PlacesAre(plan: Plan)
    ensures |Places(plan.runs, plan.edgeMap)| == |PlanFins(plan.runs, plan.edgeMap)|
    ensures forall k :: 0 <= k < |Places(plan.runs, plan.edgeMap)| ==>
      PlaceOf(plan, k) == Places(plan.runs, plan.edgeMap)[k]
  {
  }

  lemma GoodFrom(c: CellData, m: Seamed, tau: real, plan: Plan)
    requires tau > 0.0 && PlanOf(m, tau, plan) && PlanFits(m, plan) && ValidSeamed(m) && Converted(c, m, plan)
    ensures Good(c, m, tau, plan)
  {
    hide PlanOf, PlanFits, ValidSeamed, Converted;
  }

  lemma SeamEdgeIff(c: CellData, m: Seamed, plan: Plan, i: nat)
    requires Placed(c, m, plan)
    ensures Twice(FacesOn(c, i)) <==> SeamStays(plan, i)
  {
    hide SideBad, FinFace, PlaceOf, Owner, Twin, PlanFins;
    var on, faces := Users(plan, i), FacesOn(c, i);
    FinsOnBelow(c.fins, i);
    assert forall j :: 0 <= j < |on| ==> faces[j] == Some(PlaceOf(plan, on[j]));
  }

  lemma FinAt(c: CellData, m: Seamed, plan: Plan, k: nat)
    requires Placed(c, m, plan) && k < |c.fins|
    ensures Usable(c, k) && RadialAt(c, k) == FinAround(m, plan, k)
  {
    hide SideBad, FinFace, PlaceOf, Owner, Twin, PlanFins;
    assert Sided(c, m, PlaceOf(plan, k));
  }

  lemma {:induction false} AllUsable(c: CellData, m: Seamed, plan: Plan, fins: seq<nat>)
    requires Placed(c, m, plan) && AllBelow(fins, |c.fins|)
    ensures UsableOf(c, fins) == fins
  {
    hide SideBad, FinFace, PlaceOf, Owner, Twin, PlanFins;
    if fins != [] {
      var n := |fins| - 1;
      AllUsable(c, m, plan, fins[..n]);
      assert fins == fins[..n] + [fins[n]];
      FinAt(c, m, plan, fins[n]);
    }
  }

  lemma RadialIs(c: CellData, m: Seamed, plan: Plan, i: nat)
    requires Placed(c, m, plan)
    ensures RadialOf(c, FinsOn(c.fins, i)) == Around(m, plan, i)
  {
    hide SideBad, FinFace, PlaceOf, Owner, Twin, PlanFins;
    var on := FinsOn(c.fins, i);
    FinsOnBelow(c.fins, i);
    forall j | 0 <= j < |on|
      ensures RadialAt(c, on[j]) == FinAround(m, plan, on[j])
    {
      FinAt(c, m, plan, on[j]);
    }
  }

  /** The accounting of a converted cell's edge is the plan's. */
  lemma AroundIff(c: CellData, m: Seamed, plan: Plan, i: nat, v: Verdict)
    requires Placed(c, m, plan) && i < |c.edges| && c.edges[i].fins == FinsOn(c.fins, i) != []
    ensures AroundIssue(c, EdgeAccount(i, v)) <==> v != Fine && v == VerdictOf(Around(m, plan, i))
  {
    hide Placed, VerdictOf, FinFace, RadialOf, UsableOf, Users;
    FinsOnBelow(c.fins, i);
    AllUsable(c, m, plan, FinsOn(c.fins, i));
    RadialIs(c, m, plan, i);
  }

  // ------------------------------------------------------------------ the main result

  /** The issues a valid model's cell does raise. */
  predicate Exceptional(m: Seamed, plan: Plan, x: Issue) {
    match x
    case RegionWithoutShell(r) => r == 1 && m.shells == []
    case OpenLoop(f, j) => f < |plan.runs| && j < |plan.runs[f]| && StaysOpen(m, plan, plan.runs[f][j].uses)
    case SeamEdge(i) => i < |plan.keptEdges| && SeamStays(plan, i)
    case EdgeAccount(i, v) => i < |plan.keptEdges| && v != Fine && v == VerdictOf(Around(m, plan, i))
    case _ => false
  }

  lemma AroundExceptional(c: CellData, m: Seamed, tau: real, plan: Plan, x: Issue)
    requires tau > 0.0 && Good(c, m, tau, plan) && Placed(c, m, plan)
    ensures AroundIssue(c, x) <==> (x.SeamEdge? || x.EdgeAccount?) && Exceptional(m, plan, x)
  {
    hide *;
    SizesOf(c, m, tau, plan);
    if (x.SeamEdge? || x.EdgeAccount?) && x.edge < |c.edges| {
      EdgeReferenceGood(c, m, tau, plan, x.edge);
      SeamEdgeIff(c, m, plan, x.edge);
      if x.EdgeAccount? {
        AroundIff(c, m, plan, x.edge, x.verdict);
      }
    }
    AroundNamed(c, m, plan, x);
  }

  lemma AroundNamed(c: CellData, m: Seamed, plan: Plan, x: Issue)
    ensures AroundIssue(c, x) ==> (x.SeamEdge? || x.EdgeAccount?) && x.edge < |c.edges|
    ensures x.SeamEdge? ==> (AroundIssue(c, x) <==> x.edge < |c.edges| && Twice(FacesOn(c, x.edge)))
    ensures x.SeamEdge? ==> (Exceptional(m, plan, x) <==> x.edge < |plan.keptEdges| && SeamStays(plan, x.edge))
    ensures x.EdgeAccount? ==> (Exceptional(m, plan, x) <==>
      x.edge < |plan.keptEdges| && x.verdict != Fine && x.verdict == VerdictOf(Around(m, plan, x.edge)))
  {
    hide Twice, FacesOn, SeamStays, VerdictOf, Around, UsableOf, RadialOf;
  }

  lemma FaceExceptional(c: CellData, m: Seamed, tau: real, plan: Plan, x: Issue, f: nat)
    requires tau > 0.0 && Good(c, m, tau, plan) && f < |c.faces| && AllBelow(c.faces[f].loops, |c.loops|)
    ensures !SideIssue(c, x, f)
    ensures LoopIssue(c, x, f) <==> x.OpenLoop? && x.face == f && Exceptional(m, plan, x)
  {
    NoSideIssue(c, m, tau, plan, f, x);
    hide Good, SideIssue, StaysOpen, IsOpen, Wound, Pole, WindsWrongly, AllBelow;
    if x.OpenLoop? {
      OpenLoopIff(c, m, tau, plan, f, x.position);
    } else {
      LoopsGood(c, m, tau, plan, f, x);
    }
  }

  lemma RaisesFrom(c: CellData, m: Seamed, plan: Plan, x: Issue)
    requires GoodReferences(c) && !OwnerIssue(c, x) && !EdgeIssue(c, x) && |c.faces| == |plan.runs|
    requires forall s :: 0 <= s < |c.shells| ==> c.shells[s].region < |c.regions|
    requires forall f :: 0 <= f < |c.faces| ==> AllBelow(c.faces[f].loops, |c.loops|)
    requires ShellIssue(c, x) <==> x == RegionWithoutShell(1) && m.shells == []
    requires AroundIssue(c, x) <==> (x.SeamEdge? || x.EdgeAccount?) && Exceptional(m, plan, x)
    requires forall f :: 0 <= f < |c.faces| ==>
      !SideIssue(c, x, f) && (LoopIssue(c, x, f) <==> x.OpenLoop? && x.face == f && Exceptional(m, plan, x))
    ensures Raises(c, x) <==> Exceptional(m, plan, x)
  {
    ExceptionalNamed(m, plan, x);
    hide GoodReferences, OwnerIssue, EdgeIssue, ShellIssue, SideIssue, LoopIssue, AroundIssue, BadReference, AllBelow,
         Exceptional;
    if x.OpenLoop? && Exceptional(m, plan, x) {
      assert LoopIssue(c, x, x.face);
    }
  }

  lemma ExceptionalNamed(m: Seamed, plan: Plan, x: Issue)
    ensures Exceptional(m, plan, x) ==>
      || (x == RegionWithoutShell(1) && m.shells == []) || x.SeamEdge? || x.EdgeAccount?
      || (x.OpenLoop? && x.face < |plan.runs|)
    ensures x == RegionWithoutShell(1) && m.shells == [] ==> Exceptional(m, plan, x)
  {
    hide StaysOpen, SeamStays, VerdictOf, Around;
  }

  /** The cell of a valid seamed solid or closed shell raises no structural issue, except exactly: region 1 without a
      shell for a model without shells; an open loop for a run that does not close or has a ring among others; a seam
      edge for one that two kept uses in a face leave; and what the accounting says of an edge's kept uses. */
  lemma ConversionIsAccepted(m: Seamed, tau: real, plan: Plan, x: Issue)
    requires tau > 0.0 && PlanOf(m, tau, plan) && PlanFits(m, plan) && ValidSeamed(m)
    requires m.kind == Solid || m.kind == ClosedShell
    ensures Raises(CellOf(m, plan), x) <==> Exceptional(m, plan, x)
  {
    hide *;
    var c := CellOf(m, plan);
    CellIsConverted(m, plan);
    GoodFrom(c, m, tau, plan);
    CellPlaced(m, tau, plan);
    SizesOf(c, m, tau, plan);
    ReferencesGood(c, m, tau, plan);
    ReferencesGiveShells(c);
    GoodLists(c, m, tau, plan);
    NoOwnerIssue(c, x);
    NoEdgeIssue(c, m, tau, plan, x);
    OneShellIssue(c, m, tau, plan, x);
    AroundExceptional(c, m, tau, plan, x);
    forall f | 0 <= f < |c.faces|
      ensures !SideIssue(c, x, f)
      ensures LoopIssue(c, x, f) <==> x.OpenLoop? && x.face == f && Exceptional(m, plan, x)
    {
      FaceExceptional(c, m, tau, plan, x, f);
    }
    RaisesFrom(c, m, plan, x);
  }
}

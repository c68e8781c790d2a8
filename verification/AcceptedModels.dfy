/** Models whose cells the validator accepts outright, from what the seamed validator checks. */
module AcceptedModels {
  import opened Basics
  import opened Reals
  import opened SeamRuns
  import opened CellModel
  import opened CellConversion
  import opened CellChecks
  import opened RadialOrder
  import opened ConversionAccepted
  import opened ClosedRuns
  import opened FinPlaces
  import opened SenseCounts
  import opened Acceptance
  import opened CellEuler
  import opened AccountedModels
  import CellValidator

  // ------------------------------------------------------------------ what is asked of the model

  /** An edge that one face uses both ways is a seam of a loop that merges. */
  ghost predicate SeamsMerge(m: Seamed, tau: real)
    requires tau > 0.0
  {
    forall f, e :: 0 <= f < |m.faces| && BothWays(m.faces[f], e) ==> MergedSeam(m.faces[f], tau, e)
  }

  /** In every shell, each dropped vertex lies on one ring edge. */
  ghost predicate RingsSingle(m: Seamed, plan: Plan) {
    forall k :: 0 <= k < |m.shells| ==> AllBelow(m.shells[k], |m.faces|) && OneRingEach(m, plan, m.shells[k])
  }

  ghost predicate Regular(m: Seamed, tau: real, plan: Plan)
    requires tau > 0.0
  {
    && PlanOf(m, tau, plan) && PlanFits(m, plan) && ValidSeamed(m)
    && ClosedLoops(m) && SimpleSeams(m, tau) && Accounted(m) && SeamsMerge(m, tau) && RingsSingle(m, plan)
  }

  lemma RegularParts(m: Seamed, tau: real, plan: Plan)
    requires tau > 0.0 && Regular(m, tau, plan)
    ensures Sound(m, tau, plan) && PlanOf(m, tau, plan) && PlanFits(m, plan) && ValidSeamed(m)
    ensures ClosedLoops(m) && SimpleSeams(m, tau) && Accounted(m) && SeamsMerge(m, tau) && RingsSingle(m, plan)
    ensures SimplePlan(m, plan) && RunsEverywhere(m, plan) && |plan.runs| == |plan.gone| == |m.faces|
    ensures Renumbered(|m.edges|, plan.removed, plan.edgeMap, plan.keptEdges)
    ensures RemovedIs(plan.runs, plan.gone, plan.removed) && DropIs(m.edges, plan.removed, plan.drop)
    ensures FacesSplit(m, tau, plan.runs, plan.gone)
  {
    hide PlanOf, PlanFits, ValidSeamed, ClosedLoops, SimpleSeams, Accounted, SeamsMerge, RingsSingle, SimplePlan,
         RemovedIs, DropIs, Renumbered, FacesSplit, RunsEverywhere;
    SoundParts(m, tau, plan);
    PlanIsSimple(m, tau, plan);
  }

  // ------------------------------------------------------------------ seams

  /** No seam edge is left in the cell if and only if every edge that one face uses both ways is a seam that merges. */
  lemma SeamsMergeIff(m: Seamed, tau: real, plan: Plan)
    requires tau > 0.0 && Sound(m, tau, plan)
    ensures SeamsMerge(m, tau) <==> forall i :: 0 <= i < |plan.keptEdges| ==> !SeamStays(plan, i)
  {
    hide *;
    if SeamsMerge(m, tau) {
      forall i | 0 <= i < |plan.keptEdges|
        ensures !SeamStays(plan, i)
      {
        NoSeamStays(m, tau, plan, i);
      }
    }
    if forall i :: 0 <= i < |plan.keptEdges| ==> !SeamStays(plan, i) {
      forall f, e | 0 <= f < |m.faces| && BothWays(m.faces[f], e)
        ensures MergedSeam(m.faces[f], tau, e)
      {
        NoneStaysMerged(m, tau, plan, f, e);
      }
      SeamsMergeFrom(m, tau);
    }
  }

  lemma SeamsMergeFrom(m: Seamed, tau: real)
    requires tau > 0.0
    requires forall f, e :: 0 <= f < |m.faces| && BothWays(m.faces[f], e) ==> MergedSeam(m.faces[f], tau, e)
    ensures SeamsMerge(m, tau)
  {
    hide BothWays, MergedSeam;
  }

  lemma NoSeamStays(m: Seamed, tau: real, plan: Plan, i: nat)
    requires tau > 0.0 && Sound(m, tau, plan) && SeamsMerge(m, tau) && i < |plan.keptEdges|
    ensures !SeamStays(plan, i)
  {
    hide *;
    SoundParts(m, tau, plan);
    SeamStaysIff(m, tau, plan, i);
    var e := plan.keptEdges[i];
    if f :| 0 <= f < |m.faces| && BothWays(m.faces[f], e) {
      MergedOf(m, tau, f, e);
      SplitOf(m, tau, plan, f);
      SeamGone(m, tau, plan, f, e);
      NotLost(m, tau, plan, i, f);
    }
  }

  lemma NoneStaysMerged(m: Seamed, tau: real, plan: Plan, f: nat, e: nat)
    requires tau > 0.0 && Sound(m, tau, plan) && f < |m.faces| && BothWays(m.faces[f], e)
    requires forall i :: 0 <= i < |plan.keptEdges| ==> !SeamStays(plan, i)
    ensures MergedSeam(m.faces[f], tau, e)
  {
    hide *;
    SoundParts(m, tau, plan);
    BothWaysBelow(m, f, e);
    if e in plan.removed {
      var g := RemovedFrom(plan, e);
      SplitOf(m, tau, plan, g);
      LostMerged(m, tau, plan, g, e, f);
    } else {
      KeptIndex(|m.edges|, plan.removed, plan.edgeMap, plan.keptEdges, e);
      SeamStaysIff(m, tau, plan, plan.edgeMap[e]);
    }
  }

  lemma KeptIndex(n: nat, removed: set<nat>, edgeMap: map<nat, nat>, kept: seq<nat>, e: nat)
    requires Renumbered(n, removed, edgeMap, kept) && e < n && e !in removed
    ensures e in edgeMap && edgeMap[e] < |kept| && kept[edgeMap[e]] == e
  {
  }

  lemma RemovedFrom(plan: Plan, e: nat) returns (g: nat)
    requires RemovedIs(plan.runs, plan.gone, plan.removed) && e in plan.removed
    ensures g < |plan.gone| && e in plan.gone[g]
  {
    hide InRuns;
    assert GoneFrom(plan.gone, e);
    g :| 0 <= g < |plan.gone| && e in plan.gone[g];
  }

  /** An edge used both ways by face f and lost by a face is a merged seam of f. */
  lemma LostMerged(m: Seamed, tau: real, plan: Plan, g: nat, e: nat, f: nat)
    requires tau > 0.0 && Accounted(m) && e < |m.edges| && f < |m.faces| && g < |m.faces| && BothWays(m.faces[f], e)
    requires g < |plan.runs| && g < |plan.gone| && FaceSplit(m.faces[g], tau, plan.runs[g], plan.gone[g])
    requires e in plan.gone[g]
    ensures MergedSeam(m.faces[f], tau, e)
  {
    hide *;
    var parts := SplitParts(m.faces[g], tau, plan.runs[g], plan.gone[g]);
    var j := GoneAt(parts, plan.gone[g], e);
    PartAt(m.faces[g], tau, parts, j);
    LostTakesTwo(m.faces[g].surface.kind == Cylinder, m.faces[g].loops[j], tau, parts[j], e);
    LostMerges(m.faces[g], tau, parts[j], j, e);
    LoopsCountAtLeast(m.faces[g].loops, j, e, true);
    LoopsCountAtLeast(m.faces[g].loops, j, e, false);
    OnePlace(m, e, f, g, CountSense(m.faces[g].loops[j], e, true) >= 1);
  }

  lemma PartAt(face: SFace, tau: real, parts: seq<Part>, j: nat)
    requires tau > 0.0 && PartsOf(face, tau, parts, |face.loops|) && j < |parts| == |face.loops|
    ensures PartOf(face.surface.kind == Cylinder, face.loops[j], tau, parts[j])
  {
    hide PartOf;
  }

  lemma LostMerges(face: SFace, tau: real, part: Part, j: nat, e: nat)
    requires tau > 0.0 && j < |face.loops| && PartOf(face.surface.kind == Cylinder, face.loops[j], tau, part)
    requires e in part.gone
    ensures MergedSeam(face, tau, e)
  {
    hide Mergeable, RunsAre, RunsOf, IsSeam;
    var merged :| MergeOf(face.loops[j], tau, merged) && part == Part(merged.runs, set d | d in merged.seams);
  }

  lemma BothWaysBelow(m: Seamed, f: nat, e: nat)
    requires ValidSeamed(m) && f < |m.faces| && BothWays(m.faces[f], e)
    ensures e < |m.edges|
  {
    hide CountSense, LoopsCount, VertexInUse, EdgeInUse, Owners;
    var l, k := LoopsCountFound(m.faces[f].loops, e, true);
    assert GoodFace(m, m.faces[f]) && m.faces[f].loops[l][k] in m.faces[f].loops[l];
  }

  lemma MergedOf(m: Seamed, tau: real, f: nat, e: nat)
    requires tau > 0.0 && SeamsMerge(m, tau) && f < |m.faces| && BothWays(m.faces[f], e)
    ensures MergedSeam(m.faces[f], tau, e)
  {
    hide BothWays, MergedSeam;
  }

  // ------------------------------------------------------------------ every loop closes

  lemma PartClosed(m: Seamed, tau: real, f: nat, l: nat, part: Part, q: nat)
    requires tau > 0.0 && SimpleSeams(m, tau) && ClosedLoops(m) && f < |m.faces| && l < |m.faces[f].loops|
    requires PartOf(m.faces[f].surface.kind == Cylinder, m.faces[f].loops[l], tau, part) && q < |part.runs|
    ensures Closed(m, part.runs[q].uses)
  {
    hide Mergeable, MergeOf, IsSeam, OnlyIn, Closed;
    var loop := m.faces[f].loops[l];
    if loop != [] && Mergeable(m.faces[f].surface.kind == Cylinder, loop, tau) {
      var merged :| MergeOf(loop, tau, merged) && part == Part(merged.runs, set e | e in merged.seams);
      assert OneSeam(m, f, l);
      MergeSeams(loop, tau, merged);
      OneSeamListed(loop, merged.seams);
      MergeableCylinder(m.faces[f].surface.kind == Cylinder, loop, tau);
      OneSeamClosed(m, loop, tau, merged);
    }
  }

  /** Every kept run is a closed path. */
  lemma RunClosed(m: Seamed, tau: real, plan: Plan, f: nat, r: nat)
    requires tau > 0.0 && SimpleSeams(m, tau) && ClosedLoops(m) && f < |m.faces| && f < |plan.runs| && f < |plan.gone|
    requires FaceSplit(m.faces[f], tau, plan.runs[f], plan.gone[f]) && r < |plan.runs[f]|
    ensures Closed(m, plan.runs[f][r].uses)
  {
    hide SimpleSeams, ClosedLoops, PartOf, GoneIs, Closed;
    var face := m.faces[f];
    var parts: seq<Part> :| PartsOf(face, tau, parts, |face.loops|) && plan.runs[f] == PartRuns(parts) &&
      GoneIs(parts, plan.gone[f]);
    var j, q := RunOfPart(parts, r);
    PartClosed(m, tau, f, j, parts[j], q);
  }

  lemma RingIn(m: Seamed, plan: Plan, s: seq<nat>, k: nat, e: nat)
    requires AllBelow(s, |m.faces|) && k < |s| && UsedIn(m.faces[s[k]], e) && BecomesRing(m, plan, e)
    requires e !in plan.removed
    ensures e in RingsIn(m, plan, s)
  {
    hide UsedIn;
    assert UsedInAny(m, s, e);
  }

  lemma SameRing(m: Seamed, plan: Plan, s: seq<nat>, d: nat, e: nat)
    requires AllBelow(s, |m.faces|) && OneRingEach(m, plan, s) && d in RingsIn(m, plan, s) && e in RingsIn(m, plan, s)
    requires m.edges[d].start == m.edges[e].start
    requires m.edges[d].start < |m.vertices|
    ensures d == e
  {
    hide UsedInAny, RingLike;
    var v := m.edges[d].start;
    assert Ends(m, d, v);
    assert EndsAny(m, s, v);
    assert v in VerticesIn(m, s) && v in plan.drop;
  }

  /** A kept edge on a dropped vertex is a ring. */
  lemma OnDropped(m: Seamed, plan: Plan, e: nat, v: nat)
    requires DropIs(m.edges, plan.removed, plan.drop) && e < |m.edges| && e !in plan.removed && v in plan.drop
    requires m.edges[e].start == v || m.edges[e].end == v
    ensures BecomesRing(m, plan, e) && m.edges[e].start == v == m.edges[e].end
  {
    hide SeamVertex;
    assert !OtherUse(m.edges, plan.removed, v);
  }

  lemma ShellOf(m: Seamed, f: nat) returns (s: nat, k: nat)
    requires ValidSeamed(m) && f < |m.faces|
    ensures s < |m.shells| && k < |m.shells[s]| && m.shells[s][k] == f
  {
    hide Owners, GoodFace, VertexInUse, EdgeInUse;
    OwnersBelow(m.shells, f);
    s := Owners(m.shells, f)[0];
    k :| 0 <= k < |m.shells[s]| && m.shells[s][k] == f;
  }

  /** Two kept uses in face f of rings on one vertex are of one edge. */
  lemma OneRingInFace(m: Seamed, tau: real, plan: Plan, f: nat, u: Use, w: Use)
    requires tau > 0.0 && Regular(m, tau, plan) && f < |m.faces| && f < |plan.runs|
    requires InRuns(plan.runs[f], u) && InRuns(plan.runs[f], w)
    requires BecomesRing(m, plan, u.edge) && BecomesRing(m, plan, w.edge)
    requires m.edges[u.edge].start == m.edges[w.edge].start
    ensures u.edge == w.edge
  {
    hide *;
    RegularParts(m, tau, plan);
    EverywhereKeeps(m, plan);
    var s, k := ShellOf(m, f);
    ShellSingle(m, plan, s);
    RingKept(m, plan, f, u);
    RingKept(m, plan, f, w);
    RingIn(m, plan, m.shells[s], k, u.edge);
    RingIn(m, plan, m.shells[s], k, w.edge);
    EdgeBelow(m, plan, u.edge);
    SameRing(m, plan, m.shells[s], u.edge, w.edge);
  }

  lemma RingKept(m: Seamed, plan: Plan, f: nat, u: Use)
    requires RunsEverywhere(m, plan) && RemovedIs(plan.runs, plan.gone, plan.removed) && f < |m.faces|
    requires f < |plan.runs|
    requires InRuns(plan.runs[f], u)
    ensures u.edge !in plan.removed && UsedIn(m.faces[f], u.edge)
  {
    hide *;
    EverywhereKeeps(m, plan);
    KeptUseUsed(m.faces[f], plan.runs[f], plan.gone[f], u);
    KeptUseStays(plan, f, u);
  }

  lemma ShellSingle(m: Seamed, plan: Plan, s: nat)
    requires RingsSingle(m, plan) && s < |m.shells|
    ensures AllBelow(m.shells[s], |m.faces|) && OneRingEach(m, plan, m.shells[s])
  {
    hide OneRingEach;
  }

  lemma EdgeBelow(m: Seamed, plan: Plan, e: nat)
    requires ValidSeamed(m) && BecomesRing(m, plan, e)
    ensures m.edges[e].start < |m.vertices|
  {
    hide Owners, GoodFace, VertexInUse, EdgeInUse;
  }

  /** Two places of a face's runs do not use one kept edge. */
  lemma NotTwiceInRun(m: Seamed, tau: real, plan: Plan, f: nat, r: nat, j: nat, k: nat)
    requires tau > 0.0 && Regular(m, tau, plan) && f < |m.faces| && f < |plan.runs| && r < |plan.runs[f]|
    requires j < k < |plan.runs[f][r].uses|
    ensures plan.runs[f][r].uses[j].edge != plan.runs[f][r].uses[k].edge
  {
    var uses := plan.runs[f][r].uses;
    var u, w := uses[j], uses[k];
    assert u in uses && w in uses;
    UsesInRuns(plan.runs[f], r);
    hide *;
    RegularParts(m, tau, plan);
    if u.edge == w.edge {
      KeptUse(m, tau, plan, f, u);
      var i := plan.edgeMap[u.edge];
      NotLost(m, tau, plan, i, f);
      SplitOf(m, tau, plan, f);
      if u.forward == w.forward {
        CountTwo(uses, u.edge, u.forward, j, k);
        RunsCountAtLeast(plan.runs[f], r, u.edge, u.forward);
        SplitCount(m.faces[f], tau, plan.runs[f], plan.gone[f], u.edge, u.forward);
        ModelCountAtLeast(m.faces, f, u.edge, u.forward);
        AccountedOnce(m, u.edge);
      } else {
        InRunsCount(plan.runs[f], u);
        InRunsCount(plan.runs[f], w);
        SplitCount(m.faces[f], tau, plan.runs[f], plan.gone[f], u.edge, u.forward);
        SplitCount(m.faces[f], tau, plan.runs[f], plan.gone[f], u.edge, w.forward);
        BothWaysFrom(m.faces[f], u.edge, u.forward, w.forward);
        MergedOf(m, tau, f, u.edge);
        SeamGone(m, tau, plan, f, u.edge);
      }
    }
  }

  /** No loop of the cell is open. */
  lemma NoOpenLoop(m: Seamed, tau: real, plan: Plan, f: nat, r: nat)
    requires tau > 0.0 && Regular(m, tau, plan) && f < |m.faces| && f < |plan.runs| && r < |plan.runs[f]|
    ensures !StaysOpen(m, plan, plan.runs[f][r].uses)
  {
    hide *;
    RegularParts(m, tau, plan);
    SplitOf(m, tau, plan, f);
    RunClosed(m, tau, plan, f, r);
    var uses := plan.runs[f][r].uses;
    if StaysOpen(m, plan, uses) {
      var k := RingAmong(m, plan, uses);
      var n := NextBelow(|uses|, k);
      var u, w := uses[k], uses[n];
      assert u in uses && w in uses;
      UsesInRuns(plan.runs[f], r);
      ClosedNext(m, uses, k);
      RingKept(m, plan, f, u);
      RingKept(m, plan, f, w);
      KeptUse(m, tau, plan, f, w);
      RingEnds(m, plan, u);
      UseTouches(m, w);
      OnDropped(m, plan, w.edge, From(m, w));
      OneRingInFace(m, tau, plan, f, u, w);
      NextDiffers(|uses|, k);
      NotTwiceInRun(m, tau, plan, f, r, if k < n then k else n, if k < n then n else k);
    }
  }

  /** An open run that is a closed path has a ring among others. */
  lemma RingAmong(m: Seamed, plan: Plan, uses: seq<Use>) returns (k: nat)
    requires StaysOpen(m, plan, uses) && Closed(m, uses)
    ensures |uses| >= 2 && k < |uses| && BecomesRing(m, plan, uses[k].edge)
  {
    hide BecomesRing, From, To;
    k :| 0 <= k < |uses| && UseBreaks(m, plan, uses, k);
    ClosedNext(m, uses, k);
  }

  lemma ClosedNext(m: Seamed, uses: seq<Use>, k: nat)
    requires Closed(m, uses) && k < |uses|
    ensures To(m, uses[k]) == From(m, uses[Next(|uses|, k)])
  {
    hide From, To;
  }

  lemma NextDiffers(n: nat, k: nat)
    requires 2 <= n && k < n
    ensures Next(n, k) != k
  {
  }

  lemma RingEnds(m: Seamed, plan: Plan, u: Use)
    requires BecomesRing(m, plan, u.edge)
    ensures u.edge < |m.edges| && To(m, u) == m.edges[u.edge].start && To(m, u) in plan.drop
  {
  }

  lemma UseTouches(m: Seamed, u: Use)
    requires u.edge < |m.edges|
    ensures m.edges[u.edge].start == From(m, u) || m.edges[u.edge].end == From(m, u)
  {
  }

  // ------------------------------------------------------------------ when the cell is accepted

  /** A ring among others. */
  predicate RingAmongOthers(m: Seamed, plan: Plan, uses: seq<Use>) {
    |uses| >= 2 && exists k :: 0 <= k < |uses| && BecomesRing(m, plan, uses[k].edge)
  }

  /** Where loops close and have one seam each, a loop of the cell is open only through a ring among others. */
  lemma OpenByRing(m: Seamed, tau: real, plan: Plan, f: nat, r: nat)
    requires tau > 0.0 && Sound(m, tau, plan) && ClosedLoops(m) && SimpleSeams(m, tau) && f < |m.faces|
    requires f < |plan.runs| && r < |plan.runs[f]|
    ensures StaysOpen(m, plan, plan.runs[f][r].uses) <==> RingAmongOthers(m, plan, plan.runs[f][r].uses)
  {
    hide *;
    SoundParts(m, tau, plan);
    SplitOf(m, tau, plan, f);
    RunClosed(m, tau, plan, f, r);
    var uses := plan.runs[f][r].uses;
    if StaysOpen(m, plan, uses) {
      var k := RingAmong(m, plan, uses);
      RingAmongFrom(m, plan, uses, k);
    }
    if RingAmongOthers(m, plan, uses) {
      RingOpens(m, plan, uses);
    }
  }

  lemma RingAmongFrom(m: Seamed, plan: Plan, uses: seq<Use>, k: nat)
    requires |uses| >= 2 && k < |uses| && BecomesRing(m, plan, uses[k].edge)
    ensures RingAmongOthers(m, plan, uses)
  {
    hide BecomesRing;
  }

  lemma RingOpens(m: Seamed, plan: Plan, uses: seq<Use>)
    requires RingAmongOthers(m, plan, uses)
    ensures StaysOpen(m, plan, uses)
  {
    hide BecomesRing, From, To;
    var k :| 0 <= k < |uses| && BecomesRing(m, plan, uses[k].edge);
    assert UseBreaks(m, plan, uses, k);
  }

  /** The issues the cell of an accounted model raises. */
  ghost predicate Remaining(m: Seamed, plan: Plan, x: Issue) {
    match x
    case RegionWithoutShell(r) => r == 1 && m.shells == []
    case OpenLoop(f, j) => f < |plan.runs| && j < |plan.runs[f]| && StaysOpen(m, plan, plan.runs[f][j].uses)
    case SeamEdge(i) =>
      i < |plan.keptEdges| && exists f :: 0 <= f < |m.faces| && BothWays(m.faces[f], plan.keptEdges[i])
    case _ => false
  }

  /** Where the seamed validator's accounting finds nothing, the cell's finds nothing either, and the seam edges are
      those that a face of the model uses both ways. */
  lemma AccountedExceptional(m: Seamed, tau: real, plan: Plan, x: Issue)
    requires tau > 0.0 && Sound(m, tau, plan)
    ensures Exceptional(m, plan, x) <==> Remaining(m, plan, x)
  {
    hide *;
    ExceptionalCases(m, plan, x);
    if x.SeamEdge? && x.edge < |plan.keptEdges| {
      SeamStaysIff(m, tau, plan, x.edge);
    } else if x.EdgeAccount? && x.edge < |plan.keptEdges| {
      EveryEdgeCloses(m, tau, plan, x.edge);
    }
  }

  lemma ExceptionalCases(m: Seamed, plan: Plan, x: Issue)
    ensures !x.SeamEdge? && !x.EdgeAccount? ==> (Exceptional(m, plan, x) <==> Remaining(m, plan, x))
    ensures x.SeamEdge? ==> (Exceptional(m, plan, x) <==> x.edge < |plan.keptEdges| && SeamStays(plan, x.edge))
    ensures x.SeamEdge? ==> (Remaining(m, plan, x) <==>
      x.edge < |plan.keptEdges| && exists f :: 0 <= f < |m.faces| && BothWays(m.faces[f], plan.keptEdges[x.edge]))
    ensures x.EdgeAccount? ==> (Exceptional(m, plan, x) <==>
      x.edge < |plan.keptEdges| && x.verdict != Fine && x.verdict == VerdictOf(Around(m, plan, x.edge)))
    ensures x.EdgeAccount? ==> !Remaining(m, plan, x)
  {
    hide StaysOpen, SeamStays, VerdictOf, Around, BothWays;
  }

  predicate AllClose(m: Seamed, plan: Plan) {
    forall f, r :: 0 <= f < |plan.runs| && 0 <= r < |plan.runs[f]| ==> !StaysOpen(m, plan, plan.runs[f][r].uses)
  }

  /** The cell of a valid, accounted solid or closed shell is accepted if and only if the model has a shell, every edge
      that one face uses both ways is a seam that merges, and no run stays open. */
  lemma AcceptedIff(m: Seamed, tau: real, plan: Plan)
    requires tau > 0.0 && Sound(m, tau, plan) && (m.kind == Solid || m.kind == ClosedShell)
    ensures (forall x :: !Raises(CellOf(m, plan), x)) <==> m.shells != [] && SeamsMerge(m, tau) && AllClose(m, plan)
  {
    hide *;
    SoundParts(m, tau, plan);
    SeamsMergeIff(m, tau, plan);
    forall x
      ensures Raises(CellOf(m, plan), x) <==> Exceptional(m, plan, x)
      ensures x.EdgeAccount? ==> !Exceptional(m, plan, x)
    {
      ConversionIsAccepted(m, tau, plan, x);
      AccountedExceptional(m, tau, plan, x);
      ExceptionalCases(m, plan, x);
    }
    NothingExceptional(m, plan);
  }

  lemma NothingExceptional(m: Seamed, plan: Plan)
    requires forall x: Issue :: x.EdgeAccount? ==> !Exceptional(m, plan, x)
    ensures (forall x :: !Exceptional(m, plan, x)) <==>
      m.shells != [] && AllClose(m, plan) && forall i :: 0 <= i < |plan.keptEdges| ==> !SeamStays(plan, i)
  {
    hide StaysOpen, SeamStays, VerdictOf, Around;
    if forall x :: !Exceptional(m, plan, x) {
      assert !Exceptional(m, plan, RegionWithoutShell(1));
      forall i | 0 <= i < |plan.keptEdges|
        ensures !SeamStays(plan, i)
      {
        assert !Exceptional(m, plan, SeamEdge(i));
      }
      forall f, r | 0 <= f < |plan.runs| && 0 <= r < |plan.runs[f]|
        ensures !StaysOpen(m, plan, plan.runs[f][r].uses)
      {
        assert !Exceptional(m, plan, OpenLoop(f, r));
      }
    }
  }

  // ------------------------------------------------------------------ accepted outright

  /** From a valid seamed solid or closed shell whose loops close, whose edges are accounted for, and whose seams merge
      one to a loop, with one ring edge on each dropped vertex of a shell, the validator's structural half reports
      nothing, unless the model is empty. */
  lemma AcceptedOutright(m: Seamed, tau: real, plan: Plan, x: Issue)
    requires tau > 0.0 && Regular(m, tau, plan)
    ensures Exceptional(m, plan, x) <==> x == RegionWithoutShell(1) && m.shells == []
  {
    hide *;
    RegularParts(m, tau, plan);
    ExceptionalNamed(m, plan, x);
    ExceptionalCases(m, plan, x);
    AccountedExceptional(m, tau, plan, x);
    if x.OpenLoop? && Exceptional(m, plan, x) {
      OpenAt(m, plan, x);
      NoOpenLoop(m, tau, plan, x.face, x.position);
    } else if x.SeamEdge? && x.edge < |plan.keptEdges| {
      NoSeamStays(m, tau, plan, x.edge);
    }
  }

  lemma OpenAt(m: Seamed, plan: Plan, x: Issue)
    requires x.OpenLoop? && Exceptional(m, plan, x)
    ensures x.face < |plan.runs| && x.position < |plan.runs[x.face]|
    ensures StaysOpen(m, plan, plan.runs[x.face][x.position].uses)
  {
    hide StaysOpen;
  }

  /** The one exception: a valid model without shells is empty. */
  lemma NoShellsNothing(m: Seamed)
    requires ValidSeamed(m) && m.shells == []
    ensures m.faces == [] && m.edges == [] && m.vertices == []
  {
    assert |Owners(m.shells, 0)| == 0;
    assert |m.edges| > 0 ==> EdgeInUse(m, 0);
    assert |m.vertices| > 0 ==> VertexInUse(m, 0);
  }

  // ------------------------------------------------------------------ conversion and validation together

  lemma ConversionSucceeds(m: Seamed, tau: real)
    requires tau > 0.0 && ValidSeamed(m)
    ensures !exists runs, gone, e: nat :: FacesSplit(m, tau, runs, gone) && GoneFrom(gone, e) && e >= |m.edges|
  {
    hide FacesSplit, GoneFrom, ValidSeamed;
    forall runs, gone, e: nat | FacesSplit(m, tau, runs, gone) && GoneFrom(gone, e)
      ensures e < |m.edges|
    {
      NoLostEdgeOutside(m, tau, runs, gone, e);
    }
  }

  /** The issues of the cell that a plan describes: the exceptional ones, for an accounted model none of the accounting,
      and for a regular model with a shell none at all. */
  ghost predicate Reports(issues: set<Issue>, m: Seamed, tau: real, plan: Plan)
    requires tau > 0.0
  {
    && PlanOf(m, tau, plan) && PlanFits(m, plan)
    && (forall x :: x in issues <==> Exceptional(m, plan, x))
    && (Accounted(m) ==> forall x :: x in issues <==> Remaining(m, plan, x))
    && (Regular(m, tau, plan) ==> issues == if m.shells == [] then {RegionWithoutShell(1)} else {})
  }

  lemma ReportsFrom(issues: set<Issue>, m: Seamed, tau: real, plan: Plan)
    requires tau > 0.0 && PlanOf(m, tau, plan) && PlanFits(m, plan) && ValidSeamed(m)
    requires m.kind == Solid || m.kind == ClosedShell
    requires forall x :: x in issues <==> Raises(CellOf(m, plan), x)
    ensures Reports(issues, m, tau, plan)
  {
    hide PlanOf, PlanFits, ValidSeamed, Accounted, Raises, CellOf, Exceptional, Remaining, Regular;
    forall x
      ensures x in issues <==> Exceptional(m, plan, x)
      ensures Accounted(m) ==> (x in issues <==> Remaining(m, plan, x))
      ensures Regular(m, tau, plan) ==> (x in issues <==> x == RegionWithoutShell(1) && m.shells == [])
    {
      ConversionIsAccepted(m, tau, plan, x);
      if Accounted(m) {
        AccountedExceptional(m, tau, plan, x);
      }
      if Regular(m, tau, plan) {
        AcceptedOutright(m, tau, plan, x);
      }
    }
  }

  /** `to_cell` and `validate` in turn: the conversion of a valid solid or closed shell does not fail, and the issues
      are exactly the exceptional ones; none for a regular model, unless it is empty. */
  method ConvertAndValidate(m: Seamed, tau: real) returns (issues: set<Issue>)
    requires tau > 0.0 && ValidSeamed(m) && (m.kind == Solid || m.kind == ClosedShell)
    ensures exists plan :: Reports(issues, m, tau, plan)
  {
    hide *;
    ConversionSucceeds(m, tau);
    var cell := ToCell(m, tau);
    assert cell.Some?;
    ghost var plan :| PlanOf(m, tau, plan) && PlanFits(m, plan) && cell.value.Data() == CellOf(m, plan);
    issues := CellValidator.Validate(cell.value.Data());
    ReportsFrom(issues, m, tau, plan);
  }
}

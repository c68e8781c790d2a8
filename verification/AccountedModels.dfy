/** Models whose edges are accounted for, as the seamed validator checks: what becomes of each edge in the cell. */
module AccountedModels {
  import opened Reals
  import opened SeamRuns
  import opened CellModel
  import opened CellConversion
  import opened CellChecks
  import opened RadialOrder
  import opened ConversionAccepted
  import opened FinPlaces
  import opened SenseCounts
  import opened Acceptance
  import opened CellEuler

  // ------------------------------------------------------------------ what is asked of the model

  /** The seamed validator's edge accounting finds nothing: each edge is used once in each sense, by faces of one
      shell. */
  ghost predicate Accounted(m: Seamed) {
    && (forall e, forward :: 0 <= e < |m.edges| ==> ModelCount(m.faces, e, forward) == 1)
    && forall e, f, g :: 0 <= f < |m.faces| && 0 <= g < |m.faces| && UsedIn(m.faces[f], e) && UsedIn(m.faces[g], e) ==>
         Owner(m.shells, f) == Owner(m.shells, g)
  }

  predicate BothWays(face: SFace, e: nat) {
    LoopsCount(face.loops, e, true) >= 1 && LoopsCount(face.loops, e, false) >= 1
  }

  ghost predicate MergedSeam(face: SFace, tau: real, e: nat)
    requires tau > 0.0
  {
    exists l :: 0 <= l < |face.loops| && face.loops[l] != [] &&
      Mergeable(face.surface.kind == Cylinder, face.loops[l], tau) && IsSeam(face.loops[l], e)
  }

  /** A valid, accounted model and its plan. */
  ghost predicate Sound(m: Seamed, tau: real, plan: Plan)
    requires tau > 0.0
  {
    PlanOf(m, tau, plan) && PlanFits(m, plan) && ValidSeamed(m) && Accounted(m)
  }

  lemma SoundParts(m: Seamed, tau: real, plan: Plan)
    requires tau > 0.0 && Sound(m, tau, plan)
    ensures PlanOf(m, tau, plan) && PlanFits(m, plan) && ValidSeamed(m) && Accounted(m)
    ensures RunsEverywhere(m, plan) && |plan.runs| == |plan.gone| == |m.faces|
    ensures Renumbered(|m.edges|, plan.removed, plan.edgeMap, plan.keptEdges)
    ensures RemovedIs(plan.runs, plan.gone, plan.removed) && DropIs(m.edges, plan.removed, plan.drop)
    ensures FacesSplit(m, tau, plan.runs, plan.gone)
  {
    hide FaceSplit, RemovedIs, DropIs, Renumbered, PlanFits, ValidSeamed, Accounted, RunsEverywhere;
    PlanKeepsRuns(m, tau, plan);
  }

  // ------------------------------------------------------------------ a merged seam is used up

  /** A part that loses an edge had both its uses. */
  lemma LostTakesTwo(cylinder: bool, loop: seq<Use>, tau: real, part: Part, e: nat)
    requires tau > 0.0 && PartOf(cylinder, loop, tau, part) && e in part.gone
    ensures CountSense(loop, e, true) + CountSense(loop, e, false) == 2
  {
    hide Mergeable, RunsAre, RunsOf, CountSense, Where;
    var merged :| MergeOf(loop, tau, merged) && part == Part(merged.runs, set d | d in merged.seams);
    CountBySense(loop, e);
  }

  /** Face f's loop j, of which part j loses the edge, has its uses in both senses, and no other loop has any. */
  lemma LostHere(m: Seamed, tau: real, f: nat, parts: seq<Part>, j: nat, e: nat, g: nat, l: nat, forward: bool)
    requires tau > 0.0 && Accounted(m) && e < |m.edges| && f < |m.faces| && g < |m.faces| && l < |m.faces[g].loops|
    requires PartsOf(m.faces[f], tau, parts, |m.faces[f].loops|) && j < |parts| && e in parts[j].gone
    requires CountSense(m.faces[g].loops[l], e, forward) >= 1
    ensures g == f && l == j
  {
    hide PartOf, CountSense, LoopsCount, ModelCount, UsedIn, Owner;
    LostTakesTwo(m.faces[f].surface.kind == Cylinder, m.faces[f].loops[j], tau, parts[j], e);
    AccountedOnce(m, e);
    forall way: bool
      ensures CountSense(m.faces[f].loops[j], e, way) <= LoopsCount(m.faces[f].loops, e, way) <= 1
    {
      LoopsCountAtLeast(m.faces[f].loops, j, e, way);
      ModelCountAtLeast(m.faces, f, e, way);
    }
    LoopsCountAtLeast(m.faces[g].loops, l, e, forward);
    if g != f {
      ModelCountTwo(m.faces, f, g, e, forward);
    } else if l != j {
      LoopsCountTwo(m.faces[f].loops, j, l, e, forward);
    }
  }

  /** So no kept use has a lost edge. */
  lemma UsedUp(m: Seamed, tau: real, plan: Plan, f: nat, e: nat, g: nat, u: Use)
    requires tau > 0.0 && ValidSeamed(m) && Accounted(m) && f < |m.faces| && g < |m.faces|
    requires f < |plan.runs| && f < |plan.gone| && FaceSplit(m.faces[f], tau, plan.runs[f], plan.gone[f])
    requires g < |plan.runs| && g < |plan.gone| && FaceSplit(m.faces[g], tau, plan.runs[g], plan.gone[g])
    requires e in plan.gone[f] && e < |m.edges| && InRuns(plan.runs[g], u)
    ensures u.edge != e
  {
    hide PartOf, GoneIs, InRuns, PartRuns, Accounted, ValidSeamed, CountSense;
    if u.edge == e {
      var parts := SplitParts(m.faces[f], tau, plan.runs[f], plan.gone[f]);
      var others := SplitParts(m.faces[g], tau, plan.runs[g], plan.gone[g]);
      var j := GoneAt(parts, plan.gone[f], e);
      var l := InParts(others, u);
      KeptInLoop(m.faces[g], tau, others, l, u);
      LostHere(m, tau, f, parts, j, e, g, l, u.forward);
      PartUnique(m.faces[f].surface.kind == Cylinder, m.faces[f].loops[j], tau, parts[j], others[j], u);
    }
  }

  lemma SplitParts(face: SFace, tau: real, runs: seq<Run>, gone: set<nat>) returns (parts: seq<Part>)
    requires tau > 0.0 && FaceSplit(face, tau, runs, gone)
    ensures PartsOf(face, tau, parts, |face.loops|) && |parts| == |face.loops|
    ensures runs == PartRuns(parts) && GoneIs(parts, gone)
  {
    hide PartOf, GoneIs, PartRuns;
    parts :| PartsOf(face, tau, parts, |face.loops|) && runs == PartRuns(parts) && GoneIs(parts, gone);
  }

  lemma KeptInLoop(face: SFace, tau: real, parts: seq<Part>, l: nat, u: Use)
    requires tau > 0.0 && PartsOf(face, tau, parts, |face.loops|) && l < |parts| && InRuns(parts[l].runs, u)
    ensures l < |face.loops| && CountSense(face.loops[l], u.edge, u.forward) >= 1 && u.edge !in parts[l].gone
  {
    hide PartOf, InRuns, WindingSum, CountSense;
    PartKeeps(face.surface.kind == Cylinder, face.loops[l], tau, parts[l]);
    var k :| 0 <= k < |face.loops[l]| && face.loops[l][k] == u;
    CountSome(face.loops[l], u.edge, u.forward, k);
  }

  /** Two parts of one loop lose the same edges. */
  lemma PartUnique(cylinder: bool, loop: seq<Use>, tau: real, p: Part, q: Part, u: Use)
    requires tau > 0.0 && PartOf(cylinder, loop, tau, p) && PartOf(cylinder, loop, tau, q)
    ensures p.gone == q.gone
  {
    hide Mergeable, RunsAre, RunsOf, IsSeam;
    if loop != [] && Mergeable(cylinder, loop, tau) {
      var a :| MergeOf(loop, tau, a) && p == Part(a.runs, set d | d in a.seams);
      var b :| MergeOf(loop, tau, b) && q == Part(b.runs, set d | d in b.seams);
    }
  }

  /** What a face loses disappears from the model. */
  lemma LostDisappears(m: Seamed, tau: real, plan: Plan, f: nat, e: nat)
    requires tau > 0.0 && Sound(m, tau, plan) && f < |m.faces| && f < |plan.gone| && e in plan.gone[f]
    ensures e in plan.removed
  {
    hide *;
    SoundParts(m, tau, plan);
    GoneHere(plan.gone, f, e);
    NoLostEdgeOutside(m, tau, plan.runs, plan.gone, e);
    if e !in plan.removed {
      var g, u := StillUsed(plan, e);
      SplitOf(m, tau, plan, f);
      SplitOf(m, tau, plan, g);
      UsedUp(m, tau, plan, f, e, g, u);
    }
  }

  lemma GoneHere(gone: seq<set<nat>>, f: nat, e: nat)
    requires f < |gone| && e in gone[f]
    ensures GoneFrom(gone, e)
  {
  }

  lemma StillUsed(plan: Plan, e: nat) returns (g: nat, u: Use)
    requires RemovedIs(plan.runs, plan.gone, plan.removed) && GoneFrom(plan.gone, e) && e !in plan.removed
    ensures g < |plan.runs| && InRuns(plan.runs[g], u) && u.edge == e
  {
    hide InRuns, GoneFrom;
    g, u :| 0 <= g < |plan.runs| && InRuns(plan.runs[g], u) && u.edge == e;
  }

  // ------------------------------------------------------------------ the uses of a kept edge

  /** A kept edge is lost by no face. */
  lemma NotLost(m: Seamed, tau: real, plan: Plan, i: nat, f: nat)
    requires tau > 0.0 && Sound(m, tau, plan) && i < |plan.keptEdges| && f < |m.faces| && f < |plan.gone|
    ensures plan.keptEdges[i] !in plan.gone[f]
  {
    hide *;
    SoundParts(m, tau, plan);
    KeptIs(|m.edges|, plan.removed, plan.edgeMap, plan.keptEdges, i);
    if plan.keptEdges[i] in plan.gone[f] {
      LostDisappears(m, tau, plan, f, plan.keptEdges[i]);
    }
  }

  lemma EverywhereKeeps(m: Seamed, plan: Plan)
    requires RunsEverywhere(m, plan)
    ensures |plan.runs| == |plan.gone| == |m.faces|
    ensures forall g :: 0 <= g < |m.faces| ==> FaceKeeps(m.faces[g], plan.runs[g], plan.gone[g])
  {
    hide FaceKeeps;
  }

  /** Among kept uses, exactly those of the kept edge get its number. */
  lemma KeptBecomes(m: Seamed, tau: real, plan: Plan, i: nat, f: nat)
    requires tau > 0.0 && Sound(m, tau, plan) && i < |plan.keptEdges| && f < |m.faces| && f < |plan.runs|
    ensures Becomes(AllUses(plan.runs[f]), plan.edgeMap, plan.keptEdges[i], i)
  {
    SoundParts(m, tau, plan);
    KeptIs(|m.edges|, plan.removed, plan.edgeMap, plan.keptEdges, i);
    hide Sound, PlanOf, ValidSeamed, Renumbered, InRuns, AllUses, Accounted, RemovedIs, DropIs, RunsEverywhere,
         FacesSplit, PlanFits;
    forall u | u in AllUses(plan.runs[f])
      ensures Get(plan.edgeMap, u.edge) == i <==> u.edge == plan.keptEdges[i]
    {
      InAllUses(plan.runs[f], u);
      KeptUse(m, tau, plan, f, u);
    }
  }

  lemma FaceFinsCount(m: Seamed, tau: real, plan: Plan, i: nat, f: nat, forward: bool)
    requires tau > 0.0 && Sound(m, tau, plan) && i < |plan.keptEdges| && f < |m.faces|
    ensures f < |plan.runs|
    ensures CountFins(RunFins(plan.runs[f], plan.edgeMap), i, forward)
         == LoopsCount(m.faces[f].loops, plan.keptEdges[i], forward)
  {
    hide *;
    SoundParts(m, tau, plan);
    NotLost(m, tau, plan, i, f);
    KeptBecomes(m, tau, plan, i, f);
    RunFinsCount(plan.runs[f], plan.edgeMap, plan.keptEdges[i], i, forward);
    SplitOf(m, tau, plan, f);
    SplitCount(m.faces[f], tau, plan.runs[f], plan.gone[f], plan.keptEdges[i], forward);
  }

  lemma SplitOf(m: Seamed, tau: real, plan: Plan, f: nat)
    requires tau > 0.0 && FacesSplit(m, tau, plan.runs, plan.gone) && f < |m.faces|
    ensures f < |plan.runs| && f < |plan.gone| && FaceSplit(m.faces[f], tau, plan.runs[f], plan.gone[f])
  {
    hide FaceSplit;
  }

  /** The cell has as many fins of a kept edge in each sense as the model has uses. */
  lemma {:induction false} KeptCount(m: Seamed, tau: real, plan: Plan, i: nat, n: nat, forward: bool)
    requires tau > 0.0 && Sound(m, tau, plan) && i < |plan.keptEdges| && n <= |m.faces| && n <= |plan.runs|
    ensures CountFins(PlanFins(plan.runs[..n], plan.edgeMap), i, forward)
         == ModelCount(m.faces[..n], plan.keptEdges[i], forward)
    decreases n
  {
    hide Sound, CountFins, LoopsCount, RunFins;
    if n == 0 {
      NoFins(i, forward);
    } else {
      KeptCount(m, tau, plan, i, n - 1, forward);
      assert plan.runs[..n][..n - 1] == plan.runs[..n - 1] && m.faces[..n][..n - 1] == m.faces[..n - 1];
      FaceFinsCount(m, tau, plan, i, n - 1, forward);
      CountFinsConcat(PlanFins(plan.runs[..n - 1], plan.edgeMap), RunFins(plan.runs[n - 1], plan.edgeMap), i, forward);
    }
  }

  /** A kept edge has two fins, of opposite senses. */
  lemma TwoUsers(m: Seamed, tau: real, plan: Plan, i: nat)
    requires tau > 0.0 && Sound(m, tau, plan) && i < |plan.keptEdges|
    ensures var on, fins := Users(plan, i), PlanFins(plan.runs, plan.edgeMap);
      |on| == 2 && on[0] < on[1] < |fins| && fins[on[0]].edge == i == fins[on[1]].edge
      && fins[on[0]].forward != fins[on[1]].forward
  {
    SoundParts(m, tau, plan);
    var n, e := |m.faces|, plan.keptEdges[i];
    assert plan.runs[..n] == plan.runs && m.faces[..n] == m.faces;
    KeptIs(|m.edges|, plan.removed, plan.edgeMap, plan.keptEdges, i);
    hide *;
    KeptCount(m, tau, plan, i, n, true);
    KeptCount(m, tau, plan, i, n, false);
    AccountedOnce(m, e);
    TwoFins(PlanFins(plan.runs, plan.edgeMap), i);
    UsersIs(plan, i);
  }

  lemma AccountedOnce(m: Seamed, e: nat)
    requires Accounted(m) && e < |m.edges|
    ensures ModelCount(m.faces, e, true) == 1 == ModelCount(m.faces, e, false)
  {
    hide ModelCount, UsedIn, Owner;
  }

  lemma UsersIs(plan: Plan, i: nat)
    ensures Users(plan, i) == FinsOn(PlanFins(plan.runs, plan.edgeMap), i)
  {
    hide FinsOn, PlanFins;
  }

  // ------------------------------------------------------------------ the use behind a fin

  lemma {:induction false} RunFinUse(runs: seq<Run>, edgeMap: map<nat, nat>, k: nat) returns (u: Use)
    requires k < |RunFins(runs, edgeMap)|
    ensures InRuns(runs, u) && RunFins(runs, edgeMap)[k] == FinOf(u, edgeMap)
  {
    hide FinOf;
    var n := |runs| - 1;
    var before := RunFins(runs[..n], edgeMap);
    if k < |before| {
      u := RunFinUse(runs[..n], edgeMap, k);
      var r :| 0 <= r < n && u in runs[..n][r].uses;
      assert u in runs[r].uses;
    } else {
      u := runs[n].uses[k - |before|];
      assert u in runs[n].uses;
    }
  }

  lemma {:induction false} PlaceUse(runs: seq<seq<Run>>, edgeMap: map<nat, nat>, k: nat) returns (u: Use)
    requires k < |PlanFins(runs, edgeMap)|
    ensures var f := Places(runs, edgeMap)[k];
      f < |runs| && InRuns(runs[f], u) && PlanFins(runs, edgeMap)[k] == FinOf(u, edgeMap)
  {
    hide FinOf, RunFins, InRuns;
    var n := |runs| - 1;
    var before := PlanFins(runs[..n], edgeMap);
    if k < |before| {
      u := PlaceUse(runs[..n], edgeMap, k);
    } else {
      u := RunFinUse(runs[n], edgeMap, k - |before|);
    }
  }

  /** A fin of a kept edge: its face uses the edge in its sense. */
  lemma UserIs(m: Seamed, tau: real, plan: Plan, i: nat, k: nat)
    requires tau > 0.0 && Sound(m, tau, plan) && i < |plan.keptEdges| && k < |PlanFins(plan.runs, plan.edgeMap)|
    requires PlanFins(plan.runs, plan.edgeMap)[k].edge == i
    ensures var f := PlaceOf(plan, k);
      && f < |m.faces| && UsedIn(m.faces[f], plan.keptEdges[i])
      && LoopsCount(m.faces[f].loops, plan.keptEdges[i], PlanFins(plan.runs, plan.edgeMap)[k].forward) >= 1
  {
    hide *;
    SoundParts(m, tau, plan);
    PlacesAre(plan);
    var u := PlaceUse(plan.runs, plan.edgeMap, k);
    var f := PlaceOf(plan, k);
    KeptUse(m, tau, plan, f, u);
    UseNumber(u, plan.edgeMap, PlanFins(plan.runs, plan.edgeMap)[k]);
    EverywhereKeeps(m, plan);
    KeptUseUsed(m.faces[f], plan.runs[f], plan.gone[f], u);
    NotLost(m, tau, plan, i, f);
    SplitOf(m, tau, plan, f);
    SplitCount(m.faces[f], tau, plan.runs[f], plan.gone[f], u.edge, u.forward);
    InRunsCount(plan.runs[f], u);
  }

  lemma UseNumber(u: Use, edgeMap: map<nat, nat>, x: Fin)
    requires x == FinOf(u, edgeMap) && u.edge in edgeMap
    ensures edgeMap[u.edge] == x.edge && u.forward == x.forward
  {
  }

  lemma InRunsCount(runs: seq<Run>, u: Use)
    requires InRuns(runs, u)
    ensures RunsCount(runs, u.edge, u.forward) >= 1
  {
    hide RunsCount, CountSense;
    var r :| 0 <= r < |runs| && u in runs[r].uses;
    var j :| 0 <= j < |runs[r].uses| && runs[r].uses[j] == u;
    CountSome(runs[r].uses, u.edge, u.forward, j);
    RunsCountAtLeast(runs, r, u.edge, u.forward);
  }

  // ------------------------------------------------------------------ seams that stay

  lemma SeamGone(m: Seamed, tau: real, plan: Plan, f: nat, e: nat)
    requires tau > 0.0 && f < |m.faces| && f < |plan.runs| && f < |plan.gone|
    requires FaceSplit(m.faces[f], tau, plan.runs[f], plan.gone[f]) && MergedSeam(m.faces[f], tau, e)
    ensures e in plan.gone[f]
  {
    hide Mergeable, IsSeam, PartRuns;
    var face := m.faces[f];
    var parts: seq<Part> :| PartsOf(face, tau, parts, |face.loops|) && plan.runs[f] == PartRuns(parts) &&
      GoneIs(parts, plan.gone[f]);
    var l :| 0 <= l < |face.loops| && face.loops[l] != [] &&
      Mergeable(face.surface.kind == Cylinder, face.loops[l], tau) && IsSeam(face.loops[l], e);
    assert PartOf(face.surface.kind == Cylinder, face.loops[l], tau, parts[l]);
    hide FaceSplit, PartsOf;
    SeamInPart(face.surface.kind == Cylinder, face.loops[l], tau, parts[l], e);
  }

  lemma SeamInPart(cylinder: bool, loop: seq<Use>, tau: real, part: Part, e: nat)
    requires tau > 0.0 && loop != [] && Mergeable(cylinder, loop, tau) && IsSeam(loop, e)
    requires PartOf(cylinder, loop, tau, part)
    ensures e in part.gone
  {
    hide Mergeable, IsSeam, RunsAre, RunsOf;
    var merged :| MergeOf(loop, tau, merged) && part == Part(merged.runs, set d | d in merged.seams);
  }

  lemma BothWaysFrom(face: SFace, e: nat, p: bool, q: bool)
    requires p != q && LoopsCount(face.loops, e, p) >= 1 && LoopsCount(face.loops, e, q) >= 1
    ensures BothWays(face, e)
  {
    hide LoopsCount;
  }

  lemma StaysNamed(plan: Plan, i: nat)
    requires |Users(plan, i)| == 2
    ensures SeamStays(plan, i) <==> PlaceOf(plan, Users(plan, i)[0]) == PlaceOf(plan, Users(plan, i)[1])
  {
    hide Users, PlaceOf;
  }

  /** The faces of an edge's two fins are one if and only if a face uses the edge both ways. */
  lemma SeamStaysIff(m: Seamed, tau: real, plan: Plan, i: nat)
    requires tau > 0.0 && Sound(m, tau, plan) && i < |plan.keptEdges|
    ensures SeamStays(plan, i) <==> exists f :: 0 <= f < |m.faces| && BothWays(m.faces[f], plan.keptEdges[i])
  {
    hide *;
    SoundParts(m, tau, plan);
    TwoUsers(m, tau, plan, i);
    var on, fins, e := Users(plan, i), PlanFins(plan.runs, plan.edgeMap), plan.keptEdges[i];
    UserIs(m, tau, plan, i, on[0]);
    UserIs(m, tau, plan, i, on[1]);
    StaysNamed(plan, i);
    if PlaceOf(plan, on[0]) == PlaceOf(plan, on[1]) {
      BothWaysFrom(m.faces[PlaceOf(plan, on[0])], e, fins[on[0]].forward, fins[on[1]].forward);
    }
    KeptIs(|m.edges|, plan.removed, plan.edgeMap, plan.keptEdges, i);
    if f :| 0 <= f < |m.faces| && BothWays(m.faces[f], e) {
      OnePlace(m, e, f, PlaceOf(plan, on[0]), fins[on[0]].forward);
      OnePlace(m, e, f, PlaceOf(plan, on[1]), fins[on[1]].forward);
    }
  }

  /** An edge has its use in one sense in one face. */
  lemma OnePlace(m: Seamed, e: nat, f: nat, g: nat, forward: bool)
    requires Accounted(m) && e < |m.edges| && f < |m.faces| && g < |m.faces| && BothWays(m.faces[f], e)
    requires LoopsCount(m.faces[g].loops, e, forward) >= 1
    ensures f == g
  {
    hide LoopsCount, ModelCount, UsedIn, Owner;
    AccountedOnce(m, e);
    if f != g {
      ModelCountTwo(m.faces, f, g, e, forward);
    }
  }

  // ------------------------------------------------------------------ every edge closes

  /** Around every edge of the cell the shells close. */
  lemma EveryEdgeCloses(m: Seamed, tau: real, plan: Plan, i: nat)
    requires tau > 0.0 && Sound(m, tau, plan) && i < |plan.keptEdges|
    ensures |Around(m, plan, i)| == 2 && VerdictOf(Around(m, plan, i)) == Fine
  {
    hide *;
    SoundParts(m, tau, plan);
    TwoUsers(m, tau, plan, i);
    var on, fins := Users(plan, i), PlanFins(plan.runs, plan.edgeMap);
    UserIs(m, tau, plan, i, on[0]);
    UserIs(m, tau, plan, i, on[1]);
    SameOwner(m, plan.keptEdges[i], PlaceOf(plan, on[0]), PlaceOf(plan, on[1]));
    AroundIs(m, plan, i);
    TwoClose(Around(m, plan, i));
  }

  lemma SameOwner(m: Seamed, e: nat, f: nat, g: nat)
    requires Accounted(m) && f < |m.faces| && g < |m.faces| && UsedIn(m.faces[f], e) && UsedIn(m.faces[g], e)
    ensures Owner(m.shells, f) == Owner(m.shells, g)
  {
    hide ModelCount, UsedIn, Owner;
  }

  lemma AroundIs(m: Seamed, plan: Plan, i: nat)
    requires |Users(plan, i)| == 2
    requires var on := Users(plan, i); Owner(m.shells, PlaceOf(plan, on[0])) == Owner(m.shells, PlaceOf(plan, on[1]))
    requires var on, fins := Users(plan, i), PlanFins(plan.runs, plan.edgeMap);
      on[0] < |fins| && on[1] < |fins| && fins[on[0]].forward != fins[on[1]].forward
    ensures var r := Around(m, plan, i);
      |r| == 2 && r[0].front == r[1].front && r[0].back == r[1].back && r[0].forward != r[1].forward
  {
    hide Users, PlaceOf, Owner, Twin, PlanFins;
  }

  lemma TwoClose(r: seq<RadialFin>)
    requires |r| == 2 && r[0].front == r[1].front && r[0].back == r[1].back && r[0].forward != r[1].forward
    ensures VerdictOf(r) == Fine
  {
    assert Next(2, 0) == 1 && Next(2, 1) == 0;
  }
}

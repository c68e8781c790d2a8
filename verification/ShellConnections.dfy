/** Which faces of a shell meet along an edge, before and after the conversion: the searches for connected shells see
    the same faces. */
module ShellConnections {
  import opened SeamRuns
  import opened CellModel
  import opened CellConversion
  import opened CellChecks
  import opened ConversionAccepted
  import opened CellEuler
  import CellValidator

  /** Two faces of the model use one edge. */
  ghost predicate Meet(m: Seamed, f: nat, g: nat)
    requires f < |m.faces| && g < |m.faces|
  {
    exists e :: UsedIn(m.faces[f], e) && UsedIn(m.faces[g], e)
  }

  /** Two faces of the cell have fins of one edge. */
  ghost predicate CellMeet(c: CellData, f: nat, g: nat) {
    exists i: nat :: i < |c.edges| && FaceUses(c, f, i) && FaceUses(c, g, i)
  }

  /** The other faces of the list that a face meets: the seamed validator's adjacency. */
  ghost function Neighbours(m: Seamed, s: seq<nat>): map<nat, set<nat>>
    requires AllBelow(s, |m.faces|)
  {
    map f | f in s :: set g | g in s && g != f && Meet(m, f, g)
  }

  /** The cell validator's. */
  ghost function CellNeighbours(c: CellData, s: seq<nat>): map<nat, set<nat>> {
    map f | f in s :: set g | g in s && g != f && CellMeet(c, f, g)
  }

  /** An edge that two faces use is kept: a lost one is used in one face alone. */
  lemma SharedIsKept(c: CellData, m: Seamed, tau: real, plan: Plan, f: nat, g: nat, e: nat)
    requires tau > 0.0 && Good(c, m, tau, plan) && SimplePlan(m, plan) && f < |m.faces| && g < |m.faces| && f != g
    requires UsedIn(m.faces[f], e) && UsedIn(m.faces[g], e)
    ensures e in plan.edgeMap && plan.edgeMap[e] < |c.edges|
  {
    hide *;
    GoodSizes(c, m, tau, plan);
    GoodPlan(c, m, tau, plan);
    UsedBelow(m, f, e);
    if e in plan.removed {
      RemovedIsGone(plan, e);
      var h :| 0 <= h < |plan.gone| && e in plan.gone[h];
      OnlyOneFace(m, plan, h, e, f);
      OnlyOneFace(m, plan, h, e, g);
    }
    KeptIff(|m.edges|, plan.removed, plan.edgeMap, plan.keptEdges, e);
    if e in plan.edgeMap {
      NumberOf(|m.edges|, plan.removed, plan.edgeMap, plan.keptEdges, e);
    }
  }

  lemma UsedBelow(m: Seamed, f: nat, e: nat)
    requires ValidSeamed(m) && f < |m.faces| && UsedIn(m.faces[f], e)
    ensures e < |m.edges|
  {
    hide Owners, VertexInUse, EdgeInUse;
    assert GoodFace(m, m.faces[f]);
  }

  lemma RemovedIsGone(plan: Plan, e: nat)
    requires RemovedIs(plan.runs, plan.gone, plan.removed) && e in plan.removed
    ensures exists h :: 0 <= h < |plan.gone| && e in plan.gone[h]
  {
    hide UsedBy;
  }

  lemma OnlyOneFace(m: Seamed, plan: Plan, h: nat, e: nat, f: nat)
    requires SimplePlan(m, plan) && h < |plan.gone| && e in plan.gone[h] && f < |m.faces| && UsedIn(m.faces[f], e)
    ensures f == h
  {
    hide InRuns, UsedIn;
    assert SimpleFace(m, h, plan.runs[h], plan.gone[h]);
  }

  /** Different faces meet in the cell exactly if they meet in the model. */
  lemma MeetsKept(c: CellData, m: Seamed, tau: real, plan: Plan, f: nat, g: nat)
    requires tau > 0.0 && Good(c, m, tau, plan) && SimplePlan(m, plan) && f < |m.faces| && g < |m.faces| && f != g
    ensures CellMeet(c, f, g) <==> Meet(m, f, g)
  {
    hide *;
    GoodSizes(c, m, tau, plan);
    if Meet(m, f, g) {
      var e := SharedEdge(m, f, g);
      SharedIsKept(c, m, tau, plan, f, g, e);
      FaceUsesEdge(c, m, tau, plan, f, e);
      FaceUsesEdge(c, m, tau, plan, g, e);
      MeetAt(c, f, g, plan.edgeMap[e]);
    }
    if CellMeet(c, f, g) {
      var i := CellShares(c, f, g);
      KeptIs(|m.edges|, plan.removed, plan.edgeMap, plan.keptEdges, i);
      FaceUsesEdge(c, m, tau, plan, f, plan.keptEdges[i]);
      FaceUsesEdge(c, m, tau, plan, g, plan.keptEdges[i]);
      SharesAt(m, f, g, plan.keptEdges[i]);
    }
  }

  lemma SharedEdge(m: Seamed, f: nat, g: nat) returns (e: nat)
    requires f < |m.faces| && g < |m.faces| && Meet(m, f, g)
    ensures UsedIn(m.faces[f], e) && UsedIn(m.faces[g], e)
  {
    hide UsedIn;
    e :| UsedIn(m.faces[f], e) && UsedIn(m.faces[g], e);
  }

  lemma SharesAt(m: Seamed, f: nat, g: nat, e: nat)
    requires f < |m.faces| && g < |m.faces| && UsedIn(m.faces[f], e) && UsedIn(m.faces[g], e)
    ensures Meet(m, f, g)
  {
    hide UsedIn;
  }

  lemma CellShares(c: CellData, f: nat, g: nat) returns (i: nat)
    requires CellMeet(c, f, g)
    ensures i < |c.edges| && FaceUses(c, f, i) && FaceUses(c, g, i)
  {
    hide FaceUses;
    i :| i < |c.edges| && FaceUses(c, f, i) && FaceUses(c, g, i);
  }

  lemma MeetAt(c: CellData, f: nat, g: nat, i: nat)
    requires i < |c.edges| && FaceUses(c, f, i) && FaceUses(c, g, i)
    ensures CellMeet(c, f, g)
  {
    hide FaceUses;
  }

  /** A shell is as connected in the cell as in the model: the two validators' searches go along the same adjacency,
      and reach the same faces. */
  lemma ConnectionKept(c: CellData, m: Seamed, tau: real, plan: Plan, s: seq<nat>, f: nat, g: nat)
    requires tau > 0.0 && Good(c, m, tau, plan) && SimpleSeams(m, tau) && AllBelow(s, |m.faces|)
    ensures CellNeighbours(c, s) == Neighbours(m, s)
    ensures CellValidator.Reachable(CellNeighbours(c, s), f, g) <==> CellValidator.Reachable(Neighbours(m, s), f, g)
  {
    GoodPlan(c, m, tau, plan);
    PlanIsSimple(m, tau, plan);
    hide Good, SimpleSeams, SimplePlan, Meet, CellMeet, PlanOf, ValidSeamed, PlanFits, Converted,
         CellValidator.Reachable;
    forall x, y | x in s && y in s && x != y
      ensures CellMeet(c, x, y) <==> Meet(m, x, y)
    {
      MeetsKept(c, m, tau, plan, x, y);
    }
    assert CellNeighbours(c, s).Keys == Neighbours(m, s).Keys;
    forall x | x in s
      ensures CellNeighbours(c, s)[x] == Neighbours(m, s)[x]
    {
    }
  }
}

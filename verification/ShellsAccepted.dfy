/** The checks on whole shells: connected faces, links that hang together, and the Euler count. A converted shell passes
    them exactly if its seamed one does. */
module ShellsAccepted {
  import opened SeamRuns
  import opened CellModel
  import opened CellConversion
  import opened CellChecks
  import opened ConversionAccepted
  import opened ClosedRuns
  import opened Acceptance
  import opened CellEuler
  import opened AccountedModels
  import opened AcceptedModels
  import opened ShellConnections
  import opened VertexLinks
  import CellValidator

  /** A search from the first face along these neighbours reaches all. */
  ghost predicate AllReached(next: map<nat, set<nat>>, s: seq<nat>) {
    forall x :: x in s ==> CellValidator.Reachable(next, s[0], x)
  }

  /** An Euler count of a closed surface. */
  predicate Closes(chi: int) {
    chi % 2 == 0 && chi <= 2
  }

  /** That is the count of a closed surface of some number of handles. */
  lemma ClosesIff(chi: int)
    ensures Closes(chi) <==> exists handles: nat :: chi == Handled(handles)
  {
    if Closes(chi) {
      assert chi == Handled((2 - chi) / 2);
    }
  }

  function Handled(handles: nat): int {
    2 - 2 * handles
  }

  /** None of `disconnected_shell`, `non_manifold_vertex` at a kept vertex, and `euler`. */
  ghost predicate ShellPasses(m: Seamed, plan: Plan, s: seq<nat>)
    requires AllBelow(s, |m.faces|)
  {
    && AllReached(Neighbours(m, s), s) && (forall v :: v in plan.vertexMap ==> !Pinched(Links(m, s, v)))
    && Closes(SeamedChi(m, s))
  }

  ghost predicate CellShellPasses(c: CellData, s: seq<nat>)
    requires AllBelow(s, |c.faces|)
  {
    && AllReached(CellNeighbours(c, s), s) && (forall w :: 0 <= w < |c.vertices| ==> !Pinched(CellLinks(c, s, w)))
    && Closes(CellChi(c, s))
  }

  lemma ReachedKept(c: CellData, m: Seamed, tau: real, plan: Plan, s: seq<nat>)
    requires tau > 0.0 && Good(c, m, tau, plan) && SimpleSeams(m, tau) && AllBelow(s, |m.faces|)
    ensures AllReached(CellNeighbours(c, s), s) <==> AllReached(Neighbours(m, s), s)
  {
    hide *;
    ConnectionKept(c, m, tau, plan, s, 0, 0);
  }

  lemma NumberedVertex(n: nat, drop: set<nat>, vertexMap: map<nat, nat>, kept: seq<nat>)
    requires Renumbered(n, drop, vertexMap, kept)
    ensures forall v :: v in vertexMap ==> vertexMap[v] < |kept|
    ensures forall w :: 0 <= w < |kept| ==> kept[w] in vertexMap && vertexMap[kept[w]] == w
  {
  }

  lemma LinksKept(c: CellData, m: Seamed, tau: real, plan: Plan, s: seq<nat>)
    requires tau > 0.0 && Good(c, m, tau, plan) && SimpleSeams(m, tau) && ClosedLoops(m) && AllBelow(s, |m.faces|)
    requires forall v :: v in plan.vertexMap ==> SeamsLeave(m, plan, v)
    ensures (forall w :: 0 <= w < |c.vertices| ==> !Pinched(CellLinks(c, s, w))) <==>
            forall v :: v in plan.vertexMap ==> !Pinched(Links(m, s, v))
  {
    hide *;
    GoodSizes(c, m, tau, plan);
    NumberedVertex(|m.vertices|, plan.drop, plan.vertexMap, plan.keptVertices);
    forall v | v in plan.vertexMap
      ensures Pinched(Links(m, s, v)) <==> Pinched(CellLinks(c, s, plan.vertexMap[v]))
    {
      VertexLinksKept(c, m, tau, plan, s, v);
    }
    if forall v :: v in plan.vertexMap ==> !Pinched(Links(m, s, v)) {
      forall w | 0 <= w < |c.vertices|
        ensures !Pinched(CellLinks(c, s, w))
      {
        assert plan.vertexMap[plan.keptVertices[w]] == w;
      }
    }
  }

  /** Where loops close, seams are one to a loop and lead from one vertex to another, and each dropped vertex lies on
      one ring edge, the checks on shell k say of the cell what they say of the model. */
  lemma ShellPassesKept(c: CellData, m: Seamed, tau: real, plan: Plan, k: nat)
    requires tau > 0.0 && Good(c, m, tau, plan) && SimpleSeams(m, tau) && ClosedLoops(m) && k < |m.shells|
    requires forall v :: v in plan.vertexMap ==> SeamsLeave(m, plan, v)
    ensures AllBelow(m.shells[k], |m.faces|) && AllBelow(m.shells[k], |c.faces|)
    ensures OneRingEach(m, plan, m.shells[k]) ==>
      (CellShellPasses(c, m.shells[k]) <==> ShellPasses(m, plan, m.shells[k]))
  {
    hide *;
    EulerCountKept(c, m, tau, plan, k);
    var s := m.shells[k];
    ReachedKept(c, m, tau, plan, s);
    LinksKept(c, m, tau, plan, s);
    if OneRingEach(m, plan, s) {
      PassesFrom(c, m, plan, s);
    }
  }

  lemma PassesFrom(c: CellData, m: Seamed, plan: Plan, s: seq<nat>)
    requires AllBelow(s, |m.faces|) && AllBelow(s, |c.faces|) && CellChi(c, s) == SeamedChi(m, s)
    requires AllReached(CellNeighbours(c, s), s) <==> AllReached(Neighbours(m, s), s)
    requires (forall w :: 0 <= w < |c.vertices| ==> !Pinched(CellLinks(c, s, w))) <==>
             forall v :: v in plan.vertexMap ==> !Pinched(Links(m, s, v))
    ensures CellShellPasses(c, s) <==> ShellPasses(m, plan, s)
  {
    hide AllReached, Pinched, CellChi, SeamedChi, Closes;
  }

  /** The conversion's own cell of a regular model whose seams lead from one vertex to another: nothing is reported of
      it but that an empty model has no shell, and its shells pass exactly as the model's do. */
  lemma RegularShells(m: Seamed, tau: real, plan: Plan, k: nat)
    requires tau > 0.0 && Regular(m, tau, plan) && (m.kind == Solid || m.kind == ClosedShell) && k < |m.shells|
    requires forall v :: v in plan.vertexMap ==> SeamsLeave(m, plan, v)
    ensures forall x :: !Raises(CellOf(m, plan), x)
    ensures AllBelow(m.shells[k], |m.faces|) && AllBelow(m.shells[k], |CellOf(m, plan).faces|)
    ensures CellShellPasses(CellOf(m, plan), m.shells[k]) <==> ShellPasses(m, plan, m.shells[k])
  {
    hide *;
    RegularParts(m, tau, plan);
    CellIsConverted(m, plan);
    GoodFrom(CellOf(m, plan), m, tau, plan);
    forall x
      ensures !Raises(CellOf(m, plan), x)
    {
      ConversionIsAccepted(m, tau, plan, x);
      AcceptedOutright(m, tau, plan, x);
    }
    ShellSingle(m, plan, k);
    ShellPassesKept(CellOf(m, plan), m, tau, plan, k);
  }
}

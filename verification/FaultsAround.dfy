/** Faults are found, continued: the shells around an edge, and the cells all this is about. */
module FaultsAround {
  import opened Basics
  import opened SeamRuns
  import opened CellModel
  import opened CellChecks
  import opened RadialOrder
  import opened FaultsFound
  import opened FaultsInFaces
  import opened CellConversion
  import Acceptance
  import AcceptedModels

  lemma CleanOwned(c: CellData)
    requires Clean(c)
    ensures Owned(c) && Regions(c) && GoodReferences(c)
  {
    OwnedOnce(c);
    CleanRefers(c);
    RegionsOf(c);
    hide Raises, GoodReferences, FinCount, LoopCount;
  }

  lemma {:induction false} AllUsable(c: CellData, fins: seq<nat>)
    requires forall j :: 0 <= j < |fins| ==> Usable(c, fins[j])
    ensures UsableOf(c, fins) == fins
  {
    hide Usable;
    if fins != [] {
      var k := |fins| - 1;
      AllUsable(c, fins[..k]);
      assert fins == fins[..k] + [fins[k]];
    }
  }

  lemma CleanUsable(c: CellData, k: nat)
    requires Clean(c) && k < |c.fins|
    ensures Usable(c, k)
  {
    CleanOwned(c);
    FaceOfFin(c, k);
    hide Raises, GoodReferences, Owned, FinFace, InFace, Regions;
    SidesListed(c, FinFace(c, k).value);
  }

  /** The fins of a clean cell's edge. */
  lemma CleanUsers(c: CellData, i: nat)
    requires Clean(c) && i < |c.edges|
    ensures multiset(c.edges[i].fins) == multiset(FinsOn(c.fins, i))
    ensures forall k: nat :: k in c.edges[i].fins <==> k < |c.fins| && c.fins[k].edge == i
    ensures forall j, k :: 0 <= j < k < |c.edges[i].fins| ==> c.edges[i].fins[j] != c.edges[i].fins[k]
  {
    var fins, on := c.edges[i].fins, FinsOn(c.fins, i);
    CleanParts(c, EdgeFinsMismatch(i));
    hide Raises, GoodReferences, FinsOn;
    forall k: nat
      ensures k in fins <==> k < |c.fins| && c.fins[k].edge == i
    {
      FinsOnIs(c.fins, i, k);
      assert k in fins <==> k in multiset(fins);
      assert k in on <==> k in multiset(on);
    }
    OnceEach(c, i);
  }

  lemma NotAround(c: CellData, x: Issue)
    requires Clean(c)
    ensures !AroundIssue(c, x)
  {
    CleanParts(c, x);
    hide *;
  }

  lemma NoAccount(c: CellData, i: nat)
    requires i < |c.edges| && multiset(c.edges[i].fins) == multiset(FinsOn(c.fins, i))
    requires c.edges[i].fins != [] && UsableOf(c, c.edges[i].fins) == c.edges[i].fins
    requires !AroundIssue(c, EdgeAccount(i, VerdictOf(RadialOf(c, c.edges[i].fins))))
    ensures Closes(RadialOf(c, c.edges[i].fins))
  {
    hide FinsOn, RadialOf, UsableOf, Closes, OnePair;
  }

  /** They close around it. */
  lemma CleanCloses(c: CellData, i: nat)
    requires Clean(c) && i < |c.edges|
    ensures UsableOf(c, c.edges[i].fins) == c.edges[i].fins && Closes(RadialOf(c, c.edges[i].fins))
  {
    hide *;
    var fins := c.edges[i].fins;
    CleanUsers(c, i);
    forall j | 0 <= j < |fins|
      ensures Usable(c, fins[j])
    {
      assert fins[j] in fins;
      CleanUsable(c, fins[j]);
    }
    AllUsable(c, fins);
    if fins == [] {
      NoneCloses(RadialOf(c, fins));
    } else {
      NotAround(c, EdgeAccount(i, VerdictOf(RadialOf(c, fins))));
      NoAccount(c, i);
    }
  }

  lemma NoneCloses(fins: seq<RadialFin>)
    requires fins == []
    ensures Closes(fins)
  {
  }

  lemma OnceEach(c: CellData, i: nat)
    requires i < |c.edges| && multiset(c.edges[i].fins) == multiset(FinsOn(c.fins, i))
    ensures forall j, k :: 0 <= j < k < |c.edges[i].fins| ==> c.edges[i].fins[j] != c.edges[i].fins[k]
  {
    hide FinsOn;
    var fins, on := c.edges[i].fins, FinsOn(c.fins, i);
    forall j, k | 0 <= j < k < |fins|
      ensures fins[j] != fins[k]
    {
      if fins[j] == fins[k] {
        TwiceIn(fins, j, k);
        NoneTwice(c.fins, i, fins[j]);
      }
    }
  }

  lemma TwiceIn(s: seq<nat>, j: nat, k: nat)
    requires j < k < |s| && s[j] == s[k]
    ensures multiset(s)[s[j]] >= 2
  {
    assert s == s[..j] + [s[j]] + s[j + 1..k] + [s[k]] + s[k + 1..];
  }

  lemma {:induction false} NoneTwice(fins: seq<Fin>, i: nat, k: nat)
    ensures multiset(FinsOn(fins, i))[k] <= 1
  {
    if fins != [] {
      NoneTwice(fins[..|fins| - 1], i, k);
      FinsOnIs(fins[..|fins| - 1], i, |fins| - 1);
      if k == |fins| - 1 {
        assert k !in FinsOn(fins[..|fins| - 1], i);
        assert k !in multiset(FinsOn(fins[..|fins| - 1], i));
      }
    }
  }

  lemma {:induction false} SameFaceFrom(c: CellData, d: CellData, k: nat, f: nat)
    requires c.loops == d.loops && |c.faces| == |d.faces|
    requires forall g :: 0 <= g < |c.faces| ==> c.faces[g].loops == d.faces[g].loops
    ensures FaceFrom(c, k, f) == FaceFrom(d, k, f)
    decreases |c.faces| - f
  {
    if f < |c.faces| {
      assert FaceHas(c, c.faces[f], k) <==> FaceHas(d, d.faces[f], k);
      SameFaceFrom(c, d, k, f + 1);
    }
  }

  lemma {:induction false} SameFinsOn(a: seq<Fin>, b: seq<Fin>, i: nat)
    requires |a| == |b| && forall k :: 0 <= k < |a| ==> a[k].edge == b[k].edge
    ensures FinsOn(a, i) == FinsOn(b, i)
  {
    if a != [] {
      SameFinsOn(a[..|a| - 1], b[..|b| - 1], i);
    }
  }

  lemma RaisesAccount(c: CellData, i: nat, v: Verdict, fins: seq<nat>)
    requires GoodReferences(c) && i < |c.edges| && fins == UsableOf(c, c.edges[i].fins) && fins != []
    requires multiset(c.edges[i].fins) == multiset(FinsOn(c.fins, i))
    ensures Raises(c, EdgeAccount(i, v)) <==> v != Fine && v == VerdictOf(RadialOf(c, fins))
  {
    RaisesAround(c, EdgeAccount(i, v));
    hide GoodReferences, Raises, FinsOn, RadialOf, UsableOf, Closes, OnePair, VerdictOf;
  }

  ghost function FinTurned(c: CellData, k: nat): CellData
    requires k < |c.fins|
  {
    c.(fins := c.fins[k := c.fins[k].(forward := !c.fins[k].forward)])
  }

  lemma TurnedStill(c: CellData, k: nat, i: nat)
    requires Clean(c) && k < |c.fins| && i < |c.edges|
    ensures var d := FinTurned(c, k);
      && GoodReferences(d) && FinsOn(d.fins, i) == FinsOn(c.fins, i)
      && UsableOf(d, c.edges[i].fins) == c.edges[i].fins
  {
    CleanOwned(c);
    var d := FinTurned(c, k);
    StillRefers(c, d);
    SameFinsOn(c.fins, d.fins, i);
    CleanUsers(c, i);
    hide GoodReferences, Raises, Owned, FinsOn, Clean, FinCount, LoopCount, Listing, UsableOf, FaceFrom;
    var fins := c.edges[i].fins;
    forall j | 0 <= j < |fins|
      ensures Usable(d, fins[j])
    {
      assert fins[j] in fins;
      CleanUsable(c, fins[j]);
      SameFaceFrom(c, d, fins[j], 0);
    }
    AllUsable(d, fins);
  }

  lemma TurnedRadial(c: CellData, k: nat, fins: seq<nat>, p: nat)
    requires p < |fins| && fins[p] == k < |c.fins| && FinFace(c, k).Some? && FinFace(c, k).value < |c.faces|
    requires forall j :: 0 <= j < |fins| && j != p ==> fins[j] != k
    ensures var r := RadialOf(c, fins); RadialOf(FinTurned(c, k), fins) == r[p := Turned(r[p])]
  {
    hide FaceFrom;
    var d, r := FinTurned(c, k), RadialOf(c, fins);
    forall j | 0 <= j < |fins|
      ensures RadialOf(d, fins)[j] == r[p := Turned(r[p])][j]
    {
      SameFaceFrom(c, d, fins[j], 0);
    }
  }

  /** What the accounting says of an edge once one of its fins is turned round: nothing if the fin's face has one shell
      on both sides, else by the pairs, the number of fins and the first two faces. */
  ghost function AfterTurn(c: CellData, fins: seq<nat>, face: CFace): Verdict
    requires fins != []
  {
    var r := RadialOf(c, fins);
    if face.front == face.back then Fine
    else if !SamePair(r) then EdgeAcrossShells
    else if |r| > 2 then NonManifoldEdge
    else if r[0].front == r[|r| - 1].front then SameSenseUses
    else RadialOrderInconsistent
  }

  /** Any fin of a clean cell turned round is found. */
  lemma TurnFoundAround(c: CellData, f: nat, k: nat, v: Verdict)
    requires Clean(c) && Regions(c) && f < |c.faces| && k < |c.fins| && InFace(c, f, k)
    ensures var i := c.fins[k].edge;
      && i < |c.edges| && c.edges[i].fins != []
      && (Raises(FinTurned(c, k), EdgeAccount(i, v)) <==>
          v != Fine && v == AfterTurn(c, c.edges[i].fins, c.faces[f]))
  {
    hide *;
    var i := c.fins[k].edge;
    CleanOwned(c);
    FinEdge(c, k);
    CleanUsers(c, i);
    CleanCloses(c, i);
    TurnedStill(c, k, i);
    FinFaceIs(c, k, f);
    var fins := c.edges[i].fins;
    assert k in fins;
    var p :| 0 <= p < |fins| && fins[p] == k;
    TurnedRadial(c, k, fins, p);
    TurnedVerdict(RadialOf(c, fins), p);
    RadialSides(c, k, f, fins, p);
    AfterTurnIs(c, fins, c.faces[f]);
    SameEdges(c, k);
    RaisesAccount(FinTurned(c, k), i, v, fins);
  }

  lemma FinEdge(c: CellData, k: nat)
    requires GoodReferences(c) && k < |c.fins|
    ensures c.fins[k].edge < |c.edges|
  {
    Referred(c);
    hide GoodReferences;
  }

  lemma SameEdges(c: CellData, k: nat)
    requires k < |c.fins|
    ensures FinTurned(c, k).edges == c.edges
  {
  }

  lemma RadialSides(c: CellData, k: nat, f: nat, fins: seq<nat>, p: nat)
    requires p < |fins| && fins[p] == k < |c.fins| && FinFace(c, k) == Some(f) && f < |c.faces|
    ensures RadialOf(c, fins)[p].front == c.faces[f].front && RadialOf(c, fins)[p].back == c.faces[f].back
  {
    hide FaceFrom;
  }

  lemma AfterTurnIs(c: CellData, fins: seq<nat>, face: CFace)
    requires fins != []
    ensures var r := RadialOf(c, fins);
      AfterTurn(c, fins, face) ==
        if face.front == face.back then Fine
        else if !SamePair(r) then EdgeAcrossShells
        else if |r| > 2 then NonManifoldEdge
        else if r[0].front == r[|r| - 1].front then SameSenseUses
        else RadialOrderInconsistent
  {
    hide RadialOf, SamePair;
  }

  /** An edge whose own list of fins is wrong is left out of the accounting. */
  lemma MismatchExcused(c: CellData, i: nat, v: Verdict)
    requires Raises(c, EdgeFinsMismatch(i))
    ensures !Raises(c, EdgeAccount(i, v))
  {
    if GoodReferences(c) {
      RaisesEdge(c, EdgeFinsMismatch(i));
      RaisesAround(c, EdgeAccount(i, v));
    }
    hide GoodReferences, Raises, UsableOf, RadialOf, FinsOn;
    if !GoodReferences(c) {
      RaisesReference(c, EdgeFinsMismatch(i));
    }
  }

  // ------------------------------------------------------------------ faces left out

  ghost function FrontMoved(c: CellData, g: nat, front: nat): CellData
    requires g < |c.faces|
  {
    c.(faces := c.faces[g := c.faces[g].(front := front)])
  }

  lemma UsableMoved(c: CellData, g: nat, front: nat, f: nat, k: nat)
    requires Clean(c) && Regions(c) && g < |c.faces| && front != c.faces[g].front
    requires f < |c.faces| && k < |c.fins| && InFace(c, f, k)
    ensures Usable(FrontMoved(c, g, front), k) <==> f != g
    ensures FinFace(FrontMoved(c, g, front), k) == Some(f)
  {
    CleanOwned(c);
    FinFaceIs(c, k, f);
    SidesListed(c, f);
    hide GoodReferences, Raises, Owned, FaceFrom, InFace, Listing;
    SameFaceFrom(c, FrontMoved(c, g, front), k, 0);
  }

  lemma MovedRefers(c: CellData, g: nat, front: nat)
    requires Clean(c) && g < |c.faces| && front < |c.shells|
    ensures GoodReferences(FrontMoved(c, g, front))
  {
    CleanRefers(c);
    assert !BadReference(c, FaceReference(g));
    StillRefers(c, FrontMoved(c, g, front));
    hide GoodReferences, Raises;
  }

  lemma UsableOne(c: CellData, fins: seq<nat>, k: nat, l: nat)
    requires fins == [k, l] || fins == [l, k]
    requires Usable(c, k) && !Usable(c, l)
    ensures UsableOf(c, fins) == [k]
  {
    hide Usable;
    assert fins[..1] == [fins[0]] && fins[..1][..0] == [];
    assert UsableOf(c, fins[..1][..0]) == [];
  }

  lemma OneRadial(c: CellData, k: nat, f: nat)
    requires k < |c.fins| && FinFace(c, k) == Some(f) && f < |c.faces|
    ensures VerdictOf(RadialOf(c, [k])) == if c.faces[f].front == c.faces[f].back then Fine else FreeEdge
  {
    hide FaceFrom;
    var r := RadialOf(c, [k]);
    Verdicts(r);
    FewFins(r);
  }

  /** A face whose sides are wrong leaves the accounting, and so an edge it shares with one other face free, where that
      face has two different shells. */
  lemma FreeFound(c: CellData, f: nat, g: nat, k: nat, l: nat, front: nat, v: Verdict)
    requires Clean(c) && Regions(c) && f < |c.faces| && g < |c.faces| && f != g && k < |c.fins| && l < |c.fins|
    requires InFace(c, f, k) && InFace(c, g, l) && front < |c.shells| && front != c.faces[g].front
    requires c.fins[k].edge < |c.edges| && multiset(c.edges[c.fins[k].edge].fins) == multiset{k, l}
    ensures Raises(FrontMoved(c, g, front), EdgeAccount(c.fins[k].edge, v)) <==>
      v == FreeEdge && c.faces[f].front != c.faces[f].back
  {
    hide *;
    var i, d := c.fins[k].edge, FrontMoved(c, g, front);
    CleanUsers(c, i);
    MovedRefers(c, g, front);
    UsableMoved(c, g, front, f, k);
    UsableMoved(c, g, front, g, l);
    TwoListed(c.edges[i].fins, k, l);
    UsableOne(d, c.edges[i].fins, k, l);
    OnlyFaces(c, g, front, f);
    OneRadial(d, k, f);
    RaisesAccount(d, i, v, [k]);
  }

  lemma OnlyFaces(c: CellData, g: nat, front: nat, f: nat)
    requires g < |c.faces| && f < |c.faces| && f != g
    ensures var d := FrontMoved(c, g, front);
      d.edges == c.edges && d.fins == c.fins && |d.faces| == |c.faces| && d.faces[f] == c.faces[f]
  {
  }

  lemma TwoListed(s: seq<nat>, k: nat, l: nat)
    requires multiset(s) == multiset{k, l}
    ensures s == [k, l] || s == [l, k]
  {
    assert |s| == |multiset(s)| == 2;
    assert s == [s[0], s[1]];
    assert multiset(s) == multiset{s[0], s[1]};
    assert k in multiset(s) && l in multiset(s);
    if s[0] == k {
      assert multiset(s) - multiset{k} == multiset{s[1]} && multiset{k, l} - multiset{k} == multiset{l};
      assert s[1] in multiset{l};
    } else {
      assert s[1] == k;
      assert multiset(s) - multiset{k} == multiset{s[0]} && multiset{k, l} - multiset{k} == multiset{l};
      assert s[0] in multiset{l};
    }
  }

  // ------------------------------------------------------------------ cells of models

  /** The cell of a regular model with a shell is clean. */
  lemma RegularIsClean(m: Seamed, tau: real, plan: Plan)
    requires tau > 0.0 && AcceptedModels.Regular(m, tau, plan) && m.shells != []
    requires m.kind == Solid || m.kind == ClosedShell
    ensures Clean(CellOf(m, plan))
  {
    hide *;
    AcceptedModels.RegularParts(m, tau, plan);
    forall x
      ensures !Raises(CellOf(m, plan), x)
    {
      Acceptance.ConversionIsAccepted(m, tau, plan, x);
      AcceptedModels.AcceptedOutright(m, tau, plan, x);
    }
    NothingRaised(CellOf(m, plan));
  }

  lemma NothingRaised(c: CellData)
    requires forall x :: !Raises(c, x)
    ensures Clean(c)
  {
    hide Raises;
  }

  /** In it, other windings of any one loop are reported, whatever the number of turns. */
  lemma RegularWindingFound(m: Seamed, tau: real, plan: Plan, f: nat, j: nat, turns: int)
    requires tau > 0.0 && AcceptedModels.Regular(m, tau, plan) && m.shells != []
    requires m.kind == Solid || m.kind == ClosedShell
    requires f < |CellOf(m, plan).faces| && j < |CellOf(m, plan).faces[f].loops| && turns != 0
    requires CellOf(m, plan).faces[f].surface.kind == Cylinder
    ensures var c := CellOf(m, plan);
      var l := c.faces[f].loops[j];
      && l < |c.loops|
      && (c.loops[l].vertex.None? ==>
          ReportsWinding(Rewound(c, l, c.loops[l].winding + turns, c.loops[l].windingV), f))
  {
    hide *;
    AcceptedModels.RegularParts(m, tau, plan);
    RegularIsClean(m, tau, plan);
    CylinderWindingFound(CellOf(m, plan), f, j, turns);
  }

  lemma CylinderWindingFound(c: CellData, f: nat, j: nat, turns: int)
    requires Clean(c) && f < |c.faces| && j < |c.faces[f].loops| && turns != 0
    requires c.faces[f].surface.kind == Cylinder
    ensures var l := c.faces[f].loops[j];
      && l < |c.loops|
      && (c.loops[l].vertex.None? ==>
          ReportsWinding(Rewound(c, l, c.loops[l].winding + turns, c.loops[l].windingV), f))
  {
    CleanRefers(c);
    RegionsOf(c);
    hide Raises, GoodReferences, ReportsWinding;
    var l := c.faces[f].loops[j];
    WindingFound(c, f, j, c.loops[l].winding + turns, c.loops[l].windingV);
  }
}

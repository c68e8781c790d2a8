/** Where the fins of a converted cell stand: in order, face by face, each in the face its use was kept in. */
module FinPlaces {
  import opened Basics
  import opened SeamRuns
  import opened CellModel
  import opened CellConversion
  import opened CellChecks

  // ------------------------------------------------------------------ the fins in order

  function RunFins(runs: seq<Run>, edgeMap: map<nat, nat>): seq<Fin> {
    if runs == [] then [] else RunFins(runs[..|runs| - 1], edgeMap) + FinsOf(runs[|runs| - 1].uses, edgeMap)
  }

  function PlanFins(runs: seq<seq<Run>>, edgeMap: map<nat, nat>): seq<Fin> {
    if runs == [] then [] else PlanFins(runs[..|runs| - 1], edgeMap) + RunFins(runs[|runs| - 1], edgeMap)
  }

  /** The face of each fin. */
  function Places(runs: seq<seq<Run>>, edgeMap: map<nat, nat>): (r: seq<nat>)
    ensures |r| == |PlanFins(runs, edgeMap)|
  {
    if runs == [] then []
    else
      var n := |runs| - 1;
      Places(runs[..n], edgeMap) + Copies(|RunFins(runs[n], edgeMap)|, n)
  }

  lemma {:induction false} RunsFins(c: CellData, runs: seq<Run>, edgeMap: map<nat, nat>)
    ensures WithRuns(c, runs, edgeMap).fins == c.fins + RunFins(runs, edgeMap)
  {
    if runs != [] {
      RunsFins(c, runs[..|runs| - 1], edgeMap);
    }
  }

  lemma {:induction false} FacesFins(c: CellData, m: Seamed, plan: Plan, n: nat)
    requires n <= |m.faces| == |plan.runs| && c.fins == []
    ensures WithFaces(c, m, plan, n).fins == PlanFins(plan.runs[..n], plan.edgeMap)
  {
    hide Twin, Owner, RunFins, WithRuns;
    if n > 0 {
      FacesFins(c, m, plan, n - 1);
      assert plan.runs[..n][..n - 1] == plan.runs[..n - 1];
      RunsFins(WithFaces(c, m, plan, n - 1), plan.runs[n - 1], plan.edgeMap);
    }
  }

  // ------------------------------------------------------------------ which loops hold them

  /** Some loop from number `first` on, of n, lists fin k. */
  predicate LoopsHold(c: CellData, first: nat, n: nat, k: nat) {
    exists l :: first <= l < first + n && l < |c.loops| && k in c.loops[l].fins
  }

  lemma RunHolds(c: CellData, run: Run, edgeMap: map<nat, nat>, first: nat, n: nat, k: nat)
    requires first + n == |c.loops|
    ensures var d := WithRun(c, run, edgeMap);
      LoopsHold(d, first, n + 1, k) <==> LoopsHold(c, first, n, k) || |c.fins| <= k < |d.fins|
  {
    var d := WithRun(c, run, edgeMap);
    var last := d.loops[|c.loops|];
    assert last.fins == Interval(|c.fins|, |run.uses|);
    if |c.fins| <= k < |d.fins| {
      assert last.fins[k - |c.fins|] == k;
    }
    if l :| first <= l < first + n && l < |c.loops| && k in c.loops[l].fins {
      assert d.loops[l] == c.loops[l];
    }
    if l :| first <= l < first + n + 1 && l < |d.loops| && k in d.loops[l].fins {
      if l < |c.loops| {
        assert d.loops[l] == c.loops[l];
      }
    }
  }

  lemma {:induction false} RunsHold(c: CellData, runs: seq<Run>, edgeMap: map<nat, nat>, k: nat)
    ensures var d := WithRuns(c, runs, edgeMap);
      && |d.loops| == |c.loops| + |runs| && d.loops[..|c.loops|] == c.loops && |c.fins| <= |d.fins|
      && (LoopsHold(d, |c.loops|, |runs|, k) <==> |c.fins| <= k < |d.fins|)
  {
    hide LoopsHold;
    if runs == [] {
      NoLoopsHold(c, k);
    } else {
      var n := |runs| - 1;
      RunsHold(c, runs[..n], edgeMap, k);
      RunHolds(WithRuns(c, runs[..n], edgeMap), runs[n], edgeMap, |c.loops|, n, k);
    }
  }

  lemma NoLoopsHold(c: CellData, k: nat)
    ensures !LoopsHold(c, |c.loops|, 0, k)
  {
  }

  lemma FaceHoldsInterval(c: CellData, face: CFace, first: nat, n: nat, k: nat)
    requires face.loops == Interval(first, n)
    ensures FaceHas(c, face, k) <==> LoopsHold(c, first, n, k)
  {
    if l :| first <= l < first + n && l < |c.loops| && k in c.loops[l].fins {
      assert face.loops[l - first] == l;
    }
  }

  lemma OldLoopsHold(c: CellData, d: CellData, face: CFace, k: nat)
    requires |c.loops| <= |d.loops| && d.loops[..|c.loops|] == c.loops && AllBelow(face.loops, |c.loops|)
    ensures FaceHas(d, face, k) <==> FaceHas(c, face, k)
  {
    forall j | 0 <= j < |face.loops|
      ensures d.loops[face.loops[j]] == c.loops[face.loops[j]]
    {
      assert d.loops[..|c.loops|][face.loops[j]] == c.loops[face.loops[j]];
    }
  }

  /** Face f has fin k exactly if that is the fin's place. */
  ghost predicate InItsFace(d: CellData, places: seq<nat>, f: nat, k: nat)
    requires f < |d.faces|
  {
    FaceHas(d, d.faces[f], k) <==> k < |places| && places[k] == f
  }

  /** The loops of the faces so far are the cell's, and each fin is in its face alone. */
  ghost predicate PlacedFins(d: CellData, places: seq<nat>, n: nat) {
    && |d.faces| == n && |places| == |d.fins|
    && (forall f :: 0 <= f < n ==> AllBelow(d.faces[f].loops, |d.loops|))
    && forall f: nat, k: nat :: f < n ==> InItsFace(d, places, f, k)
  }

  lemma FacePlaced(c: CellData, face: SFace, runs: seq<Run>, edgeMap: map<nat, nat>, front: nat, back: nat,
                   places: seq<nat>, n: nat)
    requires PlacedFins(c, places, n) && forall k :: 0 <= k < |places| ==> places[k] < n
    ensures PlacedFins(WithFace(c, face, runs, edgeMap, front, back), places + Copies(|RunFins(runs, edgeMap)|, n), n +
      1)
  {
    hide RunFins, FaceHas, LoopsHold, PlacedFins;
    PlacedParts(c, places, n);
    var d, all := WithFace(c, face, runs, edgeMap, front, back), places + Copies(|RunFins(runs, edgeMap)|, n);
    WithRunsEdges(c, runs, edgeMap);
    RunsFins(c, runs, edgeMap);
    RunsHold(c, runs, edgeMap, 0);
    assert |d.faces| == n + 1 && d.faces[..n] == c.faces && d.faces[n].loops == Interval(|c.loops|, |runs|);
    assert d.fins == c.fins + RunFins(runs, edgeMap) && d.loops == WithRuns(c, runs, edgeMap).loops;
    hide WithFace, WithRuns, Interval, AllBelow;
    forall f: nat, k: nat | f < n + 1
      ensures InItsFace(d, all, f, k)
    {
      if f < n {
        assert d.faces[f] == d.faces[..n][f];
        OldLoopsHold(c, d, c.faces[f], k);
        assert InItsFace(c, places, f, k);
        assert |places| <= k < |all| ==> all[k] == n;
      } else {
        SameLoopsHold(c, d, face, runs, edgeMap, front, back, k);
        assert k < |places| ==> all[k] == places[k];
      }
    }
    forall f | 0 <= f < n + 1
      ensures AllBelow(d.faces[f].loops, |d.loops|)
    {
      if f < n {
        assert d.faces[f] == d.faces[..n][f];
        BelowMore(c.faces[f].loops, |c.loops|, |d.loops|);
      } else {
        IntervalBelow(|c.loops|, |runs|, |d.loops|);
      }
    }
    PlacedFrom(d, all, n + 1);
  }

  lemma PlacedParts(d: CellData, places: seq<nat>, n: nat)
    requires PlacedFins(d, places, n)
    ensures |d.faces| == n && |places| == |d.fins|
    ensures forall f :: 0 <= f < n ==> AllBelow(d.faces[f].loops, |d.loops|)
    ensures forall f: nat, k: nat :: f < n ==> InItsFace(d, places, f, k)
  {
    hide InItsFace, AllBelow;
  }

  lemma PlacedFrom(d: CellData, places: seq<nat>, n: nat)
    requires |d.faces| == n && |places| == |d.fins|
    requires forall f :: 0 <= f < n ==> AllBelow(d.faces[f].loops, |d.loops|)
    requires forall f: nat, k: nat :: f < n ==> InItsFace(d, places, f, k)
    ensures PlacedFins(d, places, n)
  {
    hide InItsFace, AllBelow;
  }

  lemma BelowMore(s: seq<nat>, a: nat, b: nat)
    requires AllBelow(s, a) && a <= b
    ensures AllBelow(s, b)
  {
  }

  lemma IntervalBelow(a: nat, n: nat, b: nat)
    requires a + n <= b
    ensures AllBelow(Interval(a, n), b)
  {
  }

  lemma SameLoopsHold(c: CellData, d: CellData, face: SFace, runs: seq<Run>, edgeMap: map<nat, nat>, front: nat,
                      back: nat, k: nat)
    requires d == WithFace(c, face, runs, edgeMap, front, back)
    ensures FaceHas(d, d.faces[|d.faces| - 1], k) <==> |c.fins| <= k < |d.fins|
  {
    hide FaceHas, WithRuns;
    RunsHold(c, runs, edgeMap, k);
    FaceHoldsInterval(d, d.faces[|d.faces| - 1], |c.loops|, |runs|, k);
  }

  lemma {:induction false} PlacesBelow(runs: seq<seq<Run>>, edgeMap: map<nat, nat>)
    ensures forall k :: 0 <= k < |Places(runs, edgeMap)| ==> Places(runs, edgeMap)[k] < |runs|
  {
    hide PlanFins, RunFins;
    if runs != [] {
      PlacesBelow(runs[..|runs| - 1], edgeMap);
    }
  }

  lemma {:induction false} FacesPlaced(c: CellData, m: Seamed, plan: Plan, n: nat)
    requires n <= |m.faces| == |plan.runs| && c.fins == [] && c.loops == [] && c.faces == []
    ensures PlacedFins(WithFaces(c, m, plan, n), Places(plan.runs[..n], plan.edgeMap), n)
  {
    hide Twin, Owner, PlacedFins, WithFace, PlanFins, RunFins;
    if n == 0 {
      NothingPlaced(c);
    } else {
      FacesPlaced(c, m, plan, n - 1);
      assert plan.runs[..n][..n - 1] == plan.runs[..n - 1];
      var places := Places(plan.runs[..n - 1], plan.edgeMap);
      PlacesBelow(plan.runs[..n - 1], plan.edgeMap);
      var k := Owner(m.shells, n - 1);
      FacePlaced(WithFaces(c, m, plan, n - 1), m.faces[n - 1], plan.runs[n - 1], plan.edgeMap, k, Twin(m.shells, k),
        places, n - 1);
    }
  }

  lemma NothingPlaced(c: CellData)
    requires c.fins == [] && c.faces == []
    ensures PlacedFins(c, [], 0)
  {
  }

  lemma {:induction false} FirstFace(c: CellData, k: nat, f: nat, g: nat)
    requires g < |c.faces| && f <= g && forall h :: 0 <= h < |c.faces| ==> (FaceHas(c, c.faces[h], k) <==> h == g)
    ensures FaceFrom(c, k, f) == Some(g)
    decreases g - f
  {
    hide FaceHas;
    if f < g {
      FirstFace(c, k, f + 1, g);
    }
  }

  lemma FinFaceIs(d: CellData, places: seq<nat>, n: nat, k: nat)
    requires PlacedFins(d, places, n) && k < |d.fins| && places[k] < n
    ensures FinFace(d, k) == Some(places[k])
  {
    hide FaceHas, FaceFrom;
    forall h: nat | h < |d.faces|
      ensures FaceHas(d, d.faces[h], k) <==> h == places[k]
    {
      assert InItsFace(d, places, h, k);
    }
    FirstFace(d, k, 0, places[k]);
  }

  lemma SameFinFace(c: CellData, d: CellData, k: nat, f: nat)
    requires c.loops == d.loops && c.faces == d.faces
    ensures FaceFrom(c, k, f) == FaceFrom(d, k, f)
    decreases |c.faces| - f
  {
    if f < |c.faces| {
      assert FaceHas(c, c.faces[f], k) == FaceHas(d, d.faces[f], k);
      SameFinFace(c, d, k, f + 1);
    }
  }

  /** A solid's or closed shell's fins are the plan's, each in its face. */
  lemma CellFins(m: Seamed, plan: Plan)
    requires PlanFits(m, plan) && (m.kind == Solid || m.kind == ClosedShell)
    ensures var c := CellOf(m, plan);
      && c.fins == PlanFins(plan.runs, plan.edgeMap) && |c.faces| == |m.faces|
      && forall k :: 0 <= k < |c.fins| ==>
           FinFace(c, k) == Some(Places(plan.runs, plan.edgeMap)[k]) && Places(plan.runs, plan.edgeMap)[k] < |c.faces|
  {
    var f0 := Frame(m, plan);
    var w := WithFaces(f0, m, plan, |m.faces|);
    var c, places := CellOf(m, plan), Places(plan.runs, plan.edgeMap);
    SameParts(w, m, plan.edgeMap);
    hide WithFaces, CellOf, WithShells, Linked, Places, PlanFins, VerticesOf, EdgesOf, FinFace, PlacedFins;
    assert plan.runs[..|m.faces|] == plan.runs;
    FacesFins(f0, m, plan, |m.faces|);
    FacesPlaced(f0, m, plan, |m.faces|);
    PlacesBelow(plan.runs, plan.edgeMap);
    PlacedParts(w, places, |m.faces|);
    forall k | 0 <= k < |c.fins|
      ensures FinFace(c, k) == Some(places[k])
    {
      FinFaceIs(w, places, |m.faces|, k);
      SameFinFaces(c, w, k);
    }
  }

  lemma SameFinFaces(c: CellData, d: CellData, k: nat)
    requires c.loops == d.loops && c.faces == d.faces
    ensures FinFace(c, k) == FinFace(d, k)
  {
    SameFinFace(c, d, k, 0);
  }

  lemma SameParts(w: CellData, m: Seamed, edgeMap: map<nat, nat>)
    requires m.kind == Solid || m.kind == ClosedShell
    ensures var c := WithShells(Linked(w), m, edgeMap);
      c.fins == w.fins && c.loops == w.loops && c.faces == w.faces
  {
    hide Twins, Twin, FrontShells;
  }
}

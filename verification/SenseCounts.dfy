/** How often each edge is used in each sense: in the model's loops, in the runs they become, and in the cell's fins. */
module SenseCounts {
  import opened SeamRuns
  import opened CellModel
  import opened CellConversion
  import opened FinPlaces

  // ------------------------------------------------------------------ uses

  function CountSense(uses: seq<Use>, e: nat, forward: bool): nat {
    if uses == [] then 0
    else
      var u := uses[|uses| - 1];
      CountSense(uses[..|uses| - 1], e, forward) + if u.edge == e && u.forward == forward then 1 else 0
  }

  lemma {:induction false} CountConcat(p: seq<Use>, q: seq<Use>, e: nat, forward: bool)
    ensures CountSense(p + q, e, forward) == CountSense(p, e, forward) + CountSense(q, e, forward)
  {
    if q == [] {
      assert p + q == p;
    } else {
      var k := |q| - 1;
      assert (p + q)[..|p| + k] == p + q[..k];
      CountConcat(p, q[..k], e, forward);
    }
  }

  lemma {:induction false} CountKept(r: seq<Use>, seams: seq<nat>, e: nat, forward: bool)
    ensures CountSense(Kept(r, seams), e, forward) == if e in seams then 0 else CountSense(r, e, forward)
  {
    if r != [] {
      var k := |r| - 1;
      CountKept(r[..k], seams, e, forward);
      CountConcat(Kept(r[..k], seams), if r[k].edge in seams then [] else [r[k]], e, forward);
      CountOne(r[k], e, forward);
    }
  }

  lemma CountOne(u: Use, e: nat, forward: bool)
    ensures CountSense([u], e, forward) == if u.edge == e && u.forward == forward then 1 else 0
    ensures CountSense([], e, forward) == 0
  {
    assert [u][..0] == [];
  }

  lemma CountRotated(loop: seq<Use>, first: nat, e: nat, forward: bool)
    requires first < |loop|
    ensures CountSense(Rotated(loop, first), e, forward) == CountSense(loop, e, forward)
  {
    CountConcat(loop[first + 1..], loop[..first + 1], e, forward);
    CountConcat(loop[..first + 1], loop[first + 1..], e, forward);
    assert loop == loop[..first + 1] + loop[first + 1..];
  }

  /** Two uses of an edge in one sense count. */
  lemma {:induction false} CountTwo(uses: seq<Use>, e: nat, forward: bool, j: nat, k: nat)
    requires j < k < |uses|
    requires uses[j].edge == e == uses[k].edge && uses[j].forward == forward == uses[k].forward
    ensures CountSense(uses, e, forward) >= 2
  {
    var n := |uses| - 1;
    if k < n {
      CountTwo(uses[..n], e, forward, j, k);
    } else {
      CountSome(uses[..n], e, forward, j);
    }
  }

  lemma {:induction false} CountSome(uses: seq<Use>, e: nat, forward: bool, j: nat)
    requires j < |uses| && uses[j].edge == e && uses[j].forward == forward
    ensures CountSense(uses, e, forward) >= 1
  {
    var n := |uses| - 1;
    if j < n {
      CountSome(uses[..n], e, forward, j);
    }
  }

  // ------------------------------------------------------------------ runs

  lemma {:induction false} AllUsesConcat(p: seq<Run>, q: seq<Run>)
    ensures AllUses(p + q) == AllUses(p) + AllUses(q)
  {
    if q == [] {
      assert p + q == p;
    } else {
      var k := |q| - 1;
      assert (p + q)[..|p| + k] == p + q[..k];
      AllUsesConcat(p, q[..k]);
    }
  }

  ghost function RunsCount(runs: seq<Run>, e: nat, forward: bool): nat {
    CountSense(AllUses(runs), e, forward)
  }

  lemma RunsCountConcat(p: seq<Run>, q: seq<Run>, e: nat, forward: bool)
    ensures RunsCount(p + q, e, forward) == RunsCount(p, e, forward) + RunsCount(q, e, forward)
  {
    AllUsesConcat(p, q);
    CountConcat(AllUses(p), AllUses(q), e, forward);
  }

  lemma OneRunCount(run: Run, e: nat, forward: bool)
    ensures RunsCount([run], e, forward) == CountSense(run.uses, e, forward) && RunsCount([], e, forward) == 0
  {
    assert [run][..0] == [];
    assert AllUses([run]) == [] + run.uses == run.uses;
  }

  lemma {:induction false} RunsCountAtLeast(runs: seq<Run>, r: nat, e: nat, forward: bool)
    requires r < |runs|
    ensures RunsCount(runs, e, forward) >= CountSense(runs[r].uses, e, forward)
  {
    hide CountSense, AllUses;
    var n := |runs| - 1;
    assert runs == runs[..n] + [runs[n]];
    RunsCountConcat(runs[..n], [runs[n]], e, forward);
    OneRunCount(runs[n], e, forward);
    if r < n {
      RunsCountAtLeast(runs[..n], r, e, forward);
    }
  }

  lemma MergedCount(loop: seq<Use>, tau: real, merged: Merged, e: nat, forward: bool)
    requires tau > 0.0 && Mergeable(true, loop, tau) && MergeOf(loop, tau, merged)
    ensures RunsCount(merged.runs, e, forward) == if e in merged.seams then 0 else CountSense(loop, e, forward)
  {
    hide Mergeable, MergeOf, Kept, Rotated, AllUses, CountSense, WindingSum;
    MergeBalances(loop, tau, merged);
    var first :| FirstSeam(loop, merged.seams, first) &&
      AllUses(merged.runs) == Kept(Rotated(loop, first), merged.seams);
    CountKept(Rotated(loop, first), merged.seams, e, forward);
    CountRotated(loop, first, e, forward);
  }

  /** A part keeps every use of each edge it does not lose. */
  lemma PartCount(cylinder: bool, loop: seq<Use>, tau: real, part: Part, e: nat, forward: bool)
    requires tau > 0.0 && PartOf(cylinder, loop, tau, part) && e !in part.gone
    ensures RunsCount(part.runs, e, forward) == CountSense(loop, e, forward)
  {
    hide MergeOf, CountSense, RunsCount;
    if loop != [] && Mergeable(cylinder, loop, tau) {
      var merged :| MergeOf(loop, tau, merged) && part == Part(merged.runs, set d | d in merged.seams);
      MergedCount(loop, tau, merged, e, forward);
    } else {
      OneRunCount(Run(loop, 0), e, forward);
    }
  }

  function LoopsCount(loops: seq<seq<Use>>, e: nat, forward: bool): nat {
    if loops == [] then 0 else LoopsCount(loops[..|loops| - 1], e, forward) + CountSense(loops[|loops| - 1], e, forward)
  }

  lemma {:induction false} PartsCount(face: SFace, tau: real, parts: seq<Part>, n: nat, e: nat, forward: bool)
    requires tau > 0.0 && PartsOf(face, tau, parts, |face.loops|) && n <= |parts|
    requires forall j :: 0 <= j < |parts| ==> e !in parts[j].gone
    ensures RunsCount(PartRuns(parts[..n]), e, forward) == LoopsCount(face.loops[..n], e, forward)
    decreases n
  {
    hide PartOf, CountSense, RunsCount;
    if n == 0 {
      OneRunCount(Run([], 0), e, forward);
    } else {
      PartsCount(face, tau, parts, n - 1, e, forward);
      assert parts[..n][..n - 1] == parts[..n - 1] && face.loops[..n][..n - 1] == face.loops[..n - 1];
      RunsCountConcat(PartRuns(parts[..n - 1]), parts[n - 1].runs, e, forward);
      PartCount(face.surface.kind == Cylinder, face.loops[n - 1], tau, parts[n - 1], e, forward);
    }
  }

  /** So does a face. */
  lemma SplitCount(face: SFace, tau: real, runs: seq<Run>, gone: set<nat>, e: nat, forward: bool)
    requires tau > 0.0 && FaceSplit(face, tau, runs, gone) && e !in gone
    ensures RunsCount(runs, e, forward) == LoopsCount(face.loops, e, forward)
  {
    hide PartsOf, PartRuns, RunsCount, LoopsCount;
    var parts: seq<Part> :| PartsOf(face, tau, parts, |face.loops|) && runs == PartRuns(parts) && GoneIs(parts, gone);
    PartsNumber(face, tau, parts);
    assert parts[..|parts|] == parts && face.loops[..|parts|] == face.loops;
    PartsCount(face, tau, parts, |parts|, e, forward);
  }

  /** The uses of an edge in one sense in all faces' loops. */
  function ModelCount(faces: seq<SFace>, e: nat, forward: bool): nat {
    if faces == [] then 0
    else ModelCount(faces[..|faces| - 1], e, forward) + LoopsCount(faces[|faces| - 1].loops, e, forward)
  }

  lemma {:induction false} ModelCountAtLeast(faces: seq<SFace>, f: nat, e: nat, forward: bool)
    requires f < |faces|
    ensures ModelCount(faces, e, forward) >= LoopsCount(faces[f].loops, e, forward)
  {
    hide LoopsCount;
    if f < |faces| - 1 {
      ModelCountAtLeast(faces[..|faces| - 1], f, e, forward);
    }
  }

  lemma {:induction false} LoopsCountAtLeast(loops: seq<seq<Use>>, j: nat, e: nat, forward: bool)
    requires j < |loops|
    ensures LoopsCount(loops, e, forward) >= CountSense(loops[j], e, forward)
  {
    hide CountSense;
    if j < |loops| - 1 {
      LoopsCountAtLeast(loops[..|loops| - 1], j, e, forward);
    }
  }

  lemma {:induction false} LoopsCountTwo(loops: seq<seq<Use>>, j: nat, l: nat, e: nat, forward: bool)
    requires j < |loops| && l < |loops| && j != l
    ensures LoopsCount(loops, e, forward) >= CountSense(loops[j], e, forward) + CountSense(loops[l], e, forward)
  {
    hide CountSense;
    var n := |loops| - 1;
    if j < n && l < n {
      LoopsCountTwo(loops[..n], j, l, e, forward);
    } else {
      LoopsCountAtLeast(loops[..n], if j < n then j else l, e, forward);
    }
  }

  lemma {:induction false} ModelCountTwo(faces: seq<SFace>, f: nat, g: nat, e: nat, forward: bool)
    requires f < |faces| && g < |faces| && f != g
    ensures ModelCount(faces, e, forward) >=
      LoopsCount(faces[f].loops, e, forward) + LoopsCount(faces[g].loops, e, forward)
  {
    hide LoopsCount;
    var n := |faces| - 1;
    if f < n && g < n {
      ModelCountTwo(faces[..n], f, g, e, forward);
    } else {
      ModelCountAtLeast(faces[..n], if f < n then f else g, e, forward);
    }
  }

  /** Where a counted use is. */
  lemma {:induction false} CountFound(uses: seq<Use>, e: nat, forward: bool) returns (k: nat)
    requires CountSense(uses, e, forward) >= 1
    ensures k < |uses| && uses[k].edge == e && uses[k].forward == forward
  {
    var n := |uses| - 1;
    if uses[n].edge == e && uses[n].forward == forward {
      k := n;
    } else {
      k := CountFound(uses[..n], e, forward);
    }
  }

  lemma {:induction false} LoopsCountFound(loops: seq<seq<Use>>, e: nat, forward: bool) returns (l: nat, k: nat)
    requires LoopsCount(loops, e, forward) >= 1
    ensures l < |loops| && k < |loops[l]| && loops[l][k].edge == e && loops[l][k].forward == forward
  {
    hide CountSense;
    var n := |loops| - 1;
    if CountSense(loops[n], e, forward) >= 1 {
      l := n;
      k := CountFound(loops[n], e, forward);
    } else {
      l, k := LoopsCountFound(loops[..n], e, forward);
    }
  }

  /** The uses of an edge in a loop, by their senses. */
  lemma {:induction false} CountBySense(loop: seq<Use>, e: nat)
    ensures Count(loop, e) == CountSense(loop, e, true) + CountSense(loop, e, false)
  {
    if loop != [] {
      CountBySense(loop[..|loop| - 1], e);
    }
  }

  // ------------------------------------------------------------------ fins

  function CountFins(fins: seq<Fin>, i: nat, forward: bool): nat {
    if fins == [] then 0
    else
      var x := fins[|fins| - 1];
      CountFins(fins[..|fins| - 1], i, forward) + if x.edge == i && x.forward == forward then 1 else 0
  }

  lemma {:induction false} CountFinsConcat(p: seq<Fin>, q: seq<Fin>, i: nat, forward: bool)
    ensures CountFins(p + q, i, forward) == CountFins(p, i, forward) + CountFins(q, i, forward)
  {
    if q == [] {
      assert p + q == p;
    } else {
      var k := |q| - 1;
      assert (p + q)[..|p| + k] == p + q[..k];
      CountFinsConcat(p, q[..k], i, forward);
    }
  }

  /** Among these uses, exactly those of edge e become fins of edge i. */
  ghost predicate Becomes(uses: seq<Use>, edgeMap: map<nat, nat>, e: nat, i: nat) {
    forall u :: u in uses ==> (Get(edgeMap, u.edge) == i <==> u.edge == e)
  }

  lemma {:induction false} FinsOfCount(uses: seq<Use>, edgeMap: map<nat, nat>, e: nat, i: nat, forward: bool)
    requires Becomes(uses, edgeMap, e, i)
    ensures CountFins(FinsOf(uses, edgeMap), i, forward) == CountSense(uses, e, forward)
  {
    hide Get;
    if uses != [] {
      var k := |uses| - 1;
      FinsOfCount(uses[..k], edgeMap, e, i, forward);
      assert FinsOf(uses, edgeMap)[..k] == FinsOf(uses[..k], edgeMap);
      assert uses[k] in uses;
    }
  }

  lemma {:induction false} RunFinsCount(runs: seq<Run>, edgeMap: map<nat, nat>, e: nat, i: nat, forward: bool)
    requires Becomes(AllUses(runs), edgeMap, e, i)
    ensures CountFins(RunFins(runs, edgeMap), i, forward) == RunsCount(runs, e, forward)
  {
    hide FinsOf, CountSense, Get;
    if runs == [] {
      OneRunCount(Run([], 0), e, forward);
      assert AllUses(runs) == [];
      NoFins(i, forward);
    } else {
      var n := |runs| - 1;
      assert AllUses(runs) == AllUses(runs[..n]) + runs[n].uses;
      RunFinsCount(runs[..n], edgeMap, e, i, forward);
      FinsOfCount(runs[n].uses, edgeMap, e, i, forward);
      CountConcat(AllUses(runs[..n]), runs[n].uses, e, forward);
      CountFinsConcat(RunFins(runs[..n], edgeMap), FinsOf(runs[n].uses, edgeMap), i, forward);
    }
  }

  lemma NoFins(i: nat, forward: bool)
    ensures CountFins([], i, forward) == 0
  {
  }

  /** The fins of an edge are counted by their senses. */
  lemma {:induction false} FinsOnCount(fins: seq<Fin>, i: nat)
    ensures |FinsOn(fins, i)| == CountFins(fins, i, true) + CountFins(fins, i, false)
  {
    if fins != [] {
      FinsOnCount(fins[..|fins| - 1], i);
    }
  }

  lemma {:induction false} FinsOnRise(fins: seq<Fin>, i: nat)
    ensures forall j :: 0 <= j < |FinsOn(fins, i)| ==> FinsOn(fins, i)[j] < |fins| && fins[FinsOn(fins, i)[j]].edge == i
    ensures forall j, k :: 0 <= j < k < |FinsOn(fins, i)| ==> FinsOn(fins, i)[j] < FinsOn(fins, i)[k]
  {
    if fins != [] {
      FinsOnRise(fins[..|fins| - 1], i);
    }
  }

  lemma {:induction false} CountFinsSome(fins: seq<Fin>, i: nat, forward: bool, j: nat)
    requires j < |fins| && fins[j].edge == i && fins[j].forward == forward
    ensures CountFins(fins, i, forward) >= 1
  {
    if j < |fins| - 1 {
      CountFinsSome(fins[..|fins| - 1], i, forward, j);
    }
  }

  lemma {:induction false} CountFinsTwo(fins: seq<Fin>, i: nat, forward: bool, j: nat, k: nat)
    requires j < k < |fins| && fins[j].edge == i == fins[k].edge && fins[j].forward == forward == fins[k].forward
    ensures CountFins(fins, i, forward) >= 2
  {
    var n := |fins| - 1;
    if k < n {
      CountFinsTwo(fins[..n], i, forward, j, k);
    } else {
      CountFinsSome(fins[..n], i, forward, j);
    }
  }

  /** One fin in each sense: two fins of opposite senses. */
  lemma TwoFins(fins: seq<Fin>, i: nat)
    requires CountFins(fins, i, true) == 1 == CountFins(fins, i, false)
    ensures var on := FinsOn(fins, i);
      |on| == 2 && on[0] < on[1] < |fins| && fins[on[0]].edge == i == fins[on[1]].edge
      && fins[on[0]].forward != fins[on[1]].forward
  {
    FinsOnCount(fins, i);
    FinsOnRise(fins, i);
    var on := FinsOn(fins, i);
    if fins[on[0]].forward == fins[on[1]].forward {
      CountFinsTwo(fins, i, fins[on[0]].forward, on[0], on[1]);
    }
  }
}

/** The links of a shell's vertices before and after the conversion: which edges follow one another round a vertex, and
    whether they hang together. */
module VertexLinks {
  import opened Basics
  import opened Reals
  import opened SeamRuns
  import opened CellModel
  import opened CellConversion
  import opened CellChecks
  import opened RadialOrder
  import opened ConversionAccepted
  import opened ClosedRuns
  import opened Acceptance
  import opened CellEuler
  import CellValidator

  // ------------------------------------------------------------------ corners of one loop

  /** At v a use of edge e follows one of edge d. */
  ghost predicate Corner(m: Seamed, uses: seq<Use>, v: nat, d: nat, e: nat) {
    exists k :: 0 <= k < |uses| && CornerAt(m, uses, v, d, e, k)
  }

  predicate CornerAt(m: Seamed, uses: seq<Use>, v: nat, d: nat, e: nat, k: nat)
    requires k < |uses|
  {
    To(m, uses[k]) == v && uses[k].edge == d && uses[Next(|uses|, k)].edge == e
  }

  /** In either order. */
  ghost predicate Beside(m: Seamed, uses: seq<Use>, v: nat, d: nat, e: nat) {
    Corner(m, uses, v, d, e) || Corner(m, uses, v, e, d)
  }

  lemma IsCorner(m: Seamed, uses: seq<Use>, k: nat)
    requires k < |uses|
    ensures Corner(m, uses, To(m, uses[k]), uses[k].edge, uses[Next(|uses|, k)].edge)
  {
    hide To;
    assert CornerAt(m, uses, To(m, uses[k]), uses[k].edge, uses[Next(|uses|, k)].edge, k);
  }

  /** Where the last use of a run meets its first. */
  lemma LastCorner(m: Seamed, uses: seq<Use>)
    requires uses != []
    ensures var n := |uses| - 1; Corner(m, uses, To(m, uses[n]), uses[n].edge, uses[0].edge)
  {
    hide To;
    IsCorner(m, uses, |uses| - 1);
  }

  // ------------------------------------------------------------------ a loop merged at one seam

  /** The two runs between a seam's uses at a and b of a closed loop, and the seam's ends. */
  ghost predicate Between(m: Seamed, loop: seq<Use>, x: nat, a: nat, b: nat, u: seq<Use>, w: seq<Use>) {
    && Closed(m, loop) && Positions(loop, x, a, b) && loop[a].forward != loop[b].forward
    && u == loop[a + 1..b] != [] && w == loop[b + 1..] + loop[..a] != []
  }

  /** Use k of the loop is in one of the runs, or is the seam's. */
  lemma InOneOf(m: Seamed, loop: seq<Use>, x: nat, a: nat, b: nat, u: seq<Use>, w: seq<Use>, k: nat)
    requires Between(m, loop, x, a, b, u, w) && k < |loop|
    ensures a < k < b ==> loop[k] == u[k - a - 1]
    ensures k > b ==> k - b - 1 < |w| && loop[k] == w[k - b - 1]
    ensures k < a ==> |loop| - b - 1 + k < |w| && loop[k] == w[|loop| - b - 1 + k]
    ensures loop[k].edge == x <==> k == a || k == b
  {
    hide Closed;
  }

  lemma SeamEnds(m: Seamed, loop: seq<Use>, x: nat, a: nat, b: nat, u: seq<Use>, w: seq<Use>)
    requires Between(m, loop, x, a, b, u, w)
    ensures To(m, loop[a]) == From(m, loop[b]) == From(m, u[0]) == To(m, u[|u| - 1])
    ensures To(m, loop[b]) == From(m, loop[a]) == From(m, w[0]) == To(m, w[|w| - 1])
    ensures x < |m.edges| ==> {To(m, loop[a]), To(m, loop[b])} == {m.edges[x].start, m.edges[x].end}
  {
    var n := |loop|;
    assert loop[a].edge == x == loop[b].edge;
    assert To(m, loop[a]) == From(m, loop[b]) && To(m, loop[b]) == From(m, loop[a]);
    assert x < |m.edges| ==> {To(m, loop[a]), To(m, loop[b])} == {m.edges[x].start, m.edges[x].end};
    hide To, From;
    assert u[0] == loop[a + 1] && u[|u| - 1] == loop[b - 1];
    assert w[0] == if b + 1 < n then loop[b + 1] else loop[0];
    assert w[|w| - 1] == if a > 0 then loop[a - 1] else loop[n - 1];
    StepRound(m, loop, a);
    StepRound(m, loop, b);
    StepRound(m, loop, b - 1);
    StepRound(m, loop, if a > 0 then a - 1 else n - 1);
  }

  lemma StepRound(m: Seamed, loop: seq<Use>, k: nat)
    requires Closed(m, loop) && k < |loop|
    ensures To(m, loop[k]) == From(m, loop[Next(|loop|, k)])
  {
    hide To, From;
  }

  /** A corner of the first run is one of the loop, or goes by the seam. */
  lemma FirstRunCorner(m: Seamed, loop: seq<Use>, x: nat, a: nat, b: nat, u: seq<Use>, w: seq<Use>, v: nat, d: nat,
                       e: nat)
    requires Between(m, loop, x, a, b, u, w) && Corner(m, u, v, d, e)
    ensures Corner(m, loop, v, d, e) || (Corner(m, loop, v, d, x) && Corner(m, loop, v, x, e))
  {
    SeamEnds(m, loop, x, a, b, u, w);
    hide To, From, Closed;
    var k :| 0 <= k < |u| && CornerAt(m, u, v, d, e, k);
    assert u[k] == loop[a + 1 + k];
    IsCorner(m, loop, a + 1 + k);
    if k + 1 < |u| {
      assert u[k + 1] == loop[a + 1 + k + 1];
    } else {
      assert u[0] == loop[a + 1];
      assert Next(|u|, k) == 0;
      IsCorner(m, loop, a);
    }
  }

  /** The loop from the other seam use on: the runs change places. */
  lemma SecondRunCorner(m: Seamed, loop: seq<Use>, x: nat, a: nat, b: nat, u: seq<Use>, w: seq<Use>, v: nat, d: nat,
                        e: nat)
    requires Between(m, loop, x, a, b, u, w) && Corner(m, w, v, d, e)
    ensures Corner(m, loop, v, d, e) || (Corner(m, loop, v, d, x) && Corner(m, loop, v, x, e))
  {
    SeamEnds(m, loop, x, a, b, u, w);
    hide To, From, Closed;
    var k :| 0 <= k < |w| && CornerAt(m, w, v, d, e, k);
    var n := |loop|;
    var j := if k < n - b - 1 then b + 1 + k else k - (n - b - 1);
    assert w[k] == loop[j];
    IsCorner(m, loop, j);
    if k + 1 < |w| {
      var i := Next(n, j);
      assert w[k + 1] == loop[i];
    } else {
      assert Next(|w|, k) == 0 && Next(n, j) == a;
      assert w[0] == loop[Next(n, b)];
      IsCorner(m, loop, b);
    }
  }

  /** A corner of the loop without the seam is one of a run. */
  lemma LoopCorner(m: Seamed, loop: seq<Use>, x: nat, a: nat, b: nat, u: seq<Use>, w: seq<Use>, v: nat, d: nat, e: nat)
    requires Between(m, loop, x, a, b, u, w) && Corner(m, loop, v, d, e) && d != x && e != x
    ensures Corner(m, u, v, d, e) || Corner(m, w, v, d, e)
  {
    hide To, From, Closed;
    var n := |loop|;
    var k :| 0 <= k < |loop| && CornerAt(m, loop, v, d, e, k);
    InOneOf(m, loop, x, a, b, u, w, k);
    InOneOf(m, loop, x, a, b, u, w, Next(n, k));
    if a < k < b {
      IsCorner(m, u, k - a - 1);
    } else {
      var j := if k > b then k - b - 1 else n - b - 1 + k;
      IsCorner(m, w, j);
    }
  }

  /** What comes before the seam is the last of a run. */
  lemma BeforeSeam(m: Seamed, loop: seq<Use>, x: nat, a: nat, b: nat, u: seq<Use>, w: seq<Use>, k: nat)
    requires Between(m, loop, x, a, b, u, w) && k < |loop| && loop[Next(|loop|, k)].edge == x
    ensures loop[k].edge != x && u != [] && w != []
    ensures Next(|loop|, k) == b ==> loop[k] == u[|u| - 1]
    ensures Next(|loop|, k) == a ==> loop[k] == w[|w| - 1]
    ensures Next(|loop|, k) == a || Next(|loop|, k) == b
  {
    InOneOf(m, loop, x, a, b, u, w, k);
    InOneOf(m, loop, x, a, b, u, w, Next(|loop|, k));
    hide Closed;
  }

  lemma AfterSeam(m: Seamed, loop: seq<Use>, x: nat, a: nat, b: nat, u: seq<Use>, w: seq<Use>, k: nat)
    requires Between(m, loop, x, a, b, u, w) && k < |loop| && loop[k].edge == x
    ensures loop[Next(|loop|, k)].edge != x && u != [] && w != []
    ensures k == a ==> loop[Next(|loop|, k)] == u[0]
    ensures k == b ==> loop[Next(|loop|, k)] == w[0]
    ensures k == a || k == b
  {
    InOneOf(m, loop, x, a, b, u, w, k);
    InOneOf(m, loop, x, a, b, u, w, Next(|loop|, k));
    hide Closed;
  }

  /** Beside the seam at v: an end of one of the runs, which closes there. */
  lemma SeamCorner(m: Seamed, loop: seq<Use>, x: nat, a: nat, b: nat, u: seq<Use>, w: seq<Use>, v: nat, d: nat)
    returns (first: bool)
    requires Between(m, loop, x, a, b, u, w) && Beside(m, loop, v, d, x)
    ensures d != x && a < |loop| && b < |loop| && u != [] && w != []
    ensures v == To(m, loop[if first then a else b])
    ensures var r := if first then u else w;
      (d == r[0].edge || d == r[|r| - 1].edge) && Corner(m, r, v, r[|r| - 1].edge, r[0].edge)
  {
    SeamEnds(m, loop, x, a, b, u, w);
    BetweenSizes(m, loop, x, a, b, u, w);
    LastCorner(m, u);
    LastCorner(m, w);
    var n := |loop|;
    if Corner(m, loop, v, d, x) {
      var k :| 0 <= k < |loop| && CornerAt(m, loop, v, d, x, k);
      hide To, From, Between, Corner;
      BeforeSeam(m, loop, x, a, b, u, w, k);
      first := Next(n, k) == b;
    } else {
      var k :| 0 <= k < |loop| && CornerAt(m, loop, v, x, d, k);
      hide To, From, Between, Corner;
      AfterSeam(m, loop, x, a, b, u, w, k);
      first := k == a;
    }
  }

  lemma BetweenSizes(m: Seamed, loop: seq<Use>, x: nat, a: nat, b: nat, u: seq<Use>, w: seq<Use>)
    requires Between(m, loop, x, a, b, u, w)
    ensures a < b < |loop| && u != [] && w != []
  {
    hide Closed;
  }

  // ------------------------------------------------------------------ one loop and its part

  ghost predicate PartCorner(m: Seamed, part: Part, v: nat, d: nat, e: nat) {
    exists q :: 0 <= q < |part.runs| && Corner(m, part.runs[q].uses, v, d, e)
  }

  ghost predicate PartBeside(m: Seamed, part: Part, v: nat, d: nat, e: nat) {
    PartCorner(m, part, v, d, e) || PartCorner(m, part, v, e, d)
  }

  lemma InPart(m: Seamed, part: Part, q: nat, v: nat, d: nat, e: nat)
    requires q < |part.runs| && Corner(m, part.runs[q].uses, v, d, e)
    ensures PartCorner(m, part, v, d, e)
  {
    hide Corner;
  }

  /** The part is the loop, or its two runs beside one seam. */
  lemma PartCases(m: Seamed, tau: real, f: nat, l: nat, part: Part) returns (x: nat, a: nat, b: nat)
    requires tau > 0.0 && SimpleSeams(m, tau) && ClosedLoops(m) && f < |m.faces| && l < |m.faces[f].loops|
    requires PartOf(m.faces[f].surface.kind == Cylinder, m.faces[f].loops[l], tau, part)
    ensures if part.gone == {} then |part.runs| == 1 && part.runs[0].uses == m.faces[f].loops[l]
      else
        && part.gone == {x} && |part.runs| == 2 && OnlyIn(m, x, f, l)
        && Between(m, m.faces[f].loops[l], x, a, b, part.runs[0].uses, part.runs[1].uses)
  {
    hide Mergeable, MergeOf, IsSeam, OnlyIn, Closed;
    x, a, b := 0, 0, 0;
    var loop := m.faces[f].loops[l];
    if loop != [] && Mergeable(m.faces[f].surface.kind == Cylinder, loop, tau) {
      var merged :| MergeOf(loop, tau, merged) && part == Part(merged.runs, set e | e in merged.seams);
      assert OneSeam(m, f, l);
      MergeSeams(loop, tau, merged);
      OneSeamListed(loop, merged.seams);
      MergeableCylinder(m.faces[f].surface.kind == Cylinder, loop, tau);
      x := merged.seams[0];
      assert merged.seams == [x];
      assert x in part.gone && part.gone == {x};
      a, b := OneSeamParts(loop, tau, merged);
    }
  }

  /** A corner of one of a merged loop's two runs. */
  lemma MergedToLoop(m: Seamed, loop: seq<Use>, part: Part, x: nat, a: nat, b: nat, q: nat, v: nat, d: nat, e: nat)
    requires |part.runs| == 2 && Between(m, loop, x, a, b, part.runs[0].uses, part.runs[1].uses)
    requires q < 2 && Corner(m, part.runs[q].uses, v, d, e)
    ensures Corner(m, loop, v, d, e) || (Corner(m, loop, v, d, x) && Corner(m, loop, v, x, e))
  {
    hide Corner, Between;
    if q == 0 {
      FirstRunCorner(m, loop, x, a, b, part.runs[0].uses, part.runs[1].uses, v, d, e);
    } else {
      SecondRunCorner(m, loop, x, a, b, part.runs[0].uses, part.runs[1].uses, v, d, e);
    }
  }

  lemma PartRunOf(m: Seamed, part: Part, v: nat, d: nat, e: nat) returns (q: nat)
    requires PartCorner(m, part, v, d, e)
    ensures q < |part.runs| && Corner(m, part.runs[q].uses, v, d, e)
  {
    hide Corner;
    q :| 0 <= q < |part.runs| && Corner(m, part.runs[q].uses, v, d, e);
  }

  /** Corners of the part are corners of the loop, or go by its seam. */
  lemma PartToLoop(m: Seamed, tau: real, f: nat, l: nat, part: Part, v: nat, d: nat, e: nat)
    requires tau > 0.0 && SimpleSeams(m, tau) && ClosedLoops(m) && f < |m.faces| && l < |m.faces[f].loops|
    requires PartOf(m.faces[f].surface.kind == Cylinder, m.faces[f].loops[l], tau, part)
    requires PartCorner(m, part, v, d, e)
    ensures var loop := m.faces[f].loops[l];
      Corner(m, loop, v, d, e) || exists x :: x in part.gone && Corner(m, loop, v, d, x) && Corner(m, loop, v, x, e)
  {
    hide *;
    var q := PartRunOf(m, part, v, d, e);
    var x, a, b := PartCases(m, tau, f, l, part);
    if part.gone != {} {
      MergedToLoop(m, m.faces[f].loops[l], part, x, a, b, q, v, d, e);
      assert x in part.gone;
    }
  }

  lemma LoopToPart(m: Seamed, tau: real, f: nat, l: nat, part: Part, v: nat, d: nat, e: nat)
    requires tau > 0.0 && SimpleSeams(m, tau) && ClosedLoops(m) && f < |m.faces| && l < |m.faces[f].loops|
    requires PartOf(m.faces[f].surface.kind == Cylinder, m.faces[f].loops[l], tau, part)
    requires Corner(m, m.faces[f].loops[l], v, d, e) && d !in part.gone && e !in part.gone
    ensures PartCorner(m, part, v, d, e)
  {
    hide Corner, PartOf, SimpleSeams, ClosedLoops, Between, OnlyIn, PartCorner;
    var x, a, b := PartCases(m, tau, f, l, part);
    if part.gone != {} {
      LoopCorner(m, m.faces[f].loops[l], x, a, b, part.runs[0].uses, part.runs[1].uses, v, d, e);
      if Corner(m, part.runs[0].uses, v, d, e) {
        InPart(m, part, 0, v, d, e);
      } else {
        InPart(m, part, 1, v, d, e);
      }
    } else {
      InPart(m, part, 0, v, d, e);
    }
  }

  /** What is beside a lost seam stays, at a corner. */
  lemma BesideLost(m: Seamed, tau: real, f: nat, l: nat, part: Part, v: nat, d: nat, x: nat) returns (g: nat)
    requires tau > 0.0 && SimpleSeams(m, tau) && ClosedLoops(m) && f < |m.faces| && l < |m.faces[f].loops|
    requires PartOf(m.faces[f].surface.kind == Cylinder, m.faces[f].loops[l], tau, part) && x in part.gone
    requires Beside(m, m.faces[f].loops[l], v, d, x)
    ensures d !in part.gone && PartBeside(m, part, v, d, g)
  {
    hide Corner, PartOf, SimpleSeams, ClosedLoops, Between, OnlyIn, PartCorner, Beside;
    var y, a, b := PartCases(m, tau, f, l, part);
    assert y == x;
    var first := SeamCorner(m, m.faces[f].loops[l], x, a, b, part.runs[0].uses, part.runs[1].uses, v, d);
    var q := if first then 0 else 1;
    var r := part.runs[q].uses;
    InPart(m, part, q, v, r[|r| - 1].edge, r[0].edge);
    g := if d == r[0].edge then r[|r| - 1].edge else r[0].edge;
  }

  lemma OneEnd(p: nat, q: nat, start: nat, end: nat)
    requires {p, q} == {start, end}
    ensures p == q ==> start == p == end
  {
    assert start in {p, q} && end in {p, q};
  }

  /** Two edges beside a lost seam at one of its two ends become neighbours. */
  lemma BesideBoth(m: Seamed, tau: real, f: nat, l: nat, part: Part, v: nat, d: nat, e: nat, x: nat)
    requires tau > 0.0 && SimpleSeams(m, tau) && ClosedLoops(m) && f < |m.faces| && l < |m.faces[f].loops|
    requires PartOf(m.faces[f].surface.kind == Cylinder, m.faces[f].loops[l], tau, part) && x in part.gone
    requires Beside(m, m.faces[f].loops[l], v, d, x) && Beside(m, m.faces[f].loops[l], v, e, x)
    requires x < |m.edges| && !(m.edges[x].start == v == m.edges[x].end)
    ensures d == e || PartBeside(m, part, v, d, e)
  {
    hide Corner, PartOf, SimpleSeams, ClosedLoops, Between, OnlyIn, PartCorner, Beside, To, From;
    var y, a, b := PartCases(m, tau, f, l, part);
    assert y == x;
    var loop, u, w := m.faces[f].loops[l], part.runs[0].uses, part.runs[1].uses;
    var first := SeamCorner(m, loop, x, a, b, u, w, v, d);
    var other := SeamCorner(m, loop, x, a, b, u, w, v, e);
    SeamEnds(m, loop, x, a, b, u, w);
    OneEnd(To(m, loop[a]), To(m, loop[b]), m.edges[x].start, m.edges[x].end);
    assert first == other;
    var q := if first then 0 else 1;
    var r := part.runs[q].uses;
    InPart(m, part, q, v, r[|r| - 1].edge, r[0].edge);
  }

  // ------------------------------------------------------------------ one face and its runs

  ghost predicate RunCorner(m: Seamed, runs: seq<Run>, v: nat, d: nat, e: nat) {
    exists r :: 0 <= r < |runs| && Corner(m, runs[r].uses, v, d, e)
  }

  /** The parts of a face's loops. */
  ghost predicate PartsAre(face: SFace, tau: real, parts: seq<Part>, runs: seq<Run>, gone: set<nat>)
    requires tau > 0.0
  {
    && |parts| == |face.loops| && runs == PartRuns(parts) && GoneIs(parts, gone)
    && forall j :: 0 <= j < |parts| ==> PartOf(face.surface.kind == Cylinder, face.loops[j], tau, parts[j])
  }

  lemma PartsFrom(face: SFace, tau: real, runs: seq<Run>, gone: set<nat>) returns (parts: seq<Part>)
    requires tau > 0.0 && FaceSplit(face, tau, runs, gone)
    ensures PartsAre(face, tau, parts, runs, gone)
  {
    hide PartOf, GoneIs, PartRuns;
    parts :| PartsOf(face, tau, parts, |face.loops|) && runs == PartRuns(parts) && GoneIs(parts, gone);
  }

  lemma PartCornerIn(m: Seamed, face: SFace, tau: real, parts: seq<Part>, runs: seq<Run>, gone: set<nat>, j: nat,
                     v: nat, d: nat, e: nat)
    requires tau > 0.0 && PartsAre(face, tau, parts, runs, gone) && j < |parts| && PartCorner(m, parts[j], v, d, e)
    ensures RunCorner(m, runs, v, d, e)
  {
    hide Corner, PartOf, GoneIs, PartRuns;
    var q :| 0 <= q < |parts[j].runs| && Corner(m, parts[j].runs[q].uses, v, d, e);
    var r := PartRunAt(parts, j, q);
    assert Corner(m, runs[r].uses, v, d, e);
  }

  lemma RunCornerOf(m: Seamed, face: SFace, tau: real, parts: seq<Part>, runs: seq<Run>, gone: set<nat>, v: nat, d: nat,
                    e: nat) returns (j: nat)
    requires tau > 0.0 && PartsAre(face, tau, parts, runs, gone) && RunCorner(m, runs, v, d, e)
    ensures j < |parts| && PartCorner(m, parts[j], v, d, e)
  {
    hide Corner, PartOf, GoneIs, PartRuns;
    var r :| 0 <= r < |runs| && Corner(m, runs[r].uses, v, d, e);
    var k, q := RunOfPart(parts, r);
    j := k;
    assert Corner(m, parts[j].runs[q].uses, v, d, e);
  }

  lemma PartAt(m: Seamed, tau: real, f: nat, parts: seq<Part>, runs: seq<Run>, gone: set<nat>, j: nat)
    requires tau > 0.0 && f < |m.faces| && PartsAre(m.faces[f], tau, parts, runs, gone) && j < |parts|
    ensures j < |m.faces[f].loops| && parts[j].gone <= gone
    ensures PartOf(m.faces[f].surface.kind == Cylinder, m.faces[f].loops[j], tau, parts[j])
  {
    hide PartOf;
  }

  /** A corner of the face. */
  ghost predicate FaceCorner(m: Seamed, f: nat, v: nat, d: nat, e: nat)
    requires f < |m.faces|
  {
    exists l :: 0 <= l < |m.faces[f].loops| && Corner(m, m.faces[f].loops[l], v, d, e)
  }

  lemma InFace(m: Seamed, f: nat, l: nat, v: nat, d: nat, e: nat)
    requires f < |m.faces| && l < |m.faces[f].loops| && Corner(m, m.faces[f].loops[l], v, d, e)
    ensures FaceCorner(m, f, v, d, e)
  {
    hide Corner;
  }

  /** What is assumed of the model and its plan. */
  ghost predicate Planned(m: Seamed, tau: real, plan: Plan)
    requires tau > 0.0
  {
    PlanOf(m, tau, plan) && ValidSeamed(m) && SimpleSeams(m, tau) && ClosedLoops(m)
  }

  lemma PlannedParts(m: Seamed, tau: real, plan: Plan)
    requires tau > 0.0 && Planned(m, tau, plan)
    ensures SimpleSeams(m, tau) && ClosedLoops(m) && ValidSeamed(m) && SimplePlan(m, plan) && RunsEverywhere(m, plan)
    ensures RemovedIs(plan.runs, plan.gone, plan.removed) && |plan.runs| == |plan.gone| == |m.faces|
    ensures forall f :: 0 <= f < |m.faces| ==> FaceSplit(m.faces[f], tau, plan.runs[f], plan.gone[f])
    ensures forall e :: e in plan.removed ==> e < |m.edges|
  {
    hide FaceSplit, RemovedIs, DropIs, Renumbered, ValidSeamed, ClosedLoops, SimpleSeams, SimpleFace, FaceKeeps;
    PlanIsSimple(m, tau, plan);
    PlanKeepsRuns(m, tau, plan);
  }

  /** What a face loses is removed. */
  lemma GoneRemoved(m: Seamed, tau: real, plan: Plan, f: nat, e: nat)
    requires tau > 0.0 && Planned(m, tau, plan) && f < |m.faces| && f < |plan.gone| && e in plan.gone[f]
    ensures e in plan.removed
  {
    hide *;
    PlannedParts(m, tau, plan);
    EachFaceKeeps(m, plan);
    LostIsRemoved(m, plan, f, e);
  }

  lemma EachFaceKeeps(m: Seamed, plan: Plan)
    requires RunsEverywhere(m, plan)
    ensures |plan.runs| == |plan.gone| == |m.faces|
    ensures forall g :: 0 <= g < |m.faces| ==> FaceKeeps(m.faces[g], plan.runs[g], plan.gone[g])
  {
    hide FaceKeeps;
  }

  /** A corner of the face's runs is one of its loops, or goes by a removed edge. */
  lemma RunsToFace(m: Seamed, tau: real, plan: Plan, f: nat, v: nat, d: nat, e: nat)
    requires tau > 0.0 && Planned(m, tau, plan) && f < |m.faces| && f < |plan.runs|
    requires RunCorner(m, plan.runs[f], v, d, e)
    ensures FaceCorner(m, f, v, d, e) ||
      exists x :: x in plan.removed && FaceCorner(m, f, v, d, x) && FaceCorner(m, f, v, x, e)
  {
    hide *;
    PlannedParts(m, tau, plan);
    var parts := PartsFrom(m.faces[f], tau, plan.runs[f], plan.gone[f]);
    var j := RunCornerOf(m, m.faces[f], tau, parts, plan.runs[f], plan.gone[f], v, d, e);
    PartAt(m, tau, f, parts, plan.runs[f], plan.gone[f], j);
    PartToLoop(m, tau, f, j, parts[j], v, d, e);
    var loop := m.faces[f].loops[j];
    if Corner(m, loop, v, d, e) {
      InFace(m, f, j, v, d, e);
    } else {
      var x :| x in parts[j].gone && Corner(m, loop, v, d, x) && Corner(m, loop, v, x, e);
      GoneRemoved(m, tau, plan, f, x);
      InFace(m, f, j, v, d, x);
      InFace(m, f, j, v, x, e);
    }
  }

  lemma FaceToRuns(m: Seamed, tau: real, plan: Plan, f: nat, v: nat, d: nat, e: nat)
    requires tau > 0.0 && Planned(m, tau, plan) && f < |m.faces| && f < |plan.runs|
    requires FaceCorner(m, f, v, d, e) && d !in plan.removed && e !in plan.removed
    ensures RunCorner(m, plan.runs[f], v, d, e)
  {
    var l :| 0 <= l < |m.faces[f].loops| && Corner(m, m.faces[f].loops[l], v, d, e);
    hide *;
    PlannedParts(m, tau, plan);
    var parts := PartsFrom(m.faces[f], tau, plan.runs[f], plan.gone[f]);
    PartsCount(m.faces[f], tau, parts, plan.runs[f], plan.gone[f]);
    PartAt(m, tau, f, parts, plan.runs[f], plan.gone[f], l);
    if d in parts[l].gone {
      GoneRemoved(m, tau, plan, f, d);
    }
    if e in parts[l].gone {
      GoneRemoved(m, tau, plan, f, e);
    }
    LoopToPart(m, tau, f, l, parts[l], v, d, e);
    PartCornerIn(m, m.faces[f], tau, parts, plan.runs[f], plan.gone[f], l, v, d, e);
  }

  lemma PartsCount(face: SFace, tau: real, parts: seq<Part>, runs: seq<Run>, gone: set<nat>)
    requires tau > 0.0 && PartsAre(face, tau, parts, runs, gone)
    ensures |parts| == |face.loops|
  {
    hide PartOf, PartRuns, GoneIs;
  }

  ghost predicate FaceBeside(m: Seamed, f: nat, v: nat, d: nat, e: nat)
    requires f < |m.faces|
  {
    FaceCorner(m, f, v, d, e) || FaceCorner(m, f, v, e, d)
  }

  ghost predicate RunBeside(m: Seamed, runs: seq<Run>, v: nat, d: nat, e: nat) {
    RunCorner(m, runs, v, d, e) || RunCorner(m, runs, v, e, d)
  }

  lemma BesideUsed(m: Seamed, uses: seq<Use>, v: nat, d: nat, x: nat)
    requires Beside(m, uses, v, d, x)
    ensures exists u :: u in uses && u.edge == x
  {
    hide To;
    if Corner(m, uses, v, d, x) {
      var k :| 0 <= k < |uses| && CornerAt(m, uses, v, d, x, k);
      assert uses[Next(|uses|, k)] in uses;
    } else {
      var k :| 0 <= k < |uses| && CornerAt(m, uses, v, x, d, k);
      assert uses[k] in uses;
    }
  }

  lemma FaceBesideAt(m: Seamed, f: nat, v: nat, d: nat, x: nat) returns (l: nat)
    requires f < |m.faces| && FaceBeside(m, f, v, d, x)
    ensures l < |m.faces[f].loops| && Beside(m, m.faces[f].loops[l], v, d, x)
  {
    hide Corner;
    l :| 0 <= l < |m.faces[f].loops| && Beside(m, m.faces[f].loops[l], v, d, x);
  }

  /** Where a removed edge is lost: the part of the one loop that uses it. */
  lemma LostPlace(m: Seamed, tau: real, plan: Plan, x: nat) returns (f: nat, l: nat, part: Part)
    requires tau > 0.0 && Planned(m, tau, plan) && x in plan.removed
    ensures f < |m.faces| && l < |m.faces[f].loops| && OnlyIn(m, x, f, l) && x in part.gone && x < |m.edges|
    ensures PartOf(m.faces[f].surface.kind == Cylinder, m.faces[f].loops[l], tau, part)
    ensures f < |plan.runs| &&
      forall v, d, e :: PartCorner(m, part, v, d, e) ==> RunCorner(m, plan.runs[f], v, d, e)
    ensures f < |plan.gone| && part.gone <= plan.gone[f]
  {
    hide *;
    PlannedParts(m, tau, plan);
    f := GoneAtFace(plan, x);
    var parts := PartsFrom(m.faces[f], tau, plan.runs[f], plan.gone[f]);
    l := GoneInPart(m.faces[f], tau, parts, plan.runs[f], plan.gone[f], x);
    PartAt(m, tau, f, parts, plan.runs[f], plan.gone[f], l);
    part := parts[l];
    SimplePart(m, tau, f, l, part);
    forall v, d, e | PartCorner(m, part, v, d, e)
      ensures RunCorner(m, plan.runs[f], v, d, e)
    {
      PartCornerIn(m, m.faces[f], tau, parts, plan.runs[f], plan.gone[f], l, v, d, e);
    }
  }

  lemma GoneAtFace(plan: Plan, x: nat) returns (f: nat)
    requires RemovedIs(plan.runs, plan.gone, plan.removed) && x in plan.removed
    ensures f < |plan.gone| && x in plan.gone[f]
  {
    hide UsedBy;
    assert GoneFrom(plan.gone, x);
    f :| 0 <= f < |plan.gone| && x in plan.gone[f];
  }

  lemma GoneInPart(face: SFace, tau: real, parts: seq<Part>, runs: seq<Run>, gone: set<nat>, x: nat) returns (l: nat)
    requires tau > 0.0 && PartsAre(face, tau, parts, runs, gone) && x in gone
    ensures l < |parts| && x in parts[l].gone
  {
    hide PartOf, PartRuns;
    l := GoneAt(parts, gone, x);
  }

  lemma OnlyPlace(m: Seamed, x: nat, f: nat, l: nat, g: nat, k: nat, v: nat, d: nat)
    requires OnlyIn(m, x, f, l) && g < |m.faces| && k < |m.faces[g].loops| && Beside(m, m.faces[g].loops[k], v, d, x)
    ensures g == f && k == l
  {
    hide Beside;
    BesideUsed(m, m.faces[g].loops[k], v, d, x);
  }

  /** What is beside a removed edge is kept, and still at a corner of the face. */
  lemma BesideRemoved(m: Seamed, tau: real, plan: Plan, f: nat, v: nat, d: nat, x: nat) returns (g: nat)
    requires tau > 0.0 && Planned(m, tau, plan) && f < |m.faces| && f < |plan.runs| && x in plan.removed
    requires FaceBeside(m, f, v, d, x)
    ensures d !in plan.removed && RunBeside(m, plan.runs[f], v, d, g)
  {
    var l := FaceBesideAt(m, f, v, d, x);
    hide *;
    PlannedParts(m, tau, plan);
    var h, k, part := LostPlace(m, tau, plan, x);
    OnlyPlace(m, x, h, k, f, l, v, d);
    g := BesideLost(m, tau, f, l, part, v, d, x);
    PartBesideRuns(m, part, plan.runs[f], v, d, g);
    RunUseKept(m, tau, plan, f, v, d, g);
  }

  lemma PartBesideRuns(m: Seamed, part: Part, runs: seq<Run>, v: nat, d: nat, e: nat)
    requires PartBeside(m, part, v, d, e)
    requires forall w, a, b :: PartCorner(m, part, w, a, b) ==> RunCorner(m, runs, w, a, b)
    ensures RunBeside(m, runs, v, d, e)
  {
    hide PartCorner, RunCorner;
  }

  /** Edges at a corner of the runs are kept. */
  lemma RunUseKept(m: Seamed, tau: real, plan: Plan, f: nat, v: nat, d: nat, e: nat)
    requires tau > 0.0 && Planned(m, tau, plan) && f < |m.faces| && f < |plan.runs|
    requires RunBeside(m, plan.runs[f], v, d, e)
    ensures d !in plan.removed && e !in plan.removed
  {
    var u, w := RunUses(m, plan.runs[f], v, d, e);
    hide *;
    PlannedParts(m, tau, plan);
    KeptUseStays(plan, f, u);
    KeptUseStays(plan, f, w);
  }

  lemma RunUses(m: Seamed, runs: seq<Run>, v: nat, d: nat, e: nat) returns (u: Use, w: Use)
    requires RunBeside(m, runs, v, d, e)
    ensures InRuns(runs, u) && InRuns(runs, w) && u.edge == d && w.edge == e
  {
    hide To;
    if RunCorner(m, runs, v, d, e) {
      u, w := CornerUses(m, runs, v, d, e);
    } else {
      w, u := CornerUses(m, runs, v, e, d);
    }
  }

  lemma CornerUses(m: Seamed, runs: seq<Run>, v: nat, d: nat, e: nat) returns (u: Use, w: Use)
    requires RunCorner(m, runs, v, d, e)
    ensures InRuns(runs, u) && InRuns(runs, w) && u.edge == d && w.edge == e
  {
    hide To;
    var r :| 0 <= r < |runs| && Corner(m, runs[r].uses, v, d, e);
    var uses := runs[r].uses;
    var k :| 0 <= k < |uses| && CornerAt(m, uses, v, d, e, k);
    u, w := uses[k], uses[Next(|uses|, k)];
    assert u in uses && w in uses;
  }

  /** Two edges beside a removed one that does not run from v to v become neighbours. */
  lemma BesideOne(m: Seamed, tau: real, plan: Plan, f: nat, g: nat, v: nat, d: nat, e: nat, x: nat)
    requires tau > 0.0 && Planned(m, tau, plan) && f < |m.faces| && g < |m.faces| && f < |plan.runs|
    requires x in plan.removed && x < |m.edges| && !(m.edges[x].start == v == m.edges[x].end)
    requires FaceBeside(m, f, v, d, x) && FaceBeside(m, g, v, e, x)
    ensures g == f && (d == e || RunBeside(m, plan.runs[f], v, d, e))
  {
    var l := FaceBesideAt(m, f, v, d, x);
    var n := FaceBesideAt(m, g, v, e, x);
    hide *;
    PlannedParts(m, tau, plan);
    var h, k, part := LostPlace(m, tau, plan, x);
    OnlyPlace(m, x, h, k, f, l, v, d);
    OnlyPlace(m, x, h, k, g, n, v, e);
    BesideBoth(m, tau, f, l, part, v, d, e, x);
    if d != e {
      PartBesideRuns(m, part, plan.runs[f], v, d, e);
    }
  }

  // ------------------------------------------------------------------ pinched vertices

  /** Which edges are neighbours at v in the shell. */
  ghost predicate Near(m: Seamed, s: seq<nat>, v: nat, d: nat, e: nat) {
    exists k :: 0 <= k < |s| && s[k] < |m.faces| && FaceBeside(m, s[k], v, d, e)
  }

  /** And after the seams are gone. */
  ghost predicate NearKept(m: Seamed, plan: Plan, s: seq<nat>, v: nat, d: nat, e: nat) {
    exists k :: 0 <= k < |s| && s[k] < |plan.runs| && RunBeside(m, plan.runs[s[k]], v, d, e)
  }

  lemma NearAt(m: Seamed, s: seq<nat>, k: nat, v: nat, d: nat, e: nat)
    requires k < |s| && s[k] < |m.faces| && FaceBeside(m, s[k], v, d, e)
    ensures Near(m, s, v, d, e) && Near(m, s, v, e, d)
  {
    hide FaceCorner;
  }

  lemma NearKeptAt(m: Seamed, plan: Plan, s: seq<nat>, k: nat, v: nat, d: nat, e: nat)
    requires k < |s| && s[k] < |plan.runs| && RunBeside(m, plan.runs[s[k]], v, d, e)
    ensures NearKept(m, plan, s, v, d, e) && NearKept(m, plan, s, v, e, d)
  {
    hide RunCorner;
  }

  lemma NearFace(m: Seamed, s: seq<nat>, v: nat, d: nat, e: nat) returns (k: nat)
    requires Near(m, s, v, d, e)
    ensures k < |s| && s[k] < |m.faces| && FaceBeside(m, s[k], v, d, e)
  {
    hide FaceBeside;
    k :| 0 <= k < |s| && s[k] < |m.faces| && FaceBeside(m, s[k], v, d, e);
  }

  lemma NearKeptFace(m: Seamed, plan: Plan, s: seq<nat>, v: nat, d: nat, e: nat) returns (k: nat)
    requires NearKept(m, plan, s, v, d, e)
    ensures k < |s| && s[k] < |plan.runs| && RunBeside(m, plan.runs[s[k]], v, d, e)
  {
    hide RunBeside;
    k :| 0 <= k < |s| && s[k] < |plan.runs| && RunBeside(m, plan.runs[s[k]], v, d, e);
  }

  /** Kept neighbours are neighbours, or have a removed one between them. */
  lemma NearWas(m: Seamed, tau: real, plan: Plan, s: seq<nat>, v: nat, d: nat, e: nat)
    requires tau > 0.0 && Planned(m, tau, plan) && AllBelow(s, |m.faces|) && NearKept(m, plan, s, v, d, e)
    ensures Near(m, s, v, d, e) || exists x :: x in plan.removed && Near(m, s, v, d, x) && Near(m, s, v, x, e)
    ensures d !in plan.removed && e !in plan.removed
  {
    hide *;
    PlannedParts(m, tau, plan);
    var k := NearKeptFace(m, plan, s, v, d, e);
    FaceIn(s, k, |m.faces|);
    RunUseKept(m, tau, plan, s[k], v, d, e);
    var a, b := Oriented(m, plan.runs[s[k]], v, d, e);
    RunsToFace(m, tau, plan, s[k], v, a, b);
    if FaceCorner(m, s[k], v, a, b) {
      CornerNear(m, s, k, v, a, b);
    } else {
      var x :| x in plan.removed && FaceCorner(m, s[k], v, a, x) && FaceCorner(m, s[k], v, x, b);
      CornerNear(m, s, k, v, a, x);
      CornerNear(m, s, k, v, x, b);
    }
  }

  lemma FaceIn(s: seq<nat>, k: nat, n: nat)
    requires AllBelow(s, n) && k < |s|
    ensures s[k] < n
  {
  }

  lemma Oriented(m: Seamed, runs: seq<Run>, v: nat, d: nat, e: nat) returns (a: nat, b: nat)
    requires RunBeside(m, runs, v, d, e)
    ensures RunCorner(m, runs, v, a, b) && ((a == d && b == e) || (a == e && b == d))
  {
    hide RunCorner;
    if RunCorner(m, runs, v, d, e) {
      a, b := d, e;
    } else {
      a, b := e, d;
    }
  }

  lemma CornerNear(m: Seamed, s: seq<nat>, k: nat, v: nat, a: nat, b: nat)
    requires k < |s| && s[k] < |m.faces| && FaceCorner(m, s[k], v, a, b)
    ensures Near(m, s, v, a, b) && Near(m, s, v, b, a)
  {
    hide FaceCorner;
    NearAt(m, s, k, v, a, b);
  }

  /** Neighbours that are kept stay neighbours. */
  lemma NearStays(m: Seamed, tau: real, plan: Plan, s: seq<nat>, v: nat, d: nat, e: nat)
    requires tau > 0.0 && Planned(m, tau, plan) && AllBelow(s, |m.faces|) && Near(m, s, v, d, e)
    requires d !in plan.removed && e !in plan.removed
    ensures NearKept(m, plan, s, v, d, e) && NearKept(m, plan, s, v, e, d)
  {
    hide *;
    PlannedParts(m, tau, plan);
    var k := NearFace(m, s, v, d, e);
    FaceBesideStays(m, tau, plan, s[k], v, d, e);
    NearKeptAt(m, plan, s, k, v, d, e);
  }

  lemma FaceBesideStays(m: Seamed, tau: real, plan: Plan, f: nat, v: nat, d: nat, e: nat)
    requires tau > 0.0 && Planned(m, tau, plan) && f < |m.faces| && f < |plan.runs| && FaceBeside(m, f, v, d, e)
    requires d !in plan.removed && e !in plan.removed
    ensures RunBeside(m, plan.runs[f], v, d, e)
  {
    hide FaceCorner, RunCorner, Planned;
    if FaceCorner(m, f, v, d, e) {
      FaceToRuns(m, tau, plan, f, v, d, e);
    } else {
      FaceToRuns(m, tau, plan, f, v, e, d);
    }
  }

  lemma NearRemoved(m: Seamed, tau: real, plan: Plan, s: seq<nat>, v: nat, d: nat, x: nat) returns (g: nat)
    requires tau > 0.0 && Planned(m, tau, plan) && AllBelow(s, |m.faces|) && Near(m, s, v, d, x) && x in plan.removed
    ensures d !in plan.removed && NearKept(m, plan, s, v, d, g)
  {
    hide *;
    PlannedParts(m, tau, plan);
    var k := NearFace(m, s, v, d, x);
    g := BesideRemoved(m, tau, plan, s[k], v, d, x);
    NearKeptAt(m, plan, s, k, v, d, g);
  }

  lemma NearJoined(m: Seamed, tau: real, plan: Plan, s: seq<nat>, v: nat, d: nat, e: nat, x: nat)
    requires tau > 0.0 && Planned(m, tau, plan) && AllBelow(s, |m.faces|) && x in plan.removed && x < |m.edges|
    requires Near(m, s, v, d, x) && Near(m, s, v, e, x) && !(m.edges[x].start == v == m.edges[x].end)
    ensures d == e || NearKept(m, plan, s, v, d, e)
  {
    hide *;
    PlannedParts(m, tau, plan);
    var k := NearFace(m, s, v, d, x);
    var j := NearFace(m, s, v, e, x);
    BesideOne(m, tau, plan, s[k], s[j], v, d, e, x);
    if d != e {
      NearKeptAt(m, plan, s, k, v, d, e);
    }
  }

  /** A set of edges that no two neighbours are separated by, with some inside and some outside. */
  ghost predicate Separates(near: (nat, nat) -> bool, part: set<nat>) {
    && (forall d, e :: near(d, e) ==> (d in part <==> e in part))
    && (exists d, e :: near(d, e) && d in part) && exists d, e :: near(d, e) && d !in part
  }

  /** The neighbours at a vertex do not hang together. */
  ghost predicate Pinched(near: (nat, nat) -> bool) {
    exists part :: Separates(near, part)
  }

  ghost function Links(m: Seamed, s: seq<nat>, v: nat): (nat, nat) -> bool {
    (d: nat, e: nat) => Near(m, s, v, d, e)
  }

  ghost function KeptLinks(m: Seamed, plan: Plan, s: seq<nat>, v: nat): (nat, nat) -> bool {
    (d: nat, e: nat) => NearKept(m, plan, s, v, d, e)
  }

  lemma SeparatesFrom(near: (nat, nat) -> bool, part: set<nat>, d: nat, e: nat, a: nat, b: nat)
    requires forall x, y :: near(x, y) ==> (x in part <==> y in part)
    requires near(d, e) && d in part && near(a, b) && a !in part
    ensures Separates(near, part)
  {
  }

  lemma SeparatesAt(near: (nat, nat) -> bool, part: set<nat>) returns (d: nat, e: nat, a: nat, b: nat)
    requires Separates(near, part)
    ensures near(d, e) && d in part && near(a, b) && a !in part
    ensures forall x, y :: near(x, y) ==> (x in part <==> y in part)
  {
    var p, q :| near(p, q) && p in part;
    var r, t :| near(r, t) && r !in part;
    d, e, a, b := p, q, r, t;
  }

  /** Some kept edge is where an edge was, on its side. */
  lemma NodeKept(m: Seamed, tau: real, plan: Plan, s: seq<nat>, v: nat, d: nat, e: nat) returns (a: nat, b: nat)
    requires tau > 0.0 && Planned(m, tau, plan) && AllBelow(s, |m.faces|) && Near(m, s, v, d, e)
    ensures (a == d || a == e) && NearKept(m, plan, s, v, a, b)
  {
    NearSwaps(m, s, v, d, e);
    hide Near, NearKept, Planned;
    if d in plan.removed {
      a := e;
      b := NearRemoved(m, tau, plan, s, v, e, d);
    } else if e in plan.removed {
      a := d;
      b := NearRemoved(m, tau, plan, s, v, d, e);
    } else {
      a, b := d, e;
      NearStays(m, tau, plan, s, v, d, e);
    }
  }

  lemma NearSwaps(m: Seamed, s: seq<nat>, v: nat, d: nat, e: nat)
    requires Near(m, s, v, d, e)
    ensures Near(m, s, v, e, d)
  {
    var k := NearFace(m, s, v, d, e);
    NearAt(m, s, k, v, d, e);
  }

  /** What separates the edges separates the kept ones. */
  lemma SeparatesKept(m: Seamed, tau: real, plan: Plan, s: seq<nat>, v: nat, part: set<nat>)
    requires tau > 0.0 && Planned(m, tau, plan) && AllBelow(s, |m.faces|) && Separates(Links(m, s, v), part)
    ensures Separates(KeptLinks(m, plan, s, v), part)
  {
    hide Near, NearKept, Planned, Separates, AllBelow;
    var d, e, a, b := SeparatesAt(Links(m, s, v), part);
    forall x, y | NearKept(m, plan, s, v, x, y)
      ensures x in part <==> y in part
    {
      NearWas(m, tau, plan, s, v, x, y);
      if !Near(m, s, v, x, y) {
        var z :| z in plan.removed && Near(m, s, v, x, z) && Near(m, s, v, z, y);
        assert Links(m, s, v)(x, z) && Links(m, s, v)(z, y);
      } else {
        assert Links(m, s, v)(x, y);
      }
    }
    var f, g := NodeKept(m, tau, plan, s, v, d, e);
    var h, i := NodeKept(m, tau, plan, s, v, a, b);
    SeparatesFrom(KeptLinks(m, plan, s, v), part, f, g, h, i);
  }

  /** No lost seam runs from v to v. */
  ghost predicate SeamsLeave(m: Seamed, plan: Plan, v: nat) {
    forall x :: x in plan.removed && x < |m.edges| ==> !(m.edges[x].start == v == m.edges[x].end)
  }

  /** The kept edges of a part and the removed ones beside them. */
  ghost function WithRemoved(m: Seamed, plan: Plan, s: seq<nat>, v: nat, part: set<nat>): set<nat> {
    (part - plan.removed) + set x | x in plan.removed && exists d :: d in part && Near(m, s, v, d, x)
  }

  lemma KeptSide(m: Seamed, plan: Plan, s: seq<nat>, v: nat, part: set<nat>, d: nat)
    requires d !in plan.removed
    ensures d in WithRemoved(m, plan, s, v, part) <==> d in part
  {
    hide Near;
  }

  /** Beside a removed edge all is on one side. */
  lemma OneSide(m: Seamed, tau: real, plan: Plan, s: seq<nat>, v: nat, part: set<nat>, d: nat, x: nat)
    requires tau > 0.0 && Planned(m, tau, plan) && AllBelow(s, |m.faces|) && SeamsLeave(m, plan, v)
    requires forall a, b :: NearKept(m, plan, s, v, a, b) ==> (a in part <==> b in part)
    requires Near(m, s, v, d, x) && x in plan.removed
    ensures d in WithRemoved(m, plan, s, v, part) <==> x in WithRemoved(m, plan, s, v, part)
  {
    hide *;
    var g := NearRemoved(m, tau, plan, s, v, d, x);
    KeptSide(m, plan, s, v, part, d);
    RemovedSide(m, plan, s, v, part, x);
    if e :| e in part && Near(m, s, v, e, x) {
      LeavesAt(m, tau, plan, v, x);
      NearJoined(m, tau, plan, s, v, d, e, x);
    }
  }

  lemma LeavesAt(m: Seamed, tau: real, plan: Plan, v: nat, x: nat)
    requires tau > 0.0 && Planned(m, tau, plan) && SeamsLeave(m, plan, v) && x in plan.removed
    ensures x < |m.edges| && !(m.edges[x].start == v == m.edges[x].end)
  {
    hide Planned;
    PlannedParts(m, tau, plan);
  }

  lemma RemovedSide(m: Seamed, plan: Plan, s: seq<nat>, v: nat, part: set<nat>, x: nat)
    requires x in plan.removed
    ensures x in WithRemoved(m, plan, s, v, part) <==> exists d :: d in part && Near(m, s, v, d, x)
  {
    hide Near;
  }

  lemma AllTogether(m: Seamed, tau: real, plan: Plan, s: seq<nat>, v: nat, part: set<nat>, d: nat, e: nat)
    requires tau > 0.0 && Planned(m, tau, plan) && AllBelow(s, |m.faces|) && SeamsLeave(m, plan, v)
    requires forall a, b :: NearKept(m, plan, s, v, a, b) ==> (a in part <==> b in part)
    requires Near(m, s, v, d, e)
    ensures d in WithRemoved(m, plan, s, v, part) <==> e in WithRemoved(m, plan, s, v, part)
  {
    hide *;
    NearSwaps(m, s, v, d, e);
    if e in plan.removed {
      OneSide(m, tau, plan, s, v, part, d, e);
    } else if d in plan.removed {
      OneSide(m, tau, plan, s, v, part, e, d);
    } else {
      NearStays(m, tau, plan, s, v, d, e);
      KeptSide(m, plan, s, v, part, d);
      KeptSide(m, plan, s, v, part, e);
    }
  }

  lemma SeparatesAll(m: Seamed, tau: real, plan: Plan, s: seq<nat>, v: nat, part: set<nat>)
    requires tau > 0.0 && Planned(m, tau, plan) && AllBelow(s, |m.faces|) && SeamsLeave(m, plan, v)
    requires Separates(KeptLinks(m, plan, s, v), part)
    ensures Separates(Links(m, s, v), WithRemoved(m, plan, s, v, part))
  {
    hide Near, NearKept, Planned, SeamsLeave, WithRemoved, Separates, AllBelow;
    var all := WithRemoved(m, plan, s, v, part);
    var d, e, a, b := SeparatesAt(KeptLinks(m, plan, s, v), part);
    forall x, y | NearKept(m, plan, s, v, x, y)
      ensures x in part <==> y in part
    {
      assert KeptLinks(m, plan, s, v)(x, y);
    }
    forall x, y | Near(m, s, v, x, y)
      ensures x in all <==> y in all
    {
      AllTogether(m, tau, plan, s, v, part, x, y);
    }
    var f := WasNode(m, tau, plan, s, v, d, e);
    var g := WasNode(m, tau, plan, s, v, a, b);
    KeptSide(m, plan, s, v, part, d);
    KeptSide(m, plan, s, v, part, a);
    SeparatesFrom(Links(m, s, v), all, d, f, a, g);
  }

  lemma WasNode(m: Seamed, tau: real, plan: Plan, s: seq<nat>, v: nat, d: nat, e: nat) returns (f: nat)
    requires tau > 0.0 && Planned(m, tau, plan) && AllBelow(s, |m.faces|) && NearKept(m, plan, s, v, d, e)
    ensures Near(m, s, v, d, f) && d !in plan.removed
  {
    NearWas(m, tau, plan, s, v, d, e);
    hide Near, NearKept, Planned;
    if Near(m, s, v, d, e) {
      f := e;
    } else {
      f :| f in plan.removed && Near(m, s, v, d, f) && Near(m, s, v, f, e);
    }
  }

  /** The links of a vertex that no lost seam runs from and to hang together after the seams are gone exactly if they
      did before. */
  lemma PinchKept(m: Seamed, tau: real, plan: Plan, s: seq<nat>, v: nat)
    requires tau > 0.0 && Planned(m, tau, plan) && AllBelow(s, |m.faces|)
    ensures Pinched(Links(m, s, v)) ==> Pinched(KeptLinks(m, plan, s, v))
    ensures SeamsLeave(m, plan, v) ==> (Pinched(Links(m, s, v)) <==> Pinched(KeptLinks(m, plan, s, v)))
  {
    hide Separates, Planned, SeamsLeave;
    if part :| Separates(Links(m, s, v), part) {
      SeparatesKept(m, tau, plan, s, v, part);
    }
    if SeamsLeave(m, plan, v) && Pinched(KeptLinks(m, plan, s, v)) {
      var part :| Separates(KeptLinks(m, plan, s, v), part);
      SeparatesAll(m, tau, plan, s, v, part);
    }
  }

  // ------------------------------------------------------------------ in the cell

  /** At w a fin of edge j follows one of edge i in loop l. */
  ghost predicate CellCorner(c: CellData, l: nat, w: nat, i: nat, j: nat) {
    && l < |c.loops|
    && exists k :: 0 <= k < |c.loops[l].fins| && FinCorner(c, c.loops[l].fins, w, i, j, k)
  }

  predicate FinCorner(c: CellData, fins: seq<nat>, w: nat, i: nat, j: nat, k: nat)
    requires k < |fins|
  {
    var x, y := fins[k], fins[Next(|fins|, k)];
    x < |c.fins| && y < |c.fins| && FinEnds(c, x).1 == Some(w) && c.fins[x].edge == i && c.fins[y].edge == j
  }

  ghost predicate CellFaceCorner(c: CellData, f: nat, w: nat, i: nat, j: nat) {
    f < |c.faces| && exists t :: 0 <= t < |c.faces[f].loops| && CellCorner(c, c.faces[f].loops[t], w, i, j)
  }

  ghost predicate CellNear(c: CellData, s: seq<nat>, w: nat, i: nat, j: nat) {
    exists k :: 0 <= k < |s| && (CellFaceCorner(c, s[k], w, i, j) || CellFaceCorner(c, s[k], w, j, i))
  }

  ghost function CellLinks(c: CellData, s: seq<nat>, w: nat): (nat, nat) -> bool {
    (i: nat, j: nat) => CellNear(c, s, w, i, j)
  }

  /** A fin's corner is its use's. */
  lemma FinCornerIff(c: CellData, m: Seamed, tau: real, plan: Plan, f: nat, fins: seq<nat>, uses: seq<Use>, v: nat,
                     d: nat, e: nat, k: nat)
    requires tau > 0.0 && Good(c, m, tau, plan) && f < |c.faces| == |plan.runs| && |fins| == |uses| && k < |fins|
    requires forall j :: 0 <= j < |fins| ==>
      fins[j] < |c.fins| && c.fins[fins[j]] == FinOf(uses[j], plan.edgeMap) && InRuns(plan.runs[f], uses[j])
    requires v in plan.vertexMap && d in plan.edgeMap && e in plan.edgeMap
    ensures FinCorner(c, fins, plan.vertexMap[v], plan.edgeMap[d], plan.edgeMap[e], k) <==>
      CornerAt(m, uses, v, d, e, k)
  {
    hide *;
    var n := NextBelow(|fins|, k);
    FinEndsAre(c, m, tau, plan, f, uses[k], fins[k]);
    SizesOf(c, m, tau, plan);
    GoodEdges(c, m, tau, plan);
    NumberOfUse(m, tau, plan, f, uses[k], c);
    NumberOfUse(m, tau, plan, f, uses[n], c);
    EndIs(c, m, plan, uses[k], fins[k], v);
    SameEdge(|m.edges|, plan.removed, plan.edgeMap, plan.keptEdges, uses[k].edge, d);
    SameEdge(|m.edges|, plan.removed, plan.edgeMap, plan.keptEdges, uses[n].edge, e);
    FinCornerNamed(c, m, plan, fins, uses, v, d, e, k);
  }

  lemma GoodEdges(c: CellData, m: Seamed, tau: real, plan: Plan)
    requires tau > 0.0 && Good(c, m, tau, plan)
    ensures Renumbered(|m.edges|, plan.removed, plan.edgeMap, plan.keptEdges)
  {
    hide *;
    GoodSizes(c, m, tau, plan);
  }

  lemma NumberOfUse(m: Seamed, tau: real, plan: Plan, f: nat, u: Use, c: CellData)
    requires tau > 0.0 && Good(c, m, tau, plan) && f < |m.faces| && f < |plan.runs| && InRuns(plan.runs[f], u)
    ensures u.edge in plan.edgeMap && FinOf(u, plan.edgeMap).edge == plan.edgeMap[u.edge]
  {
    hide *;
    KeptNumber(c, m, tau, plan, f, u);
    NumberIs(u, plan.edgeMap);
  }

  lemma SameEdge(n: nat, gone: set<nat>, numbers: map<nat, nat>, kept: seq<nat>, d: nat, e: nat)
    requires Renumbered(n, gone, numbers, kept) && d in numbers && e in numbers
    ensures numbers[d] == numbers[e] <==> d == e
  {
  }

  /** The fin ends at v's number exactly if the use ends at v. */
  lemma EndIs(c: CellData, m: Seamed, plan: Plan, u: Use, k: nat, v: nat)
    requires Renumbered(|m.vertices|, plan.drop, plan.vertexMap, plan.keptVertices) && v in plan.vertexMap
    requires if BecomesRing(m, plan, u.edge) then FinEnds(c, k) == (None, None)
      else
        && FinEnds(c, k) == (Shown(plan, From(m, u)), Shown(plan, To(m, u)))
        && From(m, u) in plan.vertexMap && To(m, u) in plan.vertexMap
    ensures FinEnds(c, k).1 == Some(plan.vertexMap[v]) <==> To(m, u) == v
  {
    hide FinEnds;
    if BecomesRing(m, plan, u.edge) {
      assert To(m, u) in plan.drop;
    } else {
      SameEdge(|m.vertices|, plan.drop, plan.vertexMap, plan.keptVertices, To(m, u), v);
    }
  }

  lemma FinCornerNamed(c: CellData, m: Seamed, plan: Plan, fins: seq<nat>, uses: seq<Use>, v: nat, d: nat, e: nat,
                       k: nat)
    requires |fins| == |uses| && k < |fins| && v in plan.vertexMap && d in plan.edgeMap && e in plan.edgeMap
    requires var n := Next(|fins|, k); fins[k] < |c.fins| && fins[n] < |c.fins|
    requires FinEnds(c, fins[k]).1 == Some(plan.vertexMap[v]) <==> To(m, uses[k]) == v
    requires c.fins[fins[k]].edge == plan.edgeMap[d] <==> uses[k].edge == d
    requires var n := Next(|fins|, k); c.fins[fins[n]].edge == plan.edgeMap[e] <==> uses[n].edge == e
    ensures FinCorner(c, fins, plan.vertexMap[v], plan.edgeMap[d], plan.edgeMap[e], k) <==>
      CornerAt(m, uses, v, d, e, k)
  {
    hide FinEnds, To;
  }

  /** A loop's corners are its run's. */
  lemma LoopCornerIff(c: CellData, m: Seamed, tau: real, plan: Plan, f: nat, l: nat, run: Run, v: nat, d: nat, e: nat)
    requires tau > 0.0 && Good(c, m, tau, plan) && f < |c.faces| == |plan.runs| && l < |c.loops|
    requires RunShown(c, c.loops[l], run, plan.edgeMap) && forall u :: u in run.uses ==> InRuns(plan.runs[f], u)
    requires v in plan.vertexMap && d in plan.edgeMap && e in plan.edgeMap
    ensures CellCorner(c, l, plan.vertexMap[v], plan.edgeMap[d], plan.edgeMap[e]) <==> Corner(m, run.uses, v, d, e)
  {
    ShownParts(c, c.loops[l], run, plan.edgeMap);
    hide RunShown, Good, InRuns, FinCorner, CornerAt, FinOf;
    var fins := c.loops[l].fins;
    forall k | 0 <= k < |fins|
      ensures FinCorner(c, fins, plan.vertexMap[v], plan.edgeMap[d], plan.edgeMap[e], k) <==>
        CornerAt(m, run.uses, v, d, e, k)
    {
      FinCornerIff(c, m, tau, plan, f, fins, run.uses, v, d, e, k);
    }
  }

  lemma FaceCornerIff(c: CellData, m: Seamed, tau: real, plan: Plan, f: nat, v: nat, d: nat, e: nat)
    requires tau > 0.0 && Good(c, m, tau, plan) && f < |c.faces|
    requires v in plan.vertexMap && d in plan.edgeMap && e in plan.edgeMap
    ensures f < |plan.runs|
    ensures CellFaceCorner(c, f, plan.vertexMap[v], plan.edgeMap[d], plan.edgeMap[e]) <==>
      RunCorner(m, plan.runs[f], v, d, e)
  {
    hide *;
    SizesOf(c, m, tau, plan);
    var first := GoodFaceShown(c, m, tau, plan, f);
    var runs := plan.runs[f];
    LoopsAre(c, f, first, |runs|);
    forall r | 0 <= r < |runs|
      ensures c.faces[f].loops[r] == first + r
      ensures CellCorner(c, first + r, plan.vertexMap[v], plan.edgeMap[d], plan.edgeMap[e]) <==>
        Corner(m, runs[r].uses, v, d, e)
    {
      RunShownAt(c, first, runs, plan.edgeMap, r);
      UsesInRuns(runs, r);
      LoopCornerIff(c, m, tau, plan, f, first + r, runs[r], v, d, e);
    }
    FaceCornerNamed(c, m, f, first, runs, v, d, e, plan.vertexMap[v], plan.edgeMap[d], plan.edgeMap[e]);
  }

  lemma FaceCornerNamed(c: CellData, m: Seamed, f: nat, first: nat, runs: seq<Run>, v: nat, d: nat, e: nat, w: nat,
                        i: nat, j: nat)
    requires f < |c.faces| && |c.faces[f].loops| == |runs|
    requires forall r :: 0 <= r < |runs| ==> c.faces[f].loops[r] == first + r
    requires forall r :: 0 <= r < |runs| ==> (CellCorner(c, first + r, w, i, j) <==> Corner(m, runs[r].uses, v, d, e))
    ensures CellFaceCorner(c, f, w, i, j) <==> RunCorner(m, runs, v, d, e)
  {
    hide CellCorner, Corner;
    if RunCorner(m, runs, v, d, e) {
      var r :| 0 <= r < |runs| && Corner(m, runs[r].uses, v, d, e);
      assert CellCorner(c, c.faces[f].loops[r], w, i, j);
    }
    if CellFaceCorner(c, f, w, i, j) {
      var t :| 0 <= t < |c.faces[f].loops| && CellCorner(c, c.faces[f].loops[t], w, i, j);
      assert Corner(m, runs[t].uses, v, d, e);
    }
  }

  lemma CellNearIff(c: CellData, m: Seamed, tau: real, plan: Plan, s: seq<nat>, v: nat, d: nat, e: nat)
    requires tau > 0.0 && Good(c, m, tau, plan) && AllBelow(s, |m.faces|)
    requires v in plan.vertexMap && d in plan.edgeMap && e in plan.edgeMap
    ensures CellNear(c, s, plan.vertexMap[v], plan.edgeMap[d], plan.edgeMap[e]) <==> NearKept(m, plan, s, v, d, e)
  {
    SizesOf(c, m, tau, plan);
    hide Good, CellFaceCorner, RunCorner;
    forall k | 0 <= k < |s|
      ensures s[k] < |plan.runs|
      ensures CellFaceCorner(c, s[k], plan.vertexMap[v], plan.edgeMap[d], plan.edgeMap[e]) <==>
        RunCorner(m, plan.runs[s[k]], v, d, e)
      ensures CellFaceCorner(c, s[k], plan.vertexMap[v], plan.edgeMap[e], plan.edgeMap[d]) <==>
        RunCorner(m, plan.runs[s[k]], v, e, d)
    {
      FaceCornerIff(c, m, tau, plan, s[k], v, d, e);
      FaceCornerIff(c, m, tau, plan, s[k], v, e, d);
    }
  }

  /** The cell's neighbours are numbers of kept edges. */
  lemma CellNearNumbers(c: CellData, m: Seamed, tau: real, plan: Plan, s: seq<nat>, w: nat, i: nat, j: nat)
    requires tau > 0.0 && Good(c, m, tau, plan) && CellNear(c, s, w, i, j)
    ensures i < |plan.keptEdges| && j < |plan.keptEdges|
    ensures plan.keptEdges[i] in plan.edgeMap && plan.edgeMap[plan.keptEdges[i]] == i
    ensures plan.keptEdges[j] in plan.edgeMap && plan.edgeMap[plan.keptEdges[j]] == j
  {
    CellNearEdges(c, s, w, i, j);
    hide *;
    SizesOf(c, m, tau, plan);
    ReferencesGood(c, m, tau, plan);
    FinsRefer(c);
    GoodEdges(c, m, tau, plan);
    KeptIs(|m.edges|, plan.removed, plan.edgeMap, plan.keptEdges, i);
    KeptIs(|m.edges|, plan.removed, plan.edgeMap, plan.keptEdges, j);
  }

  lemma FinsRefer(c: CellData)
    requires GoodReferences(c)
    ensures forall k :: 0 <= k < |c.fins| ==> c.fins[k].edge < |c.edges|
  {
    forall k | 0 <= k < |c.fins|
      ensures c.fins[k].edge < |c.edges|
    {
      assert !BadReference(c, FinReference(k));
    }
  }

  lemma CellNearEdges(c: CellData, s: seq<nat>, w: nat, i: nat, j: nat)
    requires CellNear(c, s, w, i, j)
    ensures exists x, y :: 0 <= x < |c.fins| && 0 <= y < |c.fins| && c.fins[x].edge == i && c.fins[y].edge == j
  {
    hide FinEnds;
    var k :| 0 <= k < |s| && (CellFaceCorner(c, s[k], w, i, j) || CellFaceCorner(c, s[k], w, j, i));
    if CellFaceCorner(c, s[k], w, i, j) {
      CornerEdges(c, s[k], w, i, j);
    } else {
      CornerEdges(c, s[k], w, j, i);
    }
  }

  lemma CornerEdges(c: CellData, f: nat, w: nat, i: nat, j: nat)
    requires CellFaceCorner(c, f, w, i, j)
    ensures exists x, y :: 0 <= x < |c.fins| && 0 <= y < |c.fins| && c.fins[x].edge == i && c.fins[y].edge == j
  {
    hide FinEnds;
    var t :| 0 <= t < |c.faces[f].loops| && CellCorner(c, c.faces[f].loops[t], w, i, j);
    var fins := c.loops[c.faces[f].loops[t]].fins;
    var k :| 0 <= k < |fins| && FinCorner(c, fins, w, i, j, k);
    var x, y := fins[k], fins[Next(|fins|, k)];
    assert c.fins[x].edge == i && c.fins[y].edge == j;
  }

  lemma KeptNumbers(c: CellData, m: Seamed, tau: real, plan: Plan, s: seq<nat>, v: nat, d: nat, e: nat)
    requires tau > 0.0 && Good(c, m, tau, plan) && AllBelow(s, |m.faces|) && NearKept(m, plan, s, v, d, e)
    ensures d in plan.edgeMap && e in plan.edgeMap
  {
    hide *;
    SizesOf(c, m, tau, plan);
    var k := NearKeptFace(m, plan, s, v, d, e);
    var u, w := RunUses(m, plan.runs[s[k]], v, d, e);
    NumberOfUse(m, tau, plan, s[k], u, c);
    NumberOfUse(m, tau, plan, s[k], w, c);
  }

  ghost function Numbers(plan: Plan, part: set<nat>): set<nat> {
    set d | d in part && d in plan.edgeMap :: plan.edgeMap[d]
  }

  ghost function Numbered(plan: Plan, part: set<nat>): set<nat> {
    set d | d in plan.edgeMap && plan.edgeMap[d] in part
  }

  lemma NumbersIff(n: nat, plan: Plan, part: set<nat>, d: nat)
    requires Renumbered(n, plan.removed, plan.edgeMap, plan.keptEdges) && d in plan.edgeMap
    ensures plan.edgeMap[d] in Numbers(plan, part) <==> d in part
  {
    if plan.edgeMap[d] in Numbers(plan, part) {
      var e :| e in part && e in plan.edgeMap && plan.edgeMap[e] == plan.edgeMap[d];
      SameEdge(n, plan.removed, plan.edgeMap, plan.keptEdges, d, e);
    }
  }

  lemma NumberedIff(plan: Plan, part: set<nat>, d: nat)
    requires d in plan.edgeMap
    ensures d in Numbered(plan, part) <==> plan.edgeMap[d] in part
  {
  }

  lemma NumbersTogether(c: CellData, m: Seamed, tau: real, plan: Plan, s: seq<nat>, v: nat, part: set<nat>, i: nat,
                        j: nat)
    requires tau > 0.0 && Good(c, m, tau, plan) && AllBelow(s, |m.faces|) && v in plan.vertexMap
    requires forall d, e :: NearKept(m, plan, s, v, d, e) ==> (d in part <==> e in part)
    requires CellNear(c, s, plan.vertexMap[v], i, j)
    ensures i in Numbers(plan, part) <==> j in Numbers(plan, part)
  {
    hide *;
    GoodEdges(c, m, tau, plan);
    CellNearNumbers(c, m, tau, plan, s, plan.vertexMap[v], i, j);
    var d, e := plan.keptEdges[i], plan.keptEdges[j];
    CellNearIff(c, m, tau, plan, s, v, d, e);
    NumbersIff(|m.edges|, plan, part, d);
    NumbersIff(|m.edges|, plan, part, e);
  }

  lemma NumberedTogether(c: CellData, m: Seamed, tau: real, plan: Plan, s: seq<nat>, v: nat, part: set<nat>, d: nat,
                         e: nat)
    requires tau > 0.0 && Good(c, m, tau, plan) && AllBelow(s, |m.faces|) && v in plan.vertexMap
    requires forall i, j :: CellNear(c, s, plan.vertexMap[v], i, j) ==> (i in part <==> j in part)
    requires NearKept(m, plan, s, v, d, e)
    ensures d in Numbered(plan, part) <==> e in Numbered(plan, part)
  {
    hide *;
    KeptNumbers(c, m, tau, plan, s, v, d, e);
    CellNearIff(c, m, tau, plan, s, v, d, e);
    NumberedIff(plan, part, d);
    NumberedIff(plan, part, e);
  }

  lemma NumberOfNode(c: CellData, m: Seamed, tau: real, plan: Plan, s: seq<nat>, v: nat, part: set<nat>, d: nat, e: nat)
    requires tau > 0.0 && Good(c, m, tau, plan) && AllBelow(s, |m.faces|) && v in plan.vertexMap
    requires NearKept(m, plan, s, v, d, e)
    ensures d in plan.edgeMap && e in plan.edgeMap
    ensures CellNear(c, s, plan.vertexMap[v], plan.edgeMap[d], plan.edgeMap[e])
    ensures plan.edgeMap[d] in Numbers(plan, part) <==> d in part
  {
    hide *;
    GoodEdges(c, m, tau, plan);
    KeptNumbers(c, m, tau, plan, s, v, d, e);
    CellNearIff(c, m, tau, plan, s, v, d, e);
    NumbersIff(|m.edges|, plan, part, d);
  }

  lemma NodeOfNumber(c: CellData, m: Seamed, tau: real, plan: Plan, s: seq<nat>, v: nat, part: set<nat>, i: nat, j: nat)
    requires tau > 0.0 && Good(c, m, tau, plan) && AllBelow(s, |m.faces|) && v in plan.vertexMap
    requires CellNear(c, s, plan.vertexMap[v], i, j)
    ensures i < |plan.keptEdges| && j < |plan.keptEdges|
    ensures NearKept(m, plan, s, v, plan.keptEdges[i], plan.keptEdges[j])
    ensures plan.keptEdges[i] in Numbered(plan, part) <==> i in part
  {
    hide *;
    CellNearNumbers(c, m, tau, plan, s, plan.vertexMap[v], i, j);
    CellNearIff(c, m, tau, plan, s, v, plan.keptEdges[i], plan.keptEdges[j]);
    NumberedIff(plan, part, plan.keptEdges[i]);
  }

  /** The cell's links are the kept ones, renumbered. */
  lemma SeparatesNumbers(c: CellData, m: Seamed, tau: real, plan: Plan, s: seq<nat>, v: nat, part: set<nat>)
    requires tau > 0.0 && Good(c, m, tau, plan) && AllBelow(s, |m.faces|) && v in plan.vertexMap
    requires Separates(KeptLinks(m, plan, s, v), part)
    ensures Separates(CellLinks(c, s, plan.vertexMap[v]), Numbers(plan, part))
  {
    hide Good, NearKept, CellNear, Numbers, Separates, AllBelow;
    var d, e, a, b := SeparatesAt(KeptLinks(m, plan, s, v), part);
    var w := plan.vertexMap[v];
    forall x, y | NearKept(m, plan, s, v, x, y)
      ensures x in part <==> y in part
    {
      assert KeptLinks(m, plan, s, v)(x, y);
    }
    forall i, j | CellNear(c, s, w, i, j)
      ensures i in Numbers(plan, part) <==> j in Numbers(plan, part)
    {
      NumbersTogether(c, m, tau, plan, s, v, part, i, j);
    }
    NumberOfNode(c, m, tau, plan, s, v, part, d, e);
    NumberOfNode(c, m, tau, plan, s, v, part, a, b);
    SeparatesFrom(CellLinks(c, s, w), Numbers(plan, part), plan.edgeMap[d], plan.edgeMap[e], plan.edgeMap[a],
                  plan.edgeMap[b]);
  }

  lemma SeparatesNumbered(c: CellData, m: Seamed, tau: real, plan: Plan, s: seq<nat>, v: nat, part: set<nat>)
    requires tau > 0.0 && Good(c, m, tau, plan) && AllBelow(s, |m.faces|) && v in plan.vertexMap
    requires Separates(CellLinks(c, s, plan.vertexMap[v]), part)
    ensures Separates(KeptLinks(m, plan, s, v), Numbered(plan, part))
  {
    hide Good, NearKept, CellNear, Numbered, Separates, AllBelow;
    var w := plan.vertexMap[v];
    var i, j, k, l := SeparatesAt(CellLinks(c, s, w), part);
    forall x, y | CellNear(c, s, w, x, y)
      ensures x in part <==> y in part
    {
      assert CellLinks(c, s, w)(x, y);
    }
    forall d, e | NearKept(m, plan, s, v, d, e)
      ensures d in Numbered(plan, part) <==> e in Numbered(plan, part)
    {
      NumberedTogether(c, m, tau, plan, s, v, part, d, e);
    }
    NodeOfNumber(c, m, tau, plan, s, v, part, i, j);
    NodeOfNumber(c, m, tau, plan, s, v, part, k, l);
    var kept := plan.keptEdges;
    SeparatesFrom(KeptLinks(m, plan, s, v), Numbered(plan, part), kept[i], kept[j], kept[k], kept[l]);
  }

  /** A kept vertex of a shell is pinched in the cell exactly if it is in the model, where no lost seam runs from it to
      itself; and if it is in the model, it is in the cell anyway. */
  lemma VertexLinksKept(c: CellData, m: Seamed, tau: real, plan: Plan, s: seq<nat>, v: nat)
    requires tau > 0.0 && Good(c, m, tau, plan) && SimpleSeams(m, tau) && ClosedLoops(m) && AllBelow(s, |m.faces|)
    requires v in plan.vertexMap
    ensures Pinched(Links(m, s, v)) ==> Pinched(CellLinks(c, s, plan.vertexMap[v]))
    ensures SeamsLeave(m, plan, v) ==> (Pinched(Links(m, s, v)) <==> Pinched(CellLinks(c, s, plan.vertexMap[v])))
  {
    GoodPlan(c, m, tau, plan);
    hide Good, Separates, SimpleSeams, ClosedLoops, PlanOf, ValidSeamed, SeamsLeave, Links, KeptLinks, CellLinks,
         PlanFits, Converted;
    PinchKept(m, tau, plan, s, v);
    if part :| Separates(KeptLinks(m, plan, s, v), part) {
      SeparatesNumbers(c, m, tau, plan, s, v, part);
    }
    if part :| Separates(CellLinks(c, s, plan.vertexMap[v]), part) {
      SeparatesNumbered(c, m, tau, plan, s, v, part);
    }
  }

  // ------------------------------------------------------------------ as the validators search

  /** The adjacency of the neighbours. */
  ghost predicate GraphOf(next: map<nat, set<nat>>, near: (nat, nat) -> bool) {
    && (forall d, e :: near(d, e) ==> near(e, d))
    && (forall d :: d in next <==> exists e :: near(d, e))
    && forall d :: d in next ==> forall e :: e in next[d] <==> near(d, e)
  }

  lemma GraphNext(next: map<nat, set<nat>>, near: (nat, nat) -> bool, d: nat, e: nat)
    requires GraphOf(next, near)
    ensures near(d, e) <==> d in next && e in next[d]
    ensures near(d, e) ==> near(e, d) && e in next
  {
  }

  /** What separates the edges keeps a search from some of them. */
  lemma PinchStops(next: map<nat, set<nat>>, near: (nat, nat) -> bool, start: nat, part: set<nat>) returns (x: nat)
    requires GraphOf(next, near) && start in next && Separates(near, part)
    ensures x in next && !CellValidator.Reachable(next, start, x)
  {
    hide Separates, GraphOf, CellValidator.Reachable;
    var d, e, a, b := SeparatesAt(near, part);
    GraphNext(next, near, d, e);
    GraphNext(next, near, a, b);
    var side := if start in part then part else next.Keys - part;
    x := if start in part then a else d;
    forall y, z | y in side && y in next && z in next[y]
      ensures z in side
    {
      GraphNext(next, near, y, z);
    }
    if CellValidator.Reachable(next, start, x) {
      CellValidator.ClosedHoldsReachable(next, side, start, x);
    }
  }

  lemma StopsPinch(next: map<nat, set<nat>>, near: (nat, nat) -> bool, start: nat, x: nat)
    requires GraphOf(next, near) && start in next && x in next && !CellValidator.Reachable(next, start, x)
    ensures Pinched(near)
  {
    var e :| near(start, e);
    var f :| near(x, f);
    hide Separates, GraphOf, CellValidator.Reachable;
    var part := set y | y in next && CellValidator.Reachable(next, start, y);
    CellValidator.ReachesItself(next, start);
    forall y, z | near(y, z)
      ensures y in part <==> z in part
    {
      GraphNext(next, near, y, z);
      GraphNext(next, near, z, y);
      if y in part {
        CellValidator.ReachesNext(next, start, y, z);
      }
      if z in part {
        CellValidator.ReachesNext(next, start, z, y);
      }
    }
    SeparatesFrom(near, part, start, e, x, f);
  }

  /** A search from any of the neighbours misses one exactly if the vertex is pinched. */
  lemma SearchFindsPinch(next: map<nat, set<nat>>, near: (nat, nat) -> bool, start: nat)
    requires GraphOf(next, near) && start in next
    ensures Pinched(near) <==> exists x :: x in next && !CellValidator.Reachable(next, start, x)
  {
    hide Separates, GraphOf, CellValidator.Reachable;
    if part :| Separates(near, part) {
      var x := PinchStops(next, near, start, part);
    }
    if x :| x in next && !CellValidator.Reachable(next, start, x) {
      StopsPinch(next, near, start, x);
    }
  }
}

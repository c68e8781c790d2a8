/** From the seamed model to the seamless cell complex: seam edges and vertices deleted, the rest renumbered,
    loops split, twin shells and regions built. */
module CellConversion {
  import opened Basics
  import opened Reals
  import opened SeamRuns
  import opened CellModel

  // ------------------------------------------------------------------ the loops of one face

  /** What one seamed loop becomes, and the seams it loses. */
  datatype Part = Part(runs: seq<Run>, gone: set<nat>)

  ghost predicate PartOf(cylinder: bool, loop: seq<Use>, tau: real, part: Part)
    requires tau > 0.0
  {
    if loop != [] && Mergeable(cylinder, loop, tau)
    then exists m :: MergeOf(loop, tau, m) && part == Part(m.runs, set e | e in m.seams)
    else part == Part([Run(loop, 0)], {})
  }

  ghost function PartRuns(parts: seq<Part>): seq<Run> {
    if parts == [] then [] else PartRuns(parts[..|parts| - 1]) + parts[|parts| - 1].runs
  }

  ghost predicate GoneIs(parts: seq<Part>, gone: set<nat>) {
    forall e :: e in gone <==> exists j :: 0 <= j < |parts| && e in parts[j].gone
  }

  /** The face's runs are its loops', one after the other, each merged where it can be. */
  ghost predicate FaceSplit(face: SFace, tau: real, runs: seq<Run>, gone: set<nat>)
    requires tau > 0.0
  {
    exists parts: seq<Part> :: PartsOf(face, tau, parts, |face.loops|) && runs == PartRuns(parts) && GoneIs(parts, gone)
  }

  ghost predicate PartsOf(face: SFace, tau: real, parts: seq<Part>, m: nat)
    requires tau > 0.0 && m <= |face.loops|
  {
    |parts| == m && forall j :: 0 <= j < m ==> PartOf(face.surface.kind == Cylinder, face.loops[j], tau, parts[j])
  }

  lemma PartsMore(face: SFace, tau: real, parts: seq<Part>, m: nat, gone: set<nat>, p: Part)
    requires tau > 0.0 && m < |face.loops| && PartsOf(face, tau, parts, m) && GoneIs(parts, gone)
    requires PartOf(face.surface.kind == Cylinder, face.loops[m], tau, p)
    ensures PartsOf(face, tau, parts + [p], m + 1) && GoneIs(parts + [p], gone + p.gone)
    ensures PartRuns(parts + [p]) == PartRuns(parts) + p.runs
  {
    hide PartOf;
    var all := parts + [p];
    assert all[..|parts|] == parts;
    assert all[|parts|] == p;
    forall e
      ensures e in gone + p.gone <==> exists j :: 0 <= j < |all| && e in all[j].gone
    {
      if j :| 0 <= j < |parts| && e in parts[j].gone {
        assert all[j] == parts[j];
      }
    }
  }

  /** The loop over one face's loops. */
  method SplitFace(face: SFace, tau: real) returns (runs: seq<Run>, gone: set<nat>)
    requires tau > 0.0
    ensures FaceSplit(face, tau, runs, gone)
  {
    hide PartsOf, GoneIs, PartOf, Mergeable, MergeOf;
    runs, gone := [], {};
    ghost var parts: seq<Part> := [];
    NoParts(face, tau);
    for j := 0 to |face.loops|
      invariant PartsOf(face, tau, parts, j) && GoneIs(parts, gone) && runs == PartRuns(parts)
    {
      var loop := face.loops[j];
      var part := SplitLoop(face.surface.kind == Cylinder, loop, tau);
      PartsMore(face, tau, parts, j, gone, part);
      parts := parts + [part];
      runs := runs + part.runs;
      gone := gone + part.gone;
    }
  }

  lemma NoParts(face: SFace, tau: real)
    requires tau > 0.0
    ensures PartsOf(face, tau, [], 0) && GoneIs([], {})
  {
  }

  method SplitLoop(cylinder: bool, loop: seq<Use>, tau: real) returns (part: Part)
    requires tau > 0.0
    ensures PartOf(cylinder, loop, tau, part)
  {
    hide Mergeable, MergeOf;
    if loop == [] {
      return Part([Run(loop, 0)], {});
    }
    var merged := SeamMerge(cylinder, loop, tau);
    if merged.None? {
      return Part([Run(loop, 0)], {});
    }
    return Part(merged.value.runs, set e | e in merged.value.seams);
  }

  // ------------------------------------------------------------------ what a face's runs keep

  ghost predicate InRuns(runs: seq<Run>, u: Use) {
    exists r :: 0 <= r < |runs| && u in runs[r].uses
  }

  lemma InRunsConcat(p: seq<Run>, q: seq<Run>, u: Use)
    ensures InRuns(p + q, u) <==> InRuns(p, u) || InRuns(q, u)
  {
    if r :| 0 <= r < |p| && u in p[r].uses {
      assert u in (p + q)[r].uses;
    }
    if r :| 0 <= r < |q| && u in q[r].uses {
      assert u in (p + q)[|p| + r].uses;
    }
  }

  lemma InOneRun(run: Run, u: Use)
    ensures InRuns([run], u) <==> u in run.uses
  {
    var runs := [run];
    assert runs[0] == run;
  }

  lemma {:induction false} InAllUses(runs: seq<Run>, u: Use)
    ensures u in AllUses(runs) <==> InRuns(runs, u)
  {
    if runs != [] {
      var k := |runs| - 1;
      InAllUses(runs[..k], u);
      assert runs == runs[..k] + [runs[k]];
      InRunsConcat(runs[..k], [runs[k]], u);
      InOneRun(runs[k], u);
    }
  }

  lemma {:induction false} InKept(loop: seq<Use>, seams: seq<nat>, u: Use)
    ensures u in Kept(loop, seams) <==> u in loop && u.edge !in seams
  {
    if loop != [] {
      var k := |loop| - 1;
      InKept(loop[..k], seams, u);
      assert loop == loop[..k] + [loop[k]];
    }
  }

  lemma InRotated(loop: seq<Use>, first: nat, u: Use)
    requires first < |loop|
    ensures u in Rotated(loop, first) <==> u in loop
  {
    assert loop == loop[..first + 1] + loop[first + 1..];
  }

  /** What a part keeps: the loop's uses whose edges it does not lose. */
  ghost predicate Keeps(loop: seq<Use>, part: Part) {
    && (forall u :: InRuns(part.runs, u) ==> u in loop && u.edge !in part.gone)
    && (forall u :: u in loop ==> InRuns(part.runs, u) || u.edge in part.gone)
    && (forall e :: e in part.gone ==> exists u :: u in loop && u.edge == e)
    && (loop != [] ==> forall r :: 0 <= r < |part.runs| ==> part.runs[r].uses != [])
  }

  lemma PlainPartKeeps(loop: seq<Use>)
    ensures Keeps(loop, Part([Run(loop, 0)], {})) && WindingSum([Run(loop, 0)]) == 0
  {
    var runs := [Run(loop, 0)];
    assert runs[0].uses == loop;
    assert runs[..0] == [];
  }

  lemma KeptFrom(loop: seq<Use>, tau: real, m: Merged, u: Use)
    requires tau > 0.0 && KeepsUses(loop, m)
    ensures InRuns(m.runs, u) <==> u in loop && u.edge !in m.seams
  {
    var first :| FirstSeam(loop, m.seams, first) && AllUses(m.runs) == Kept(Rotated(loop, first), m.seams);
    hide Kept, Rotated, AllUses, InRuns;
    InAllUses(m.runs, u);
    InKept(Rotated(loop, first), m.seams, u);
    InRotated(loop, first, u);
  }

  lemma SeamUsed(loop: seq<Use>, tau: real, e: nat)
    requires Consistent(loop, e, tau)
    ensures exists u :: u in loop && u.edge == e
  {
    ConsistentUsed(loop, e, tau);
    var k :| 0 <= k < |loop| && loop[k].edge == e;
    assert loop[k] in loop;
  }

  lemma MergedSeams(loop: seq<Use>, tau: real, m: Merged)
    requires tau > 0.0 && Mergeable(true, loop, tau) && MergeOf(loop, tau, m)
    ensures SeamList(loop, m.seams) && forall e :: e in m.seams ==> Consistent(loop, e, tau)
  {
    hide Consistent, Mergeable, SeamList;
    ListedConsistent(loop, m.seams, tau);
  }

  lemma MergedPartKeeps(loop: seq<Use>, tau: real, m: Merged)
    requires tau > 0.0 && Mergeable(true, loop, tau) && MergeOf(loop, tau, m)
    ensures Keeps(loop, Part(m.runs, set e | e in m.seams)) && WindingSum(m.runs) == 0
  {
    hide Mergeable, MergeOf, KeepsUses, WindingSum, Consistent, SeamList, InRuns;
    MergeBalances(loop, tau, m);
    MergedSeams(loop, tau, m);
    forall u
      ensures InRuns(m.runs, u) <==> u in loop && u.edge !in m.seams
    {
      KeptFrom(loop, tau, m, u);
    }
    forall e | e in m.seams
      ensures exists u :: u in loop && u.edge == e
    {
      SeamUsed(loop, tau, e);
    }
  }

  lemma PartKeeps(cylinder: bool, loop: seq<Use>, tau: real, part: Part)
    requires tau > 0.0 && PartOf(cylinder, loop, tau, part)
    ensures Keeps(loop, part) && WindingSum(part.runs) == 0
    ensures !cylinder ==> forall r :: 0 <= r < |part.runs| ==> part.runs[r].winding == 0
  {
    hide MergeOf, Keeps, WindingSum;
    if loop != [] && Mergeable(cylinder, loop, tau) {
      var m :| MergeOf(loop, tau, m) && part == Part(m.runs, set e | e in m.seams);
      MergedPartKeeps(loop, tau, m);
    } else {
      PlainPartKeeps(loop);
    }
  }

  /** What a face's runs keep of its loops. */
  ghost predicate FaceKeeps(face: SFace, runs: seq<Run>, gone: set<nat>) {
    && (forall u :: InRuns(runs, u) ==> exists l :: 0 <= l < |face.loops| && u in face.loops[l])
    && (forall l, u :: 0 <= l < |face.loops| && u in face.loops[l] ==> InRuns(runs, u) || u.edge in gone)
    && (forall e :: e in gone ==> UsedIn(face, e))
    && ((forall l :: 0 <= l < |face.loops| ==> face.loops[l] != []) ==>
          forall r :: 0 <= r < |runs| ==> runs[r].uses != [])
  }

  lemma {:induction false} WindingSumConcat(p: seq<Run>, q: seq<Run>)
    ensures WindingSum(p + q) == WindingSum(p) + WindingSum(q)
  {
    if q == [] {
      assert p + q == p;
    } else {
      assert (p + q)[..|p + q| - 1] == p + q[..|q| - 1];
      WindingSumConcat(p, q[..|q| - 1]);
    }
  }

  /** The runs of the first m loops. */
  ghost predicate KeepsTo(face: SFace, parts: seq<Part>, runs: seq<Run>, m: nat)
    requires m <= |face.loops| && m <= |parts|
  {
    && (forall u :: InRuns(runs, u) ==> exists l :: 0 <= l < m && u in face.loops[l])
    && (forall l, u :: 0 <= l < m && u in face.loops[l] ==> InRuns(runs, u) || u.edge in parts[l].gone)
    && ((forall l :: 0 <= l < |face.loops| ==> face.loops[l] != []) ==>
          forall r :: 0 <= r < |runs| ==> runs[r].uses != [])
  }

  lemma KeepsToStep(face: SFace, parts: seq<Part>, runs: seq<Run>, m: nat)
    requires m < |face.loops| && m < |parts| && KeepsTo(face, parts, runs, m) && Keeps(face.loops[m], parts[m])
    ensures KeepsTo(face, parts, runs + parts[m].runs, m + 1)
  {
    hide InRuns;
    var more := runs + parts[m].runs;
    forall u
      ensures InRuns(more, u) <==> InRuns(runs, u) || InRuns(parts[m].runs, u)
    {
      InRunsConcat(runs, parts[m].runs, u);
    }
  }

  lemma {:induction false} PartsKeep(face: SFace, tau: real, parts: seq<Part>, m: nat)
    requires tau > 0.0 && m <= |face.loops| && PartsOf(face, tau, parts, |face.loops|)
    ensures KeepsTo(face, parts, PartRuns(parts[..m]), m) && WindingSum(PartRuns(parts[..m])) == 0
    ensures face.surface.kind != Cylinder ==>
      forall r :: 0 <= r < |PartRuns(parts[..m])| ==> PartRuns(parts[..m])[r].winding == 0
    decreases m
  {
    hide KeepsTo, Keeps, PartOf, WindingSum;
    if m == 0 {
      NothingKept(face, parts);
    } else {
      PartsKeep(face, tau, parts, m - 1);
      assert parts[..m][..m - 1] == parts[..m - 1];
      PartKeeps(face.surface.kind == Cylinder, face.loops[m - 1], tau, parts[m - 1]);
      KeepsToStep(face, parts, PartRuns(parts[..m - 1]), m - 1);
      WindingSumConcat(PartRuns(parts[..m - 1]), parts[m - 1].runs);
    }
  }

  lemma NothingKept(face: SFace, parts: seq<Part>)
    ensures KeepsTo(face, parts, [], 0) && WindingSum([]) == 0
  {
  }

  lemma GoneUsed(face: SFace, tau: real, parts: seq<Part>, e: nat, j: nat)
    requires tau > 0.0 && PartsOf(face, tau, parts, |face.loops|) && j < |parts| && e in parts[j].gone
    ensures UsedIn(face, e)
  {
    hide PartOf, WindingSum;
    PartKeeps(face.surface.kind == Cylinder, face.loops[j], tau, parts[j]);
    var u :| u in face.loops[j] && u.edge == e;
  }

  /** An edge is used in the face. */
  ghost predicate UsedIn(face: SFace, e: nat) {
    exists l, u :: 0 <= l < |face.loops| && u in face.loops[l] && u.edge == e
  }

  lemma FaceKeepsFrom(face: SFace, parts: seq<Part>, runs: seq<Run>, gone: set<nat>)
    requires |parts| == |face.loops| && KeepsTo(face, parts, runs, |parts|) && GoneIs(parts, gone)
    requires forall e :: e in gone ==> UsedIn(face, e)
    ensures FaceKeeps(face, runs, gone)
  {
    hide InRuns, UsedIn;
    forall l, u | 0 <= l < |face.loops| && u in face.loops[l]
      ensures InRuns(runs, u) || u.edge in gone
    {
      if !InRuns(runs, u) {
        assert u.edge in parts[l].gone;
      }
    }
  }

  /** Splitting a face keeps its uses but for its seams', and its windings sum to zero, all zero off cylinders. */
  lemma SplitKeepsFace(face: SFace, tau: real, runs: seq<Run>, gone: set<nat>)
    requires tau > 0.0 && FaceSplit(face, tau, runs, gone)
    ensures FaceKeeps(face, runs, gone) && WindingSum(runs) == 0
    ensures face.surface.kind != Cylinder ==> forall r :: 0 <= r < |runs| ==> runs[r].winding == 0
  {
    hide PartsOf, WindingSum, InRuns, GoneIs, UsedIn, FaceKeeps, KeepsTo;
    var parts: seq<Part> :| PartsOf(face, tau, parts, |face.loops|) && runs == PartRuns(parts) && GoneIs(parts, gone);
    PartsNumber(face, tau, parts);
    assert parts[..|parts|] == parts;
    PartsKeep(face, tau, parts, |parts|);
    forall e | e in gone
      ensures UsedIn(face, e)
    {
      var j := GoneAt(parts, gone, e);
      GoneUsed(face, tau, parts, e, j);
    }
    FaceKeepsFrom(face, parts, runs, gone);
  }

  lemma GoneAt(parts: seq<Part>, gone: set<nat>, e: nat) returns (j: nat)
    requires GoneIs(parts, gone) && e in gone
    ensures j < |parts| && e in parts[j].gone
  {
    j :| 0 <= j < |parts| && e in parts[j].gone;
  }

  lemma PartsNumber(face: SFace, tau: real, parts: seq<Part>)
    requires tau > 0.0 && PartsOf(face, tau, parts, |face.loops|)
    ensures |parts| == |face.loops|
  {
  }

  /** No loop loses all its uses. */
  lemma {:induction false} PartsHaveRuns(face: SFace, tau: real, parts: seq<Part>, m: nat)
    requires tau > 0.0 && 1 <= m <= |face.loops| && PartsOf(face, tau, parts, |face.loops|)
    ensures PartRuns(parts[..m]) != []
  {
    assert parts[..m][..m - 1] == parts[..m - 1];
    PartHasRuns(face.surface.kind == Cylinder, face.loops[m - 1], tau, parts[m - 1]);
  }

  lemma PartHasRuns(cylinder: bool, loop: seq<Use>, tau: real, part: Part)
    requires tau > 0.0 && PartOf(cylinder, loop, tau, part)
    ensures part.runs != []
  {
    hide MergeOf;
    if loop != [] && Mergeable(cylinder, loop, tau) {
      var m :| MergeOf(loop, tau, m) && part == Part(m.runs, set e | e in m.seams);
      MergeHasRuns(loop, tau, m);
    }
  }

  lemma SplitHasRuns(face: SFace, tau: real, runs: seq<Run>, gone: set<nat>)
    requires tau > 0.0 && FaceSplit(face, tau, runs, gone)
    ensures face.loops != [] ==> runs != []
  {
    hide PartsOf;
    if face.loops != [] {
      var parts: seq<Part> :| PartsOf(face, tau, parts, |face.loops|) && runs == PartRuns(parts) && GoneIs(parts, gone);
      PartsNumber(face, tau, parts);
      assert parts[..|parts|] == parts;
      PartsHaveRuns(face, tau, parts, |parts|);
    }
  }

  // ------------------------------------------------------------------ renumbering

  /** i's new number, if it has one. */
  function Get(numbers: map<nat, nat>, i: nat): nat {
    if i in numbers then numbers[i] else i
  }

  /** The indices below n that are not gone, numbered anew in order. */
  ghost predicate Renumbered(n: nat, gone: set<nat>, numbers: map<nat, nat>, kept: seq<nat>) {
    && (forall i: nat :: i in numbers <==> i < n && i !in gone)
    && (forall i :: i in numbers ==> numbers[i] < |kept| && kept[numbers[i]] == i)
    && (forall k :: 0 <= k < |kept| ==> kept[k] in numbers && numbers[kept[k]] == k)
    && forall j, k :: 0 <= j < k < |kept| ==> kept[j] < kept[k]
  }

  method Renumber(n: nat, gone: set<nat>) returns (numbers: map<nat, nat>, kept: seq<nat>)
    ensures Renumbered(n, gone, numbers, kept)
  {
    numbers, kept := map[], [];
    for i := 0 to n
      invariant Renumbered(i, gone, numbers, kept)
    {
      if i !in gone {
        numbers := numbers[i := |kept|];
        kept := kept + [i];
      }
    }
  }

  // ------------------------------------------------------------------ what disappears

  /** How a model is converted: per face its runs and lost seams, then the edges and vertices deleted and the
      others' new numbers. */
  datatype Plan = Plan(runs: seq<seq<Run>>, gone: seq<set<nat>>, removed: set<nat>, drop: set<nat>,
                       edgeMap: map<nat, nat>, keptEdges: seq<nat>, vertexMap: map<nat, nat>, keptVertices: seq<nat>)

  ghost predicate UsedBy(runs: seq<seq<Run>>, e: nat) {
    exists f, u :: 0 <= f < |runs| && InRuns(runs[f], u) && u.edge == e
  }

  ghost predicate GoneFrom(gone: seq<set<nat>>, e: nat) {
    exists f :: 0 <= f < |gone| && e in gone[f]
  }

  /** Only edges that every use dropped disappear. */
  ghost predicate RemovedIs(runs: seq<seq<Run>>, gone: seq<set<nat>>, removed: set<nat>) {
    forall e :: e in removed <==> GoneFrom(gone, e) && !UsedBy(runs, e)
  }

  predicate RingLike(e: SEdge) {
    e.curve.closed && e.start == e.end
  }

  /** A remaining edge that is not a closed curve on one vertex ends at v. */
  ghost predicate OtherUse(edges: seq<SEdge>, removed: set<nat>, v: nat) {
    exists i :: 0 <= i < |edges| && i !in removed && !RingLike(edges[i]) && (edges[i].start == v || edges[i].end == v)
  }

  ghost predicate SeamVertex(edges: seq<SEdge>, removed: set<nat>, v: nat) {
    exists i :: i in removed && i < |edges| && (edges[i].start == v || edges[i].end == v)
  }

  /** Vertices used only by removed seams and by closed curves disappear. */
  ghost predicate DropIs(edges: seq<SEdge>, removed: set<nat>, drop: set<nat>) {
    forall v :: v in drop <==> SeamVertex(edges, removed, v) && !OtherUse(edges, removed, v)
  }

  ghost predicate FacesSplit(m: Seamed, tau: real, runs: seq<seq<Run>>, gone: seq<set<nat>>)
    requires tau > 0.0
  {
    && |runs| == |gone| == |m.faces|
    && forall f :: 0 <= f < |m.faces| ==> FaceSplit(m.faces[f], tau, runs[f], gone[f])
  }

  ghost predicate PlanOf(m: Seamed, tau: real, plan: Plan)
    requires tau > 0.0
  {
    && FacesSplit(m, tau, plan.runs, plan.gone)
    && RemovedIs(plan.runs, plan.gone, plan.removed)
    && (forall e :: e in plan.removed ==> e < |m.edges|)
    && DropIs(m.edges, plan.removed, plan.drop)
    && Renumbered(|m.edges|, plan.removed, plan.edgeMap, plan.keptEdges)
    && Renumbered(|m.vertices|, plan.drop, plan.vertexMap, plan.keptVertices)
  }

  method SplitFaces(m: Seamed, tau: real) returns (runs: seq<seq<Run>>, gone: seq<set<nat>>)
    requires tau > 0.0
    ensures FacesSplit(m, tau, runs, gone)
  {
    hide FaceSplit;
    runs, gone := [], [];
    for f := 0 to |m.faces|
      invariant |runs| == |gone| == f
      invariant forall k :: 0 <= k < f ==> FaceSplit(m.faces[k], tau, runs[k], gone[k])
    {
      var r, g := SplitFace(m.faces[f], tau);
      runs, gone := runs + [r], gone + [g];
    }
  }

  method RunEdges(runs: seq<Run>) returns (used: set<nat>)
    ensures forall e :: e in used <==> exists u :: InRuns(runs, u) && u.edge == e
  {
    used := {};
    assert runs[..0] == [];
    NoRuns();
    hide InRuns;
    for r := 0 to |runs|
      invariant forall e :: e in used <==> exists u :: InRuns(runs[..r], u) && u.edge == e
    {
      ghost var was := used;
      assert runs[..r + 1] == runs[..r] + [runs[r]];
      used := used + set u | u in runs[r].uses :: u.edge;
      forall e
        ensures e in used <==> exists u :: InRuns(runs[..r + 1], u) && u.edge == e
      {
        EdgesMore(runs[..r], runs[r], was, e);
      }
    }
    assert runs[..|runs|] == runs;
  }

  lemma NoRuns()
    ensures forall u :: !InRuns([], u)
  {
  }

  lemma EdgesMore(runs: seq<Run>, run: Run, was: set<nat>, e: nat)
    requires e in was <==> exists u :: InRuns(runs, u) && u.edge == e
    ensures e in was + (set u | u in run.uses :: u.edge) <==> exists u :: InRuns(runs + [run], u) && u.edge == e
  {
    if u :| InRuns(runs, u) && u.edge == e {
      InRunsConcat(runs, [run], u);
    }
    if u :| u in run.uses && u.edge == e {
      InRunsConcat(runs, [run], u);
      InOneRun(run, u);
    }
    if u :| InRuns(runs + [run], u) && u.edge == e {
      InRunsConcat(runs, [run], u);
      InOneRun(run, u);
    }
  }

  /** The edges no use keeps. */
  method FindRemoved(runs: seq<seq<Run>>, gone: seq<set<nat>>) returns (removed: set<nat>)
    ensures RemovedIs(runs, gone, removed)
  {
    hide InRuns;
    var lost, used: set<nat> := {}, {};
    for f := 0 to |gone|
      invariant forall e :: e in lost <==> GoneFrom(gone[..f], e)
    {
      forall e
        ensures GoneFrom(gone[..f + 1], e) <==> GoneFrom(gone[..f], e) || e in gone[f]
      {
        GoneMore(gone, f, e);
      }
      lost := lost + gone[f];
    }
    for f := 0 to |runs|
      invariant forall e :: e in used <==> UsedBy(runs[..f], e)
    {
      var more := RunEdges(runs[f]);
      forall e
        ensures UsedBy(runs[..f + 1], e) <==> UsedBy(runs[..f], e) || e in more
      {
        UsedMore(runs, f, e);
      }
      used := used + more;
    }
    assert gone[..|gone|] == gone && runs[..|runs|] == runs;
    removed := lost - used;
  }

  lemma GoneMore(gone: seq<set<nat>>, f: nat, e: nat)
    requires f < |gone|
    ensures GoneFrom(gone[..f + 1], e) <==> GoneFrom(gone[..f], e) || e in gone[f]
  {
    var less, more := gone[..f], gone[..f + 1];
    if k :| 0 <= k < f && e in less[k] {
      assert more[k] == less[k];
    }
    if k :| 0 <= k < |more| && e in more[k] {
      if k < f {
        assert less[k] == more[k];
      }
    }
    assert more[f] == gone[f];
  }

  lemma UsedMore(runs: seq<seq<Run>>, f: nat, e: nat)
    requires f < |runs|
    ensures UsedBy(runs[..f + 1], e) <==> UsedBy(runs[..f], e) || exists u :: InRuns(runs[f], u) && u.edge == e
  {
    hide InRuns;
    var less, more := runs[..f], runs[..f + 1];
    if k, u :| 0 <= k < f && InRuns(less[k], u) && u.edge == e {
      assert more[k] == less[k];
    }
    if k, u :| 0 <= k < |more| && InRuns(more[k], u) && u.edge == e {
      if k < f {
        assert less[k] == more[k];
      }
    }
    assert more[f] == runs[f];
  }

  /** `other_use`, `seam_vertices` and `drop`. */
  method FindDropped(edges: seq<SEdge>, removed: set<nat>) returns (drop: set<nat>)
    ensures DropIs(edges, removed, drop)
  {
    var other, seam: set<nat> := {}, {};
    for i := 0 to |edges|
      invariant forall v :: v in other <==>
        (exists k :: 0 <= k < i && k !in removed && !RingLike(edges[k]) && (edges[k].start == v || edges[k].end == v))
    {
      if i !in removed && !RingLike(edges[i]) {
        other := other + {edges[i].start, edges[i].end};
      }
    }
    for i := 0 to |edges|
      invariant forall v :: v in seam <==>
        (exists k :: k in removed && k < i && (edges[k].start == v || edges[k].end == v))
    {
      if i in removed {
        seam := seam + {edges[i].start, edges[i].end};
      }
    }
    drop := seam - other;
  }

  /** The first half of `to_cell`. None is its IndexError on a lost seam that the model has no edge for. */
  method MakePlan(m: Seamed, tau: real) returns (r: Option<Plan>)
    requires tau > 0.0
    ensures r.Some? ==> PlanOf(m, tau, r.value)
    ensures r.None? ==>
      exists runs, gone, e: nat :: FacesSplit(m, tau, runs, gone) && GoneFrom(gone, e) && e >= |m.edges|
  {
    hide FacesSplit, RemovedIs, DropIs, Renumbered, GoneFrom, UsedBy;
    var runs, gone := SplitFaces(m, tau);
    var removed := FindRemoved(runs, gone);
    if e :| e in removed && e >= |m.edges| {
      RemovedGone(runs, gone, removed, e);
      return None;
    }
    var drop := FindDropped(m.edges, removed);
    var edgeMap, keptEdges := Renumber(|m.edges|, removed);
    var vertexMap, keptVertices := Renumber(|m.vertices|, drop);
    return Some(Plan(runs, gone, removed, drop, edgeMap, keptEdges, vertexMap, keptVertices));
  }

  lemma RemovedGone(runs: seq<seq<Run>>, gone: seq<set<nat>>, removed: set<nat>, e: nat)
    requires RemovedIs(runs, gone, removed) && e in removed
    ensures GoneFrom(gone, e)
  {
  }

  // ------------------------------------------------------------------ the cell a plan describes

  function FinOf(u: Use, edgeMap: map<nat, nat>): Fin {
    Fin(Get(edgeMap, u.edge), u.forward, u.pcurve)
  }

  function FinsOf(uses: seq<Use>, edgeMap: map<nat, nat>): (r: seq<Fin>)
    ensures |r| == |uses|
  {
    seq(|uses|, k requires 0 <= k < |uses| => FinOf(uses[k], edgeMap))
  }

  function WithRun(c: CellData, run: Run, edgeMap: map<nat, nat>): CellData {
    c.(fins := c.fins + FinsOf(run.uses, edgeMap),
       loops := c.loops + [Loop(Interval(|c.fins|, |run.uses|), run.winding, None, 0)])
  }

  function WithRuns(c: CellData, runs: seq<Run>, edgeMap: map<nat, nat>): CellData {
    if runs == [] then c else WithRun(WithRuns(c, runs[..|runs| - 1], edgeMap), runs[|runs| - 1], edgeMap)
  }

  function WithFace(c: CellData, face: SFace, runs: seq<Run>, edgeMap: map<nat, nat>, front: nat, back: nat): CellData {
    var d := WithRuns(c, runs, edgeMap);
    d.(faces := d.faces + [CFace(face.surface, face.forward, Interval(|c.loops|, |runs|), front, back)])
  }

  /** The first shell that lists a face; 0 if none does. */
  function Owner(shells: seq<seq<nat>>, f: nat): nat {
    if shells == [] then 0
    else if f in shells[0] then 0
    else if exists k :: 0 <= k < |shells| && f in shells[k] then 1 + Owner(shells[1..], f)
    else 0
  }

  function TwinsBefore(shells: seq<seq<nat>>, k: nat): nat
    requires k <= |shells|
  {
    if k == 0 then 0 else TwinsBefore(shells, k - 1) + if shells[k - 1] == [] then 0 else 1
  }

  /** The shell of the opposite sides; an empty shell has none and stands for itself. */
  function Twin(shells: seq<seq<nat>>, k: nat): nat {
    if k < |shells| && shells[k] != [] then |shells| + TwinsBefore(shells, k) else k
  }

  function WithFaces(c: CellData, m: Seamed, plan: Plan, n: nat): CellData
    requires n <= |m.faces| == |plan.runs|
  {
    if n == 0 then c
    else
      var k := Owner(m.shells, n - 1);
      WithFace(WithFaces(c, m, plan, n - 1), m.faces[n - 1], plan.runs[n - 1], plan.edgeMap, k, Twin(m.shells, k))
  }

  function EdgeOf(e: SEdge, drop: set<nat>, vertexMap: map<nat, nat>): CEdge {
    if e.curve.closed && e.start in drop then CEdge(None, None, e.curve, [])
    else CEdge(Some(Get(vertexMap, e.start)), Some(Get(vertexMap, e.end)), e.curve, [])
  }

  function EdgesOf(m: Seamed, plan: Plan): (r: seq<CEdge>)
    requires forall k :: 0 <= k < |plan.keptEdges| ==> plan.keptEdges[k] < |m.edges|
    ensures |r| == |plan.keptEdges|
  {
    seq(|plan.keptEdges|, k requires 0 <= k < |plan.keptEdges| =>
      EdgeOf(m.edges[plan.keptEdges[k]], plan.drop, plan.vertexMap))
  }

  function VerticesOf(m: Seamed, plan: Plan): (r: seq<Vertex>)
    requires forall k :: 0 <= k < |plan.keptVertices| ==> plan.keptVertices[k] < |m.vertices|
    ensures |r| == |plan.keptVertices|
  {
    seq(|plan.keptVertices|, k requires 0 <= k < |plan.keptVertices| => m.vertices[plan.keptVertices[k]])
  }

  /** Every edge lists the fins that use it. */
  function Linked(c: CellData): CellData {
    c.(edges := seq(|c.edges|, i requires 0 <= i < |c.edges| => c.edges[i].(fins := FinsOn(c.fins, i))))
  }

  function SidesOf(s: seq<nat>, side: Side): (r: seq<(nat, Side)>)
    ensures |r| == |s|
  {
    seq(|s|, k requires 0 <= k < |s| => (s[k], side))
  }

  function InRange(s: seq<nat>, n: nat): seq<nat> {
    if s == [] then []
    else InRange(s[..|s| - 1], n) + if s[|s| - 1] < n then [s[|s| - 1]] else []
  }

  /** Of a twin's faces, those that are there, as often as before. */
  lemma {:induction false} InRangeCounted(s: seq<nat>, n: nat, f: nat)
    ensures multiset(InRange(s, n))[f] == if f < n then multiset(s)[f] else 0
  {
    if s != [] {
      var k := |s| - 1;
      assert s == s[..k] + [s[k]];
      InRangeCounted(s[..k], n, f);
    }
  }

  function FrontShells(shells: seq<seq<nat>>): (r: seq<Shell>)
    ensures |r| == |shells|
  {
    seq(|shells|, k requires 0 <= k < |shells| => Shell(1, SidesOf(shells[k], Front), [], []))
  }

  /** The twins of the first k shells, and the bounded void regions they bound. */
  function Twins(shells: seq<seq<nat>>, faces: nat, k: nat): (seq<Shell>, seq<Region>)
    requires k <= |shells|
  {
    if k == 0 then ([], [])
    else
      var (backs, voids) := Twins(shells, faces, k - 1);
      if shells[k - 1] == [] then (backs, voids)
      else if k == 1 then (backs + [Shell(0, SidesOf(InRange(shells[0], faces), Back), [], [])], voids)
      else (backs + [Shell(2 + |voids|, SidesOf(InRange(shells[k - 1], faces), Back), [], [])],
            voids + [Region(Void, [Twin(shells, k - 1)])])
  }

  function SheetSides(n: nat): seq<(nat, Side)> {
    if n == 0 then [] else SheetSides(n - 1) + [(n - 1, Front), (n - 1, Back)]
  }

  function Flat(faces: seq<CFace>): (r: seq<CFace>)
    ensures |r| == |faces|
  {
    seq(|faces|, f requires 0 <= f < |faces| => faces[f].(front := 0, back := 0))
  }

  function GetAll(numbers: map<nat, nat>, s: seq<nat>): seq<nat> {
    seq(|s|, k requires 0 <= k < |s| => Get(numbers, s[k]))
  }

  function WithShells(c: CellData, m: Seamed, edgeMap: map<nat, nat>): CellData {
    match m.kind
    case Sheet =>
      c.(faces := Flat(c.faces), shells := [Shell(0, SheetSides(|c.faces|), [], [])], regions := [Region(Void, [0])])
    case Wire =>
      c.(shells := [Shell(0, [], GetAll(edgeMap, m.wire), [])], regions := [Region(Void, [0])])
    case Acorn =>
      c.(shells := [Shell(0, [], [], [0])], regions := [Region(Void, [0])])
    case _ =>
      var n := |m.shells|;
      var (backs, voids) := Twins(m.shells, |m.faces|, n);
      c.(shells := FrontShells(m.shells) + backs,
         regions := [Region(Void, if n > 0 && m.shells[0] != [] then [Twin(m.shells, 0)] else []),
                     Region(if m.kind == ClosedShell then Void else SolidRegion, Interval(0, n))] + voids)
  }

  ghost predicate PlanFits(m: Seamed, plan: Plan) {
    && |plan.runs| == |m.faces|
    && (forall k :: 0 <= k < |plan.keptEdges| ==> plan.keptEdges[k] < |m.edges|)
    && forall k :: 0 <= k < |plan.keptVertices| ==> plan.keptVertices[k] < |m.vertices|
  }

  lemma PlanOfFits(m: Seamed, tau: real, plan: Plan)
    requires tau > 0.0 && PlanOf(m, tau, plan)
    ensures PlanFits(m, plan)
  {
    hide FaceSplit, RemovedIs, DropIs;
  }

  /** The vertices and edges, before any face. */
  function Frame(m: Seamed, plan: Plan): CellData
    requires PlanFits(m, plan)
  {
    CellData(VerticesOf(m, plan), EdgesOf(m, plan), [], [], [], [], [])
  }

  function CellOf(m: Seamed, plan: Plan): CellData
    requires PlanFits(m, plan)
  {
    WithShells(Linked(WithFaces(Frame(m, plan), m, plan, |m.faces|)), m, plan.edgeMap)
  }

  // ------------------------------------------------------------------ the cell, built in place

  class Cell {
    var vertices: seq<Vertex>
    var edges: seq<CEdge>
    var fins: seq<Fin>
    var loops: seq<Loop>
    var faces: seq<CFace>
    var shells: seq<Shell>
    var regions: seq<Region>

    function Data(): CellData
      reads this
    {
      CellData(vertices, edges, fins, loops, faces, shells, regions)
    }

    constructor (vertices: seq<Vertex>)
      ensures Data() == CellData(vertices, [], [], [], [], [], [])
    {
      this.vertices := vertices;
      edges, fins, loops, faces, shells, regions := [], [], [], [], [], [];
    }

    method AddEdges(m: Seamed, plan: Plan)
      requires PlanFits(m, plan) && edges == []
      modifies this`edges
      ensures edges == EdgesOf(m, plan)
    {
      for k := 0 to |plan.keptEdges|
        invariant |edges| == k && forall j :: 0 <= j < k ==>
          edges[j] == EdgeOf(m.edges[plan.keptEdges[j]], plan.drop, plan.vertexMap)
      {
        var e := m.edges[plan.keptEdges[k]];
        var ring := e.curve.closed && e.start in plan.drop;
        var start := if ring then None else Some(Get(plan.vertexMap, e.start));
        var end := if ring then None else Some(Get(plan.vertexMap, e.end));
        edges := edges + [CEdge(start, end, e.curve, [])];
      }
    }

    /** One run: its fins, and the loop of them. */
    method AddRun(run: Run, edgeMap: map<nat, nat>) returns (id: nat)
      modifies this`fins, this`loops
      ensures id == |old(loops)| && Data() == WithRun(old(Data()), run, edgeMap)
    {
      var ids: seq<nat> := [];
      for k := 0 to |run.uses|
        invariant fins == old(fins) + FinsOf(run.uses, edgeMap)[..k]
        invariant ids == Interval(|old(fins)|, |run.uses|)[..k]
        invariant loops == old(loops)
      {
        var u := run.uses[k];
        ids := ids + [|fins|];
        fins := fins + [Fin(Get(edgeMap, u.edge), u.forward, u.pcurve)];
      }
      assert FinsOf(run.uses, edgeMap)[..|run.uses|] == FinsOf(run.uses, edgeMap);
      assert ids == Interval(|old(fins)|, |run.uses|);
      id := |loops|;
      loops := loops + [Loop(ids, run.winding, None, 0)];
    }

    method AddFace(face: SFace, runs: seq<Run>, edgeMap: map<nat, nat>, front: nat, back: nat)
      modifies this`fins, this`loops, this`faces
      ensures Data() == WithFace(old(Data()), face, runs, edgeMap, front, back)
    {
      hide WithRun;
      var ids: seq<nat> := [];
      for r := 0 to |runs|
        invariant Data() == WithRuns(old(Data()), runs[..r], edgeMap)
        invariant |loops| == |old(loops)| + r
        invariant ids == Interval(|old(loops)|, |runs|)[..r]
      {
        assert runs[..r + 1][..r] == runs[..r];
        LoopsMore(Data(), runs[r], edgeMap);
        var id := AddRun(runs[r], edgeMap);
        ids := ids + [id];
      }
      assert runs[..|runs|] == runs;
      assert ids == Interval(|old(loops)|, |runs|);
      faces := faces + [CFace(face.surface, face.forward, ids, front, back)];
    }

    /** The loop over the fins that appends each to its edge's list. */
    method LinkFins()
      requires forall i :: 0 <= i < |edges| ==> edges[i].fins == []
      modifies this`edges
      ensures Data() == Linked(old(Data()))
    {
      for k := 0 to |fins|
        invariant |edges| == |old(edges)|
        invariant forall i :: 0 <= i < |edges| ==> edges[i] == old(edges)[i].(fins := FinsOn(fins[..k], i))
      {
        assert fins[..k + 1][..k] == fins[..k];
        var e := fins[k].edge;
        if e < |edges| {
          edges := edges[e := edges[e].(fins := edges[e].fins + [k])];
        }
      }
      assert fins[..|fins|] == fins;
    }
  }

  lemma LoopsMore(c: CellData, run: Run, edgeMap: map<nat, nat>)
    ensures |WithRun(c, run, edgeMap).loops| == |c.loops| + 1
  {
  }

  /** `owner`: the first shell of each face. */
  method FindOwner(shells: seq<seq<nat>>, f: nat) returns (k: nat)
    ensures k == Owner(shells, f)
  {
    k := 0;
    while k < |shells| && f !in shells[k]
      invariant k <= |shells| && forall j :: 0 <= j < k ==> f !in shells[j]
    {
      k := k + 1;
    }
    if k == |shells| {
      NoOwner(shells, f);
      return 0;
    }
    OwnerIs(shells, f, k);
  }

  lemma NoOwner(shells: seq<seq<nat>>, f: nat)
    requires forall j :: 0 <= j < |shells| ==> f !in shells[j]
    ensures Owner(shells, f) == 0
  {
  }

  lemma {:induction false} OwnerIs(shells: seq<seq<nat>>, f: nat, k: nat)
    requires k < |shells| && f in shells[k] && forall j :: 0 <= j < k ==> f !in shells[j]
    ensures Owner(shells, f) == k
  {
    if k > 0 {
      assert shells[1..][k - 1] == shells[k];
      OwnerIs(shells[1..], f, k - 1);
    }
  }

  /** `twins` */
  method FindTwins(shells: seq<seq<nat>>) returns (twins: map<nat, nat>)
    ensures forall k: nat :: k in twins <==> k < |shells| && shells[k] != []
    ensures forall k: nat :: (if k in twins then twins[k] else k) == Twin(shells, k)
  {
    hide TwinsBefore;
    twins := map[];
    var count := 0;
    NoTwinsBefore(shells);
    for k := 0 to |shells|
      invariant count == TwinsBefore(shells, k)
      invariant forall j: nat :: j in twins <==> j < k && shells[j] != []
      invariant forall j :: j in twins ==> twins[j] == |shells| + TwinsBefore(shells, j)
    {
      TwinsBeforeNext(shells, k);
      if shells[k] != [] {
        twins := twins[k := |shells| + count];
        count := count + 1;
      }
    }
  }

  lemma NoTwinsBefore(shells: seq<seq<nat>>)
    ensures TwinsBefore(shells, 0) == 0
  {
  }

  lemma TwinsBeforeNext(shells: seq<seq<nat>>, k: nat)
    requires k < |shells|
    ensures TwinsBefore(shells, k + 1) == TwinsBefore(shells, k) + if shells[k] == [] then 0 else 1
  {
  }

  lemma WithFacesEdges(c: CellData, m: Seamed, plan: Plan, n: nat)
    requires n <= |m.faces| == |plan.runs|
    ensures WithFaces(c, m, plan, n).edges == c.edges && WithFaces(c, m, plan, n).vertices == c.vertices
    ensures WithFaces(c, m, plan, n).shells == c.shells && WithFaces(c, m, plan, n).regions == c.regions
  {
    if n > 0 {
      WithFacesEdges(c, m, plan, n - 1);
      WithRunsEdges(WithFaces(c, m, plan, n - 1), plan.runs[n - 1], plan.edgeMap);
    }
  }

  lemma {:induction false} WithRunsEdges(c: CellData, runs: seq<Run>, edgeMap: map<nat, nat>)
    ensures var d := WithRuns(c, runs, edgeMap);
      && d.edges == c.edges && d.vertices == c.vertices && d.faces == c.faces
      && d.shells == c.shells && d.regions == c.regions && |d.loops| == |c.loops| + |runs|
  {
    if runs != [] {
      WithRunsEdges(c, runs[..|runs| - 1], edgeMap);
    }
  }

  /** The sides of the faces in range. */
  method BackSides(s: seq<nat>, n: nat) returns (sides: seq<(nat, Side)>)
    ensures sides == SidesOf(InRange(s, n), Back)
  {
    sides := [];
    for k := 0 to |s|
      invariant sides == SidesOf(InRange(s[..k], n), Back)
    {
      assert s[..k + 1][..k] == s[..k];
      if s[k] < n {
        sides := sides + [(s[k], Back)];
      }
    }
    assert s[..|s|] == s;
  }

  /** The twin shells and their regions, in the order of their numbers. */
  method BuildTwins(shells: seq<seq<nat>>, faces: nat, twins: map<nat, nat>)
    returns (backs: seq<Shell>, voids: seq<Region>)
    requires forall k: nat :: k in twins <==> k < |shells| && shells[k] != []
    requires forall k: nat :: (if k in twins then twins[k] else k) == Twin(shells, k)
    ensures (backs, voids) == Twins(shells, faces, |shells|)
  {
    backs, voids := [], [];
    for k := 0 to |shells|
      invariant (backs, voids) == Twins(shells, faces, k)
    {
      if k in twins {
        var region := 0;
        if k != 0 {
          region := 2 + |voids|;
          voids := voids + [Region(Void, [twins[k]])];
        }
        var sides := BackSides(shells[k], faces);
        backs := backs + [Shell(region, sides, [], [])];
      }
    }
  }

  method FrontSides(shells: seq<seq<nat>>) returns (fronts: seq<Shell>)
    ensures fronts == FrontShells(shells)
  {
    fronts := [];
    for k := 0 to |shells|
      invariant |fronts| == k && forall j :: 0 <= j < k ==> fronts[j] == Shell(1, SidesOf(shells[j], Front), [], [])
    {
      fronts := fronts + [Shell(1, SidesOf(shells[k], Front), [], [])];
    }
  }

  method BothSides(n: nat) returns (sides: seq<(nat, Side)>)
    ensures sides == SheetSides(n)
  {
    sides := [];
    for f := 0 to n
      invariant sides == SheetSides(f)
    {
      sides := sides + [(f, Front), (f, Back)];
    }
  }

  /** The end of `to_cell`: shells and regions by the model's kind. */
  method Close(cell: Cell, m: Seamed, edgeMap: map<nat, nat>, twins: map<nat, nat>)
    requires forall k: nat :: k in twins <==> k < |m.shells| && m.shells[k] != []
    requires forall k: nat :: (if k in twins then twins[k] else k) == Twin(m.shells, k)
    modifies cell`faces, cell`shells, cell`regions
    ensures cell.Data() == WithShells(old(cell.Data()), m, edgeMap)
  {
    if m.kind == Sheet {
      var n := |cell.faces|;
      for f := 0 to n
        invariant |cell.faces| == n && cell.shells == old(cell.shells) && cell.regions == old(cell.regions)
        invariant forall j :: 0 <= j < n ==>
          cell.faces[j] == if j < f then old(cell.faces)[j].(front := 0, back := 0) else old(cell.faces)[j]
      {
        cell.faces := cell.faces[f := cell.faces[f].(front := 0, back := 0)];
      }
      var sides := BothSides(n);
      cell.shells := [Shell(0, sides, [], [])];
      cell.regions := [Region(Void, [0])];
    } else if m.kind == Wire || m.kind == Acorn {
      cell.shells := [Shell(0, [], if m.kind == Wire then GetAll(edgeMap, m.wire) else [], if m.kind == Acorn then [0]
        else [])];
      cell.regions := [Region(Void, [0])];
    } else {
      var fronts := FrontSides(m.shells);
      var backs, voids := BuildTwins(m.shells, |m.faces|, twins);
      cell.regions := [Region(Void, if 0 in twins then [twins[0]] else []),
                       Region(if m.kind == ClosedShell then Void else SolidRegion, Interval(0, |m.shells|))] + voids;
      cell.shells := fronts + backs;
    }
  }

  /** `to_cell`. None is its IndexError, on a lost seam that the model has no edge for. */
  method ToCell(m: Seamed, tau: real) returns (r: Option<Cell>)
    requires tau > 0.0
    ensures r.None? ==>
      exists runs, gone, e: nat :: FacesSplit(m, tau, runs, gone) && GoneFrom(gone, e) && e >= |m.edges|
    ensures r.Some? ==> fresh(r.value)
    ensures r.Some? ==> exists plan :: PlanOf(m, tau, plan) && PlanFits(m, plan) && r.value.Data() == CellOf(m, plan)
  {
    hide PlanOf, FacesSplit, GoneFrom, WithFace, WithShells, Twin, Owner, EdgesOf, VerticesOf;
    var made := MakePlan(m, tau);
    if made.None? {
      return None;
    }
    var plan := made.value;
    PlanOfFits(m, tau, plan);
    var cell := new Cell(VerticesOf(m, plan));
    cell.AddEdges(m, plan);
    var twins := FindTwins(m.shells);
    for f := 0 to |m.faces|
      invariant cell.Data() == WithFaces(Frame(m, plan), m, plan, f)
    {
      var k := FindOwner(m.shells, f);
      cell.AddFace(m.faces[f], plan.runs[f], plan.edgeMap, k, if k in twins then twins[k] else k);
    }
    WithFacesEdges(Frame(m, plan), m, plan, |m.faces|);
    FreshEdges(m, plan);
    cell.LinkFins();
    Close(cell, m, plan.edgeMap, twins);
    return Some(cell);
  }

  lemma FreshEdges(m: Seamed, plan: Plan)
    requires PlanFits(m, plan)
    ensures forall i :: 0 <= i < |EdgesOf(m, plan)| ==> EdgesOf(m, plan)[i].fins == []
  {
  }
}

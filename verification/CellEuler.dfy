/** Euler counts of shells before and after the conversion: vertices, edges and loops change, the count does not. */
module CellEuler {
  import opened Basics
  import opened SeamRuns
  import opened CellModel
  import opened CellConversion
  import opened CellChecks
  import opened ConversionAccepted
  import opened ClosedRuns

  // ------------------------------------------------------------------ sizes

  /** A one-to-one image has the size of its source. */
  lemma {:induction false} ImageSize(s: set<nat>, image: set<nat>, g: map<nat, nat>)
    requires s <= g.Keys && forall x, y :: x in s && y in s && g[x] == g[y] ==> x == y
    requires forall y :: y in image <==> exists x :: x in s && g[x] == y
    ensures |image| == |s|
    decreases |s|
  {
    if s == {} {
      assert image == {};
    } else {
      var x :| x in s;
      assert g[x] in image;
      forall y
        ensures y in image - {g[x]} <==> exists z :: z in s - {x} && g[z] == y
      {
        if y in image - {g[x]} {
          var z :| z in s && g[z] == y;
          assert z in s - {x};
        }
      }
      ImageSize(s - {x}, image - {g[x]}, g);
    }
  }

  /** Any image is at most as large, and smaller where two share a value. */
  lemma {:induction false} ImageAtMost(s: set<nat>, image: set<nat>, g: map<nat, nat>)
    requires s <= g.Keys && forall y :: y in image <==> exists x :: x in s && g[x] == y
    ensures |image| <= |s|
    decreases |s|
  {
    if s == {} {
      assert image == {};
    } else {
      var x :| x in s;
      var rest := image - (if exists z :: z in s - {x} && g[z] == g[x] then {} else {g[x]});
      forall y
        ensures y in rest <==> exists z :: z in s - {x} && g[z] == y
      {
        if y in rest {
          var z :| z in s && g[z] == y;
          if z == x {
            assert exists z :: z in s - {x} && g[z] == g[x];
          } else {
            assert z in s - {x};
          }
        }
      }
      ImageAtMost(s - {x}, rest, g);
      assert image <= rest + {g[x]};
      Larger(image, rest + {g[x]});
    }
  }

  lemma ImageSmaller(s: set<nat>, image: set<nat>, g: map<nat, nat>, x: nat, y: nat)
    requires s <= g.Keys && forall y :: y in image <==> exists x :: x in s && g[x] == y
    requires x in s && y in s && x != y && g[x] == g[y]
    ensures |image| < |s|
  {
    forall z
      ensures z in image <==> exists w :: w in s - {x} && g[w] == z
    {
      if z in image {
        var w :| w in s && g[w] == z;
        if w == x {
          assert y in s - {x} && g[y] == z;
        } else {
          assert w in s - {x};
        }
      }
    }
    ImageAtMost(s - {x}, image, g);
  }

  lemma DifferenceSize(s: set<nat>, t: set<nat>)
    ensures |s - t| == |s| - |s * t|
  {
    assert s == (s - t) + s * t;
  }

  // ------------------------------------------------------------------ the seamed count

  /** The edges used by the faces of a shell. */
  ghost function EdgesIn(m: Seamed, s: seq<nat>): set<nat>
    requires AllBelow(s, |m.faces|)
  {
    set e | 0 <= e < |m.edges| && UsedInAny(m, s, e)
  }

  ghost predicate UsedInAny(m: Seamed, s: seq<nat>, e: nat)
    requires AllBelow(s, |m.faces|)
  {
    exists k :: 0 <= k < |s| && UsedIn(m.faces[s[k]], e)
  }

  ghost predicate Ends(m: Seamed, e: nat, v: nat) {
    e < |m.edges| && (m.edges[e].start == v || m.edges[e].end == v)
  }

  ghost function VerticesIn(m: Seamed, s: seq<nat>): set<nat>
    requires AllBelow(s, |m.faces|)
  {
    set v | 0 <= v < |m.vertices| && EndsAny(m, s, v)
  }

  ghost predicate EndsAny(m: Seamed, s: seq<nat>, v: nat)
    requires AllBelow(s, |m.faces|)
  {
    exists e :: e in EdgesIn(m, s) && Ends(m, e, v)
  }

  ghost function LoopsIn(m: Seamed, s: seq<nat>): nat
    requires AllBelow(s, |m.faces|)
  {
    if s == [] then 0 else LoopsIn(m, s[..|s| - 1]) + |m.faces[s[|s| - 1]].loops|
  }

  /** `chi` of the seamed validator. */
  ghost function SeamedChi(m: Seamed, s: seq<nat>): int
    requires AllBelow(s, |m.faces|)
  {
    |VerticesIn(m, s)| - |EdgesIn(m, s)| + 2 * |s| - LoopsIn(m, s)
  }

  // ------------------------------------------------------------------ the cell's count

  ghost predicate LoopUses(c: CellData, l: nat, k: nat, i: nat) {
    l < |c.loops| && k in c.loops[l].fins && k < |c.fins| && c.fins[k].edge == i
  }

  ghost predicate FaceUses(c: CellData, f: nat, i: nat) {
    && f < |c.faces|
    && exists j, k :: 0 <= j < |c.faces[f].loops| && LoopUses(c, c.faces[f].loops[j], k, i)
  }

  ghost predicate AnyUses(c: CellData, s: seq<nat>, i: nat) {
    exists k :: 0 <= k < |s| && FaceUses(c, s[k], i)
  }

  ghost function CellEdges(c: CellData, s: seq<nat>): set<nat> {
    set i | 0 <= i < |c.edges| && c.edges[i].start.Some? && c.edges[i].end.Some? && AnyUses(c, s, i)
  }

  ghost predicate CellEnds(c: CellData, s: seq<nat>, v: nat) {
    || (exists i :: i in CellEdges(c, s) && (c.edges[i].start == Some(v) || c.edges[i].end == Some(v)))
    || exists k, j :: 0 <= k < |s| && s[k] < |c.faces| && 0 <= j < |c.faces[s[k]].loops| &&
         c.faces[s[k]].loops[j] < |c.loops| && c.loops[c.faces[s[k]].loops[j]].vertex == Some(v)
  }

  ghost function CellVertices(c: CellData, s: seq<nat>): set<nat> {
    set v | 0 <= v < |c.vertices| && CellEnds(c, s, v)
  }

  ghost function CellLoops(c: CellData, s: seq<nat>): nat
    requires AllBelow(s, |c.faces|)
  {
    if s == [] then 0 else CellLoops(c, s[..|s| - 1]) + |c.faces[s[|s| - 1]].loops|
  }

  /** `chi` of the cell validator: ring edges and what only they touch do not count. */
  ghost function CellChi(c: CellData, s: seq<nat>): int
    requires AllBelow(s, |c.faces|)
  {
    |CellVertices(c, s)| - |CellEdges(c, s)| + 2 * |s| - CellLoops(c, s)
  }

  // ------------------------------------------------------------------ one seam a merged loop

  /** The edge is used in no other loop of the model. */
  ghost predicate OnlyIn(m: Seamed, e: nat, f: nat, l: nat) {
    forall g, k, u :: 0 <= g < |m.faces| && 0 <= k < |m.faces[g].loops| && u in m.faces[g].loops[k] && u.edge == e ==>
      g == f && k == l
  }

  /** Each merged loop has one seam edge, used nowhere else. */
  ghost predicate SimpleSeams(m: Seamed, tau: real)
    requires tau > 0.0
  {
    forall f, l :: 0 <= f < |m.faces| && 0 <= l < |m.faces[f].loops| && m.faces[f].loops[l] != [] ==>
      Mergeable(m.faces[f].surface.kind == Cylinder, m.faces[f].loops[l], tau) ==> OneSeam(m, f, l)
  }

  ghost predicate OneSeam(m: Seamed, f: nat, l: nat)
    requires f < |m.faces| && l < |m.faces[f].loops|
  {
    && (forall d, e :: IsSeam(m.faces[f].loops[l], d) && IsSeam(m.faces[f].loops[l], e) ==> d == e)
    && forall e :: IsSeam(m.faces[f].loops[l], e) ==> OnlyIn(m, e, f, l)
  }

  lemma OneSeamListed(loop: seq<Use>, seams: seq<nat>)
    requires SeamList(loop, seams) && seams != []
    requires forall d, e :: IsSeam(loop, d) && IsSeam(loop, e) ==> d == e
    ensures |seams| == 1 && IsSeam(loop, seams[0])
  {
    hide IsSeam;
    assert seams[0] in seams;
    assert |seams| > 1 ==> seams[0] != seams[1];
    forall k | 0 <= k < |seams|
      ensures seams[k] == seams[0]
    {
      assert seams[k] in seams;
    }
  }

  /** A part of a simple loop: as it was with nothing gone, or two runs and one edge gone. */
  lemma SimplePart(m: Seamed, tau: real, f: nat, l: nat, part: Part)
    requires tau > 0.0 && SimpleSeams(m, tau) && f < |m.faces| && l < |m.faces[f].loops|
    requires PartOf(m.faces[f].surface.kind == Cylinder, m.faces[f].loops[l], tau, part)
    ensures |part.runs| == 1 + |part.gone|
    ensures forall e :: e in part.gone ==> OnlyIn(m, e, f, l)
  {
    hide Mergeable, MergeOf, IsSeam, OnlyIn;
    var loop := m.faces[f].loops[l];
    if loop != [] && Mergeable(m.faces[f].surface.kind == Cylinder, loop, tau) {
      var merged :| MergeOf(loop, tau, merged) && part == Part(merged.runs, set e | e in merged.seams);
      assert OneSeam(m, f, l);
      MergeSeams(loop, tau, merged);
      OneSeamListed(loop, merged.seams);
      MergeableCylinder(m.faces[f].surface.kind == Cylinder, loop, tau);
      OneSeamTwoRuns(loop, tau, merged);
      assert merged.seams == [merged.seams[0]];
      assert part.gone == {merged.seams[0]};
    }
  }

  lemma MergeableCylinder(cylinder: bool, loop: seq<Use>, tau: real)
    requires tau > 0.0 && Mergeable(cylinder, loop, tau)
    ensures cylinder
  {
  }

  lemma MergeSeams(loop: seq<Use>, tau: real, merged: Merged)
    requires tau > 0.0 && MergeOf(loop, tau, merged)
    ensures SeamList(loop, merged.seams) && merged.seams != []
  {
    hide SeamList, RunsAre;
    var first :| FirstSeam(loop, merged.seams, first) &&
      RunsAre(merged.runs, RunsOf(Rotated(loop, first), merged.seams), tau);
  }

  ghost function GoneOf(parts: seq<Part>): set<nat> {
    if parts == [] then {} else GoneOf(parts[..|parts| - 1]) + parts[|parts| - 1].gone
  }

  lemma {:induction false} GoneOfIs(parts: seq<Part>)
    ensures GoneIs(parts, GoneOf(parts))
  {
    if parts != [] {
      var k := |parts| - 1;
      GoneOfIs(parts[..k]);
      assert forall j :: 0 <= j < k ==> parts[..k][j] == parts[j];
    }
  }

  lemma GoneOfUsed(m: Seamed, tau: real, f: nat, parts: seq<Part>, j: nat, e: nat)
    requires tau > 0.0 && f < |m.faces| && PartsOf(m.faces[f], tau, parts, |m.faces[f].loops|)
    requires j < |parts| && e in parts[j].gone
    ensures j < |m.faces[f].loops| && exists u :: u in m.faces[f].loops[j] && u.edge == e
  {
    hide PartOf, WindingSum, InRuns;
    PartKeeps(m.faces[f].surface.kind == Cylinder, m.faces[f].loops[j], tau, parts[j]);
  }

  /** Each loop gives one run more for each edge it loses. */
  lemma {:induction false} SimpleParts(m: Seamed, tau: real, f: nat, parts: seq<Part>, n: nat)
    requires tau > 0.0 && SimpleSeams(m, tau) && f < |m.faces| && PartsOf(m.faces[f], tau, parts, |m.faces[f].loops|)
    requires n <= |parts|
    ensures |PartRuns(parts[..n])| == n + |GoneOf(parts[..n])|
    decreases n
  {
    hide PartOf, SimpleSeams, OnlyIn;
    if n > 0 {
      var face := m.faces[f];
      assert parts[..n][..n - 1] == parts[..n - 1];
      SimpleParts(m, tau, f, parts, n - 1);
      SimplePart(m, tau, f, n - 1, parts[n - 1]);
      var before, last := GoneOf(parts[..n - 1]), parts[n - 1].gone;
      GoneOfIs(parts[..n - 1]);
      forall e | e in before && e in last
        ensures false
      {
        var j :| 0 <= j < n - 1 && e in parts[..n - 1][j].gone;
        GoneOfUsed(m, tau, f, parts, j, e);
        NotElsewhere(m, e, f, n - 1, j);
      }
      assert before !! last;
    }
  }

  lemma NotElsewhere(m: Seamed, e: nat, f: nat, l: nat, j: nat)
    requires OnlyIn(m, e, f, l) && f < |m.faces| && j < |m.faces[f].loops|
    requires exists u :: u in m.faces[f].loops[j] && u.edge == e
    ensures j == l
  {
  }

  lemma {:induction false} InParts(parts: seq<Part>, u: Use) returns (j: nat)
    requires InRuns(PartRuns(parts), u)
    ensures j < |parts| && InRuns(parts[j].runs, u)
  {
    var k := |parts| - 1;
    InRunsConcat(PartRuns(parts[..k]), parts[k].runs, u);
    if InRuns(PartRuns(parts[..k]), u) {
      j := InParts(parts[..k], u);
    } else {
      j := k;
    }
  }

  /** What simple seams make of a face. */
  ghost predicate SimpleFace(m: Seamed, f: nat, runs: seq<Run>, gone: set<nat>)
    requires f < |m.faces|
  {
    && |runs| == |m.faces[f].loops| + |gone|
    && (forall e :: e in gone ==> GoneOnly(m, e, f))
    && forall u :: InRuns(runs, u) ==> u.edge !in gone
  }

  /** The edge is used in face f and in no other. */
  ghost predicate GoneOnly(m: Seamed, e: nat, f: nat)
    requires f < |m.faces|
  {
    UsedIn(m.faces[f], e) && forall g :: 0 <= g < |m.faces| && UsedIn(m.faces[g], e) ==> g == f
  }

  lemma GoneOnlyHere(m: Seamed, tau: real, f: nat, parts: seq<Part>, j: nat, e: nat)
    requires tau > 0.0 && SimpleSeams(m, tau) && f < |m.faces| && PartsOf(m.faces[f], tau, parts, |m.faces[f].loops|)
    requires j < |parts| && e in parts[j].gone
    ensures GoneOnly(m, e, f)
    ensures forall i :: 0 <= i < |parts| ==> (exists u :: u in m.faces[f].loops[i] && u.edge == e) ==> i == j
  {
    hide PartOf, SimpleSeams;
    SimplePart(m, tau, f, j, parts[j]);
    GoneOfUsed(m, tau, f, parts, j, e);
  }

  lemma SimpleSplit(m: Seamed, tau: real, f: nat, runs: seq<Run>, gone: set<nat>)
    requires tau > 0.0 && SimpleSeams(m, tau) && f < |m.faces| && FaceSplit(m.faces[f], tau, runs, gone)
    ensures SimpleFace(m, f, runs, gone)
  {
    hide SimpleSeams, PartOf, GoneIs, InRuns, GoneOnly;
    var face := m.faces[f];
    var parts: seq<Part> :| PartsOf(face, tau, parts, |face.loops|) && runs == PartRuns(parts) && GoneIs(parts, gone);
    assert parts[..|parts|] == parts;
    SimpleParts(m, tau, f, parts, |parts|);
    GoneOfIs(parts);
    SameGone(parts, gone, GoneOf(parts));
    forall e | e in gone
      ensures GoneOnly(m, e, f)
    {
      var j := GoneAt(parts, gone, e);
      GoneOnlyHere(m, tau, f, parts, j, e);
    }
    forall u | InRuns(runs, u)
      ensures u.edge !in gone
    {
      KeptNotGone(m, tau, f, parts, gone, u);
    }
  }

  lemma SameGone(parts: seq<Part>, a: set<nat>, b: set<nat>)
    requires GoneIs(parts, a) && GoneIs(parts, b)
    ensures a == b
  {
  }

  lemma KeptNotGone(m: Seamed, tau: real, f: nat, parts: seq<Part>, gone: set<nat>, u: Use)
    requires tau > 0.0 && SimpleSeams(m, tau) && f < |m.faces| && PartsOf(m.faces[f], tau, parts, |m.faces[f].loops|)
    requires GoneIs(parts, gone) && InRuns(PartRuns(parts), u)
    ensures u.edge !in gone
  {
    hide SimpleSeams, PartOf, GoneIs, InRuns, GoneOnly, WindingSum, PartRuns;
    var i := InParts(parts, u);
    PartKeeps(m.faces[f].surface.kind == Cylinder, m.faces[f].loops[i], tau, parts[i]);
    if u.edge in gone {
      var j := GoneAt(parts, gone, u.edge);
      GoneOnlyHere(m, tau, f, parts, j, u.edge);
    }
  }

  // ------------------------------------------------------------------ the ends of a lost seam

  ghost predicate HasEnd(m: Seamed, runs: seq<Run>, v: nat) {
    exists u :: InRuns(runs, u) && Ends(m, u.edge, v)
  }

  /** Each end of a lost edge still ends a kept use's edge. */
  ghost predicate KeepsEnds(m: Seamed, runs: seq<Run>, gone: set<nat>) {
    forall e, v :: e in gone && Ends(m, e, v) ==> HasEnd(m, runs, v)
  }

  lemma FirstUseEnds(m: Seamed, runs: seq<Run>, r: nat, v: nat)
    requires r < |runs| && runs[r].uses != [] && runs[r].uses[0].edge < |m.edges| && From(m, runs[r].uses[0]) == v
    ensures HasEnd(m, runs, v)
  {
    var u := runs[r].uses[0];
    assert u in runs[r].uses;
    assert InRuns(runs, u);
  }

  lemma MergedEnds(m: Seamed, loop: seq<Use>, tau: real, merged: Merged)
    requires tau > 0.0 && Mergeable(true, loop, tau) && MergeOf(loop, tau, merged) && |merged.seams| == 1
    requires Closed(m, loop) && forall u :: u in loop ==> u.edge < |m.edges|
    ensures KeepsEnds(m, merged.runs, set e | e in merged.seams)
  {
    hide Mergeable, MergeOf, Closed, From, HasEnd, InRuns, WindingSum;
    OneSeamClosed(m, loop, tau, merged);
    MergedPartKeeps(loop, tau, merged);
    var e := merged.seams[0];
    assert merged.seams == [e];
    var v, w := From(m, merged.runs[0].uses[0]), From(m, merged.runs[1].uses[0]);
    if e < |m.edges| {
      FirstUseKept(loop, merged, 0);
      FirstUseKept(loop, merged, 1);
      FirstUseEnds(m, merged.runs, 0, v);
      FirstUseEnds(m, merged.runs, 1, w);
      assert m.edges[e].start in {v, w} && m.edges[e].end in {v, w};
    }
  }

  lemma FirstUseKept(loop: seq<Use>, merged: Merged, r: nat)
    requires r < |merged.runs| && merged.runs[r].uses != [] && Keeps(loop, Part(merged.runs, set e | e in merged.seams))
    ensures merged.runs[r].uses[0] in loop
  {
    var u := merged.runs[r].uses[0];
    assert u in merged.runs[r].uses;
    assert InRuns(merged.runs, u);
  }

  lemma PartEnds(m: Seamed, tau: real, f: nat, l: nat, part: Part)
    requires tau > 0.0 && SimpleSeams(m, tau) && ClosedLoops(m) && f < |m.faces| && l < |m.faces[f].loops|
    requires GoodFace(m, m.faces[f]) && PartOf(m.faces[f].surface.kind == Cylinder, m.faces[f].loops[l], tau, part)
    ensures KeepsEnds(m, part.runs, part.gone)
  {
    hide Mergeable, MergeOf, IsSeam, OnlyIn, HasEnd, Closed;
    var loop := m.faces[f].loops[l];
    if loop != [] && Mergeable(m.faces[f].surface.kind == Cylinder, loop, tau) {
      var merged :| MergeOf(loop, tau, merged) && part == Part(merged.runs, set e | e in merged.seams);
      assert OneSeam(m, f, l);
      MergeSeams(loop, tau, merged);
      OneSeamListed(loop, merged.seams);
      MergeableCylinder(m.faces[f].surface.kind == Cylinder, loop, tau);
      MergedEnds(m, loop, tau, merged);
    }
  }

  lemma {:induction false} InPartRuns(parts: seq<Part>, j: nat, u: Use)
    requires j < |parts| && InRuns(parts[j].runs, u)
    ensures InRuns(PartRuns(parts), u)
  {
    hide InRuns;
    var k := |parts| - 1;
    if j < k {
      InPartRuns(parts[..k], j, u);
    }
    InRunsConcat(PartRuns(parts[..k]), parts[k].runs, u);
  }

  lemma {:induction false} PartRunAt(parts: seq<Part>, j: nat, q: nat) returns (r: nat)
    requires j < |parts| && q < |parts[j].runs|
    ensures r < |PartRuns(parts)| && PartRuns(parts)[r] == parts[j].runs[q]
  {
    var n := |parts| - 1;
    if j < n {
      r := PartRunAt(parts[..n], j, q);
    } else {
      r := |PartRuns(parts[..n])| + q;
    }
  }

  lemma {:induction false} RunOfPart(parts: seq<Part>, r: nat) returns (j: nat, q: nat)
    requires r < |PartRuns(parts)|
    ensures j < |parts| && q < |parts[j].runs| && PartRuns(parts)[r] == parts[j].runs[q]
  {
    var n := |parts| - 1;
    var before := PartRuns(parts[..n]);
    if r < |before| {
      j, q := RunOfPart(parts[..n], r);
    } else {
      j, q := n, r - |before|;
    }
  }

  /** A face's runs keep the ends of the edges it loses. */
  lemma FaceEnds(m: Seamed, tau: real, f: nat, runs: seq<Run>, gone: set<nat>)
    requires tau > 0.0 && SimpleSeams(m, tau) && ClosedLoops(m) && f < |m.faces| && GoodFace(m, m.faces[f])
    requires FaceSplit(m.faces[f], tau, runs, gone)
    ensures KeepsEnds(m, runs, gone)
  {
    hide SimpleSeams, ClosedLoops, PartOf, GoneIs, InRuns, GoodFace, PartRuns, Ends;
    var face := m.faces[f];
    var parts: seq<Part> :| PartsOf(face, tau, parts, |face.loops|) && runs == PartRuns(parts) && GoneIs(parts, gone);
    forall e, v | e in gone && Ends(m, e, v)
      ensures HasEnd(m, runs, v)
    {
      var j := GoneAt(parts, gone, e);
      PartEnds(m, tau, f, j, parts[j]);
      assert HasEnd(m, parts[j].runs, v);
      var u :| InRuns(parts[j].runs, u) && Ends(m, u.edge, v);
      InPartRuns(parts, j, u);
    }
  }

  /** Every face keeps the ends of its lost edges. */
  ghost predicate EndsKept(m: Seamed, plan: Plan) {
    && |plan.runs| == |plan.gone| == |m.faces|
    && forall f :: 0 <= f < |m.faces| ==> KeepsEnds(m, plan.runs[f], plan.gone[f])
  }

  lemma PlanKeepsEnds(m: Seamed, tau: real, plan: Plan)
    requires tau > 0.0 && SimpleSeams(m, tau) && ClosedLoops(m) && PlanOf(m, tau, plan) && ValidSeamed(m)
    ensures EndsKept(m, plan)
  {
    hide SimpleSeams, ClosedLoops, FaceSplit, KeepsEnds, RemovedIs, DropIs, Renumbered, GoodFace, Owners, VertexInUse,
         EdgeInUse;
    forall f | 0 <= f < |m.faces|
      ensures KeepsEnds(m, plan.runs[f], plan.gone[f])
    {
      FaceEnds(m, tau, f, plan.runs[f], plan.gone[f]);
    }
  }

  // ------------------------------------------------------------------ one shell

  /** The edges lost by the faces of a shell. */
  ghost function LostIn(plan: Plan, s: seq<nat>): set<nat>
    requires AllBelow(s, |plan.gone|)
  {
    if s == [] then {} else LostIn(plan, s[..|s| - 1]) + plan.gone[s[|s| - 1]]
  }

  ghost function RunsIn(plan: Plan, s: seq<nat>): nat
    requires AllBelow(s, |plan.runs|)
  {
    if s == [] then 0 else RunsIn(plan, s[..|s| - 1]) + |plan.runs[s[|s| - 1]]|
  }

  ghost predicate Distinct(s: seq<nat>) {
    forall j, k :: 0 <= j < k < |s| ==> s[j] != s[k]
  }

  ghost predicate SimplePlan(m: Seamed, plan: Plan) {
    && |plan.runs| == |plan.gone| == |m.faces|
    && forall f :: 0 <= f < |m.faces| ==> SimpleFace(m, f, plan.runs[f], plan.gone[f])
  }

  lemma PlanIsSimple(m: Seamed, tau: real, plan: Plan)
    requires tau > 0.0 && SimpleSeams(m, tau) && PlanOf(m, tau, plan)
    ensures SimplePlan(m, plan)
  {
    hide SimpleSeams, FaceSplit, SimpleFace, RemovedIs, DropIs, Renumbered;
    forall f | 0 <= f < |m.faces|
      ensures SimpleFace(m, f, plan.runs[f], plan.gone[f])
    {
      SimpleSplit(m, tau, f, plan.runs[f], plan.gone[f]);
    }
  }

  lemma {:induction false} InLost(plan: Plan, s: seq<nat>, e: nat)
    requires AllBelow(s, |plan.gone|)
    ensures e in LostIn(plan, s) <==> exists k :: 0 <= k < |s| && e in plan.gone[s[k]]
  {
    if s != [] {
      InLost(plan, s[..|s| - 1], e);
    }
  }

  /** The shell gains one loop for each edge it loses. */
  lemma {:induction false} RunsCounted(m: Seamed, plan: Plan, s: seq<nat>)
    requires SimplePlan(m, plan) && AllBelow(s, |m.faces|) && Distinct(s)
    ensures RunsIn(plan, s) == LoopsIn(m, s) + |LostIn(plan, s)|
  {
    hide GoneOnly, InRuns;
    if s != [] {
      var n := |s| - 1;
      RunsCounted(m, plan, s[..n]);
      var before, last := LostIn(plan, s[..n]), plan.gone[s[n]];
      assert SimpleFace(m, s[n], plan.runs[s[n]], plan.gone[s[n]]);
      forall e | e in last
        ensures e !in before
      {
        InLost(plan, s[..n], e);
        LostOnce(m, plan, s, n, e);
      }
      assert before !! last;
    }
  }

  lemma LostOnce(m: Seamed, plan: Plan, s: seq<nat>, n: nat, e: nat)
    requires SimplePlan(m, plan) && AllBelow(s, |m.faces|) && Distinct(s) && n < |s| && e in plan.gone[s[n]]
    ensures forall k :: 0 <= k < n ==> e !in plan.gone[s[k]]
  {
    hide InRuns;
    assert SimpleFace(m, s[n], plan.runs[s[n]], plan.gone[s[n]]);
    forall k | 0 <= k < n
      ensures e !in plan.gone[s[k]]
    {
      assert SimpleFace(m, s[k], plan.runs[s[k]], plan.gone[s[k]]);
    }
  }

  /** What a simple face loses disappears from the model. */
  lemma LostIsRemoved(m: Seamed, plan: Plan, f: nat, e: nat)
    requires SimplePlan(m, plan) && f < |m.faces| && e in plan.gone[f] && RemovedIs(plan.runs, plan.gone, plan.removed)
    requires forall g :: 0 <= g < |m.faces| ==> FaceKeeps(m.faces[g], plan.runs[g], plan.gone[g])
    ensures e in plan.removed
  {
    hide InRuns;
    assert GoneFrom(plan.gone, e);
    assert SimpleFace(m, f, plan.runs[f], plan.gone[f]);
    forall g, u | 0 <= g < |plan.runs| && InRuns(plan.runs[g], u)
      ensures u.edge != e
    {
      assert SimpleFace(m, g, plan.runs[g], plan.gone[g]);
      assert FaceKeeps(m.faces[g], plan.runs[g], plan.gone[g]);
      assert UsedIn(m.faces[g], u.edge);
    }
  }

  /** The ring edges of a shell: kept closed curves on a dropped vertex. */
  ghost function RingsIn(m: Seamed, plan: Plan, s: seq<nat>): set<nat>
    requires AllBelow(s, |m.faces|)
  {
    set e | e in EdgesIn(m, s) && e !in plan.removed && RingLike(m.edges[e]) && m.edges[e].start in plan.drop
  }

  /** Each dropped vertex of the shell lies on exactly one of its ring edges. */
  ghost predicate OneRingEach(m: Seamed, plan: Plan, s: seq<nat>)
    requires AllBelow(s, |m.faces|)
  {
    forall v :: v in VerticesIn(m, s) && v in plan.drop ==>
      exists e :: e in RingsIn(m, plan, s) && OnlyRing(m, plan, s, v, e)
  }

  ghost predicate OnlyRing(m: Seamed, plan: Plan, s: seq<nat>, v: nat, e: nat)
    requires AllBelow(s, |m.faces|)
  {
    forall d :: d in RingsIn(m, plan, s) ==> (m.edges[d].start == v <==> d == e)
  }

  /** The cell's edges of the shell that count, by their old numbers. */
  ghost function CountedEdges(m: Seamed, plan: Plan, s: seq<nat>): set<nat>
    requires AllBelow(s, |m.faces|) && |plan.gone| == |m.faces|
  {
    EdgesIn(m, s) - LostIn(plan, s) - RingsIn(m, plan, s)
  }

  ghost function CountedVertices(m: Seamed, plan: Plan, s: seq<nat>): set<nat>
    requires AllBelow(s, |m.faces|)
  {
    VerticesIn(m, s) - plan.drop
  }

  ghost predicate RunsEverywhere(m: Seamed, plan: Plan) {
    && |plan.runs| == |plan.gone| == |m.faces|
    && forall g :: 0 <= g < |m.faces| ==> FaceKeeps(m.faces[g], plan.runs[g], plan.gone[g])
  }

  lemma LostUsed(m: Seamed, plan: Plan, s: seq<nat>, e: nat)
    requires SimplePlan(m, plan) && RunsEverywhere(m, plan) && AllBelow(s, |m.faces|) && e in LostIn(plan, s)
    requires RemovedIs(plan.runs, plan.gone, plan.removed)
    ensures e in plan.removed && UsedInAny(m, s, e)
  {
    hide InRuns, RemovedIs, SimpleFace, GoneOnly, UsedIn;
    InLost(plan, s, e);
    var k :| 0 <= k < |s| && e in plan.gone[s[k]];
    LostIsRemoved(m, plan, s[k], e);
    assert FaceKeeps(m.faces[s[k]], plan.runs[s[k]], plan.gone[s[k]]);
  }

  /** A removed edge that the shell uses is one it loses. */
  lemma RemovedIsLost(m: Seamed, plan: Plan, s: seq<nat>, e: nat)
    requires RunsEverywhere(m, plan) && AllBelow(s, |m.faces|) && UsedInAny(m, s, e) && e in plan.removed
    requires RemovedIs(plan.runs, plan.gone, plan.removed)
    ensures e in LostIn(plan, s)
  {
    hide InRuns, GoneFrom;
    InLost(plan, s, e);
    var k :| 0 <= k < |s| && UsedIn(m.faces[s[k]], e);
    var f := s[k];
    assert FaceKeeps(m.faces[f], plan.runs[f], plan.gone[f]);
    var l, u :| 0 <= l < |m.faces[f].loops| && u in m.faces[f].loops[l] && u.edge == e;
    assert !UsedBy(plan.runs, e);
  }

  /** Every vertex of the shell still ends a kept edge of it. */
  lemma KeptEdgeIn(m: Seamed, plan: Plan, s: seq<nat>, v: nat) returns (e: nat)
    requires RunsEverywhere(m, plan) && EndsKept(m, plan) && AllBelow(s, |m.faces|) && EndsAny(m, s, v)
    requires RemovedIs(plan.runs, plan.gone, plan.removed)
    ensures e in EdgesIn(m, s) && e !in plan.removed && Ends(m, e, v)
  {
    hide InRuns, UsedIn, FaceKeeps, RemovedIs;
    e :| e in EdgesIn(m, s) && Ends(m, e, v);
    if e in plan.removed {
      RemovedIsLost(m, plan, s, e);
      InLost(plan, s, e);
      var k :| 0 <= k < |s| && e in plan.gone[s[k]];
      assert HasEnd(m, plan.runs[s[k]], v);
      var u :| InRuns(plan.runs[s[k]], u) && Ends(m, u.edge, v);
      e := u.edge;
      assert FaceKeeps(m.faces[s[k]], plan.runs[s[k]], plan.gone[s[k]]);
      KeptUseUsed(m.faces[s[k]], plan.runs[s[k]], plan.gone[s[k]], u);
      KeptUseStays(plan, s[k], u);
    }
  }

  lemma KeptUseUsed(face: SFace, runs: seq<Run>, gone: set<nat>, u: Use)
    requires FaceKeeps(face, runs, gone) && InRuns(runs, u)
    ensures UsedIn(face, u.edge)
  {
    hide InRuns;
  }

  lemma KeptUseStays(plan: Plan, f: nat, u: Use)
    requires RemovedIs(plan.runs, plan.gone, plan.removed) && f < |plan.runs| && InRuns(plan.runs[f], u)
    ensures u.edge !in plan.removed
  {
    hide InRuns;
    assert UsedBy(plan.runs, u.edge);
  }

  /** On a dropped vertex it is a ring edge. */
  lemma RingAt(m: Seamed, plan: Plan, s: seq<nat>, v: nat) returns (e: nat)
    requires RunsEverywhere(m, plan) && EndsKept(m, plan) && AllBelow(s, |m.faces|) && EndsAny(m, s, v)
    requires RemovedIs(plan.runs, plan.gone, plan.removed) && DropIs(m.edges, plan.removed, plan.drop) && v in plan.drop
    ensures e in RingsIn(m, plan, s) && m.edges[e].start == v
  {
    hide RunsEverywhere, EndsKept, RemovedIs, EndsAny, UsedInAny, SeamVertex;
    e := KeptEdgeIn(m, plan, s, v);
    assert !OtherUse(m.edges, plan.removed, v);
  }

  /** The edges and vertices that stop counting. */
  lemma CountsBalance(m: Seamed, plan: Plan, s: seq<nat>)
    requires SimplePlan(m, plan) && RunsEverywhere(m, plan) && AllBelow(s, |m.faces|)
    requires RemovedIs(plan.runs, plan.gone, plan.removed) && forall e :: e in plan.removed ==> e < |m.edges|
    ensures |CountedEdges(m, plan, s)| == |EdgesIn(m, s)| - |LostIn(plan, s)| - |RingsIn(m, plan, s)|
    ensures |CountedVertices(m, plan, s)| == |VerticesIn(m, s)| - |VerticesIn(m, s) * plan.drop|
  {
    var es, lost, rings := EdgesIn(m, s), LostIn(plan, s), RingsIn(m, plan, s);
    forall e | e in lost
      ensures e in plan.removed && e in es
    {
      LostUsed(m, plan, s, e);
    }
    RingsDisjoint(m, plan, s);
    DifferenceSize(es, lost);
    assert es * lost == lost;
    DifferenceSize(es - lost, rings);
    assert (es - lost) * rings == rings;
    DifferenceSize(VerticesIn(m, s), plan.drop);
  }

  lemma RingsDisjoint(m: Seamed, plan: Plan, s: seq<nat>)
    requires AllBelow(s, |m.faces|)
    ensures forall e :: e in RingsIn(m, plan, s) ==> e in EdgesIn(m, s) && e !in plan.removed
  {
  }

  /** Dropped vertices are as many as ring edges exactly if each lies on one. */
  lemma RingVertices(m: Seamed, plan: Plan, s: seq<nat>)
    requires RunsEverywhere(m, plan) && EndsKept(m, plan) && AllBelow(s, |m.faces|)
    requires RemovedIs(plan.runs, plan.gone, plan.removed) && DropIs(m.edges, plan.removed, plan.drop)
    requires forall e :: 0 <= e < |m.edges| ==> m.edges[e].start < |m.vertices| && m.edges[e].end < |m.vertices|
    ensures |VerticesIn(m, s) * plan.drop| == |RingsIn(m, plan, s)| <==> OneRingEach(m, plan, s)
  {
    hide UsedInAny, RunsEverywhere, EndsKept, RemovedIs, DropIs, RingLike;
    var rings, dropped := RingsIn(m, plan, s), VerticesIn(m, s) * plan.drop;
    var start := map e | e in rings :: m.edges[e].start;
    forall v
      ensures v in dropped <==> exists e :: e in rings && start[e] == v
    {
      if v in dropped {
        var e := RingAt(m, plan, s, v);
        assert e in rings && start[e] == v;
      }
      if e :| e in rings && start[e] == v {
        assert Ends(m, e, v);
        assert EndsAny(m, s, v);
      }
    }
    hide RingsIn, VerticesIn, EndsAny;
    if d, e :| d in rings && e in rings && d != e && start[d] == start[e] {
      ImageSmaller(rings, dropped, start, d, e);
      NotOneRing(m, plan, s, d, e);
    } else {
      ImageSize(rings, dropped, start);
      forall v | v in VerticesIn(m, s) && v in plan.drop
        ensures exists e :: e in RingsIn(m, plan, s) && OnlyRing(m, plan, s, v, e)
      {
        assert v in dropped;
        var e :| e in rings && start[e] == v;
        assert OnlyRing(m, plan, s, v, e);
      }
    }
  }

  lemma NotOneRing(m: Seamed, plan: Plan, s: seq<nat>, d: nat, e: nat)
    requires AllBelow(s, |m.faces|) && d in RingsIn(m, plan, s) && e in RingsIn(m, plan, s)
    requires d != e && m.edges[d].start == m.edges[e].start
    requires m.edges[d].start in VerticesIn(m, s) && m.edges[d].start in plan.drop
    ensures !OneRingEach(m, plan, s)
  {
    hide UsedInAny, VerticesIn, RingLike;
    var v := m.edges[d].start;
    forall x | x in RingsIn(m, plan, s)
      ensures !OnlyRing(m, plan, s, v, x)
    {
    }
  }

  // ------------------------------------------------------------------ the cell's sets

  lemma FinHasUse(c: CellData, first: nat, runs: seq<Run>, edgeMap: map<nat, nat>, j: nat, k: nat,
                  i: nat) returns (u: Use)
    requires RunsShown(c, first, runs, edgeMap) && j < |runs| && LoopUses(c, first + j, k, i)
    ensures InRuns(runs, u) && Get(edgeMap, u.edge) == i
  {
    assert RunShown(c, c.loops[first + j], runs[j], edgeMap);
    var h :| 0 <= h < |c.loops[first + j].fins| && c.loops[first + j].fins[h] == k;
    u := runs[j].uses[h];
    assert u in runs[j].uses;
  }

  lemma UseHasLoop(c: CellData, first: nat, runs: seq<Run>, edgeMap: map<nat, nat>, u: Use) returns (j: nat, k: nat)
    requires RunsShown(c, first, runs, edgeMap) && InRuns(runs, u)
    ensures j < |runs| && LoopUses(c, first + j, k, Get(edgeMap, u.edge))
  {
    j :| 0 <= j < |runs| && u in runs[j].uses;
    var h :| 0 <= h < |runs[j].uses| && runs[j].uses[h] == u;
    assert RunShown(c, c.loops[first + j], runs[j], edgeMap);
    k := c.loops[first + j].fins[h];
    assert k in c.loops[first + j].fins;
  }

  lemma FaceUsesShown(c: CellData, f: nat, first: nat, runs: seq<Run>, edgeMap: map<nat, nat>, i: nat)
    requires f < |c.faces| && c.faces[f].loops == Interval(first, |runs|) && RunsShown(c, first, runs, edgeMap)
    ensures FaceUses(c, f, i) <==> exists u :: InRuns(runs, u) && Get(edgeMap, u.edge) == i
  {
    hide RunsShown, LoopUses, InRuns, Get;
    var ids := c.faces[f].loops;
    if j, k :| 0 <= j < |ids| && LoopUses(c, ids[j], k, i) {
      var u := FinHasUse(c, first, runs, edgeMap, j, k, i);
    }
    if u :| InRuns(runs, u) && Get(edgeMap, u.edge) == i {
      var j, k := UseHasLoop(c, first, runs, edgeMap, u);
      assert LoopUses(c, ids[j], k, i);
    }
  }

  lemma FaceUsesRuns(c: CellData, m: Seamed, tau: real, plan: Plan, f: nat, i: nat)
    requires tau > 0.0 && Good(c, m, tau, plan) && f < |m.faces|
    ensures |m.faces| == |c.faces| == |plan.runs|
    ensures FaceUses(c, f, i) <==> exists u :: InRuns(plan.runs[f], u) && Get(plan.edgeMap, u.edge) == i
    ensures |c.faces[f].loops| == |plan.runs[f]|
  {
    hide *;
    GoodSizes(c, m, tau, plan);
    var first := GoodFaceShown(c, m, tau, plan, f);
    FaceUsesShown(c, f, first, plan.runs[f], plan.edgeMap, i);
  }

  lemma GoodSizes(c: CellData, m: Seamed, tau: real, plan: Plan)
    requires tau > 0.0 && Good(c, m, tau, plan)
    ensures |c.faces| == |m.faces| == |plan.runs| == |plan.gone| && |c.edges| == |plan.keptEdges|
    ensures |c.vertices| == |plan.keptVertices|
    ensures RemovedIs(plan.runs, plan.gone, plan.removed) && forall e :: e in plan.removed ==> e < |m.edges|
    ensures forall e :: 0 <= e < |m.edges| ==> m.edges[e].start < |m.vertices| && m.edges[e].end < |m.vertices|
    ensures Renumbered(|m.edges|, plan.removed, plan.edgeMap, plan.keptEdges)
    ensures Renumbered(|m.vertices|, plan.drop, plan.vertexMap, plan.keptVertices)
  {
    hide FaceSplit, RemovedIs, DropIs, Renumbered, FinsOnce, LoopsOnce, PlainLoops, FinsFrom, AllShown, ShellsBuilt,
         FinsOn, Owners, GoodFace, VertexInUse, EdgeInUse;
  }

  lemma GoodRuns(c: CellData, m: Seamed, tau: real, plan: Plan)
    requires tau > 0.0 && Good(c, m, tau, plan)
    ensures RunsEverywhere(m, plan)
  {
    GoodPlan(c, m, tau, plan);
    GoodSizes(c, m, tau, plan);
    hide Good, PlanOf, ValidSeamed, Converted, PlanFits, FaceKeeps, WindingSum, RemovedIs, Renumbered;
    forall f | 0 <= f < |m.faces|
      ensures FaceKeeps(m.faces[f], plan.runs[f], plan.gone[f])
    {
      PlanFaces(m, tau, plan, f);
    }
  }

  /** A kept use's edge keeps a number, which is its alone. */
  lemma KeptNumber(c: CellData, m: Seamed, tau: real, plan: Plan, f: nat, u: Use)
    requires tau > 0.0 && Good(c, m, tau, plan) && f < |m.faces| && f < |plan.runs| && InRuns(plan.runs[f], u)
    ensures u.edge in plan.edgeMap && Get(plan.edgeMap, u.edge) == plan.edgeMap[u.edge] && UsedIn(m.faces[f], u.edge)
  {
    GoodPlan(c, m, tau, plan);
    hide Good, PlanOf, ValidSeamed, Converted, PlanFits, InRuns, WindingSum;
    KeptUse(m, tau, plan, f, u);
    PlanFaces(m, tau, plan, f);
  }

  /** The cell's faces use exactly the kept edges that the seamed shell uses. */
  lemma ShellUses(c: CellData, m: Seamed, tau: real, plan: Plan, s: seq<nat>, e: nat)
    requires tau > 0.0 && Good(c, m, tau, plan) && AllBelow(s, |m.faces|) && e in plan.edgeMap
    requires SimplePlan(m, plan)
    ensures AnyUses(c, s, plan.edgeMap[e]) <==> UsedInAny(m, s, e)
  {
    GoodSizes(c, m, tau, plan);
    GoodRuns(c, m, tau, plan);
    hide Good, InRuns, FaceUses, UsedIn, SimpleFace;
    var i := plan.edgeMap[e];
    forall k | 0 <= k < |s|
      ensures FaceUses(c, s[k], i) <==> UsedIn(m.faces[s[k]], e)
    {
      FaceUsesEdge(c, m, tau, plan, s[k], e);
    }
  }

  lemma FaceUsesEdge(c: CellData, m: Seamed, tau: real, plan: Plan, f: nat, e: nat)
    requires tau > 0.0 && Good(c, m, tau, plan) && f < |m.faces| && e in plan.edgeMap && SimplePlan(m, plan)
    ensures FaceUses(c, f, plan.edgeMap[e]) <==> UsedIn(m.faces[f], e)
  {
    GoodSizes(c, m, tau, plan);
    GoodRuns(c, m, tau, plan);
    hide Good, InRuns, FaceUses, SimpleFace, GoneFrom, UsedBy;
    var i := plan.edgeMap[e];
    FaceUsesRuns(c, m, tau, plan, f, i);
    if u :| InRuns(plan.runs[f], u) && Get(plan.edgeMap, u.edge) == i {
      KeptNumber(c, m, tau, plan, f, u);
      assert plan.keptEdges[i] == e;
    }
    if UsedIn(m.faces[f], e) {
      var l, u :| 0 <= l < |m.faces[f].loops| && u in m.faces[f].loops[l] && u.edge == e;
      assert FaceKeeps(m.faces[f], plan.runs[f], plan.gone[f]);
      if e in plan.gone[f] {
        LostIsRemoved(m, plan, f, e);
      }
      assert Get(plan.edgeMap, u.edge) == i;
    }
  }

  /** What the lemmas below assume of a converted shell. */
  ghost predicate GoodShell(c: CellData, m: Seamed, tau: real, plan: Plan, s: seq<nat>)
    requires tau > 0.0
  {
    && Good(c, m, tau, plan) && SimplePlan(m, plan) && RunsEverywhere(m, plan) && EndsKept(m, plan)
    && AllBelow(s, |m.faces|)
  }

  lemma GoodShellParts(c: CellData, m: Seamed, tau: real, plan: Plan, s: seq<nat>)
    requires tau > 0.0 && GoodShell(c, m, tau, plan, s)
    ensures Good(c, m, tau, plan) && SimplePlan(m, plan) && RunsEverywhere(m, plan) && EndsKept(m, plan)
    ensures AllBelow(s, |m.faces|)
    ensures PlanOf(m, tau, plan) && ValidSeamed(m) && |plan.gone| == |plan.runs| == |m.faces|
  {
    hide Good, SimpleFace, FaceKeeps, EndsKept;
    GoodPlan(c, m, tau, plan);
  }

  /** A kept edge of the shell counts in the cell unless it became a ring. */
  lemma CountedIff(c: CellData, m: Seamed, tau: real, plan: Plan, s: seq<nat>, e: nat)
    requires tau > 0.0 && GoodShell(c, m, tau, plan, s) && AllBelow(s, |m.faces|) && |plan.gone| == |m.faces|
    requires e < |m.edges| && UsedInAny(m, s, e)
    ensures e in CountedEdges(m, plan, s) <==>
      e in plan.edgeMap && !(RingLike(m.edges[e]) && m.edges[e].start in plan.drop)
  {
    hide *;
    GoodShellParts(c, m, tau, plan, s);
    GoodSizes(c, m, tau, plan);
    CountedNamed(m, plan, s, e);
    KeptIff(|m.edges|, plan.removed, plan.edgeMap, plan.keptEdges, e);
    if e in plan.removed {
      RemovedIsLost(m, plan, s, e);
    } else if e in LostIn(plan, s) {
      LostUsed(m, plan, s, e);
    }
  }

  lemma CountedNamed(m: Seamed, plan: Plan, s: seq<nat>, e: nat)
    requires AllBelow(s, |m.faces|) && |plan.gone| == |m.faces| && e < |m.edges| && UsedInAny(m, s, e)
    ensures e in CountedEdges(m, plan, s) <==>
      e !in LostIn(plan, s) && !(e !in plan.removed && RingLike(m.edges[e]) && m.edges[e].start in plan.drop)
  {
    hide UsedInAny, LostIn, RingLike;
  }

  lemma KeptIff(n: nat, gone: set<nat>, numbers: map<nat, nat>, kept: seq<nat>, i: nat)
    requires Renumbered(n, gone, numbers, kept) && i < n
    ensures i in numbers <==> i !in gone
  {
  }

  lemma EdgeImage(c: CellData, m: Seamed, tau: real, plan: Plan, s: seq<nat>, i: nat)
    requires tau > 0.0 && GoodShell(c, m, tau, plan, s) && AllBelow(s, |m.faces|) && |plan.gone| == |m.faces|
    ensures i in CellEdges(c, s) ==>
      && i < |plan.keptEdges| && plan.keptEdges[i] in CountedEdges(m, plan, s)
      && plan.keptEdges[i] in plan.edgeMap && plan.edgeMap[plan.keptEdges[i]] == i
  {
    GoodShellParts(c, m, tau, plan, s);
    GoodSizes(c, m, tau, plan);
    hide GoodShell, Good, PlanOf, ValidSeamed, EndsKept, SimplePlan, RunsEverywhere, RemovedIs, UsedInAny, CountedEdges,
         AnyUses, EdgeOf, Renumbered;
    if i in CellEdges(c, s) {
      GoodEdge(c, m, tau, plan, i);
      var e := plan.keptEdges[i];
      ShellUses(c, m, tau, plan, s, e);
      KeptEdge(m, tau, plan, e);
      CountedIff(c, m, tau, plan, s, e);
    }
  }

  lemma CountedEdgeUsed(m: Seamed, plan: Plan, s: seq<nat>, e: nat)
    requires AllBelow(s, |m.faces|) && |plan.gone| == |m.faces| && e in CountedEdges(m, plan, s)
    ensures e < |m.edges| && UsedInAny(m, s, e)
  {
  }

  /** A counted edge's place in the cell, and its ends there. */
  lemma EdgePreimage(c: CellData, m: Seamed, tau: real, plan: Plan, s: seq<nat>, e: nat)
    requires tau > 0.0 && GoodShell(c, m, tau, plan, s) && AllBelow(s, |m.faces|) && |plan.gone| == |m.faces|
    requires e in CountedEdges(m, plan, s)
    ensures e in plan.edgeMap && plan.edgeMap[e] in CellEdges(c, s) && e < |m.edges|
    ensures m.edges[e].start in plan.vertexMap && m.edges[e].end in plan.vertexMap
    ensures plan.edgeMap[e] < |c.edges|
    ensures c.edges[plan.edgeMap[e]].start == Some(plan.vertexMap[m.edges[e].start])
    ensures c.edges[plan.edgeMap[e]].end == Some(plan.vertexMap[m.edges[e].end])
  {
    hide *;
    CountedEdgeUsed(m, plan, s, e);
    GoodShellParts(c, m, tau, plan, s);
    GoodSizes(c, m, tau, plan);
    CountedIff(c, m, tau, plan, s, e);
    NumberOf(|m.edges|, plan.removed, plan.edgeMap, plan.keptEdges, e);
    GoodEdge(c, m, tau, plan, plan.edgeMap[e]);
    KeptEdge(m, tau, plan, e);
    ShellUses(c, m, tau, plan, s, e);
    InCellEdges(c, s, plan.edgeMap[e]);
  }

  lemma NumberOf(n: nat, gone: set<nat>, numbers: map<nat, nat>, kept: seq<nat>, i: nat)
    requires Renumbered(n, gone, numbers, kept) && i in numbers
    ensures numbers[i] < |kept| && kept[numbers[i]] == i && i < n && i !in gone
  {
  }

  lemma KeptIs(n: nat, gone: set<nat>, numbers: map<nat, nat>, kept: seq<nat>, i: nat)
    requires Renumbered(n, gone, numbers, kept) && i < |kept|
    ensures kept[i] < n && kept[i] !in gone && kept[i] in numbers && numbers[kept[i]] == i
  {
  }

  lemma InCellEdges(c: CellData, s: seq<nat>, i: nat)
    requires i < |c.edges| && c.edges[i].start.Some? && c.edges[i].end.Some? && AnyUses(c, s, i)
    ensures i in CellEdges(c, s)
  {
  }

  /** The cell counts as many edges as remain. */
  lemma EdgesCounted(c: CellData, m: Seamed, tau: real, plan: Plan, s: seq<nat>)
    requires tau > 0.0 && GoodShell(c, m, tau, plan, s) && AllBelow(s, |m.faces|) && |plan.gone| == |m.faces|
    ensures |CellEdges(c, s)| == |CountedEdges(m, plan, s)|
  {
    hide *;
    GoodShellParts(c, m, tau, plan, s);
    GoodSizes(c, m, tau, plan);
    var counted := CountedEdges(m, plan, s);
    forall e | e in counted
      ensures e in plan.edgeMap && plan.edgeMap[e] in CellEdges(c, s)
    {
      EdgePreimage(c, m, tau, plan, s, e);
    }
    forall d, e | d in counted && e in counted && plan.edgeMap[d] == plan.edgeMap[e]
      ensures d == e
    {
      NumberOf(|m.edges|, plan.removed, plan.edgeMap, plan.keptEdges, d);
      NumberOf(|m.edges|, plan.removed, plan.edgeMap, plan.keptEdges, e);
    }
    forall i
      ensures i in CellEdges(c, s) <==> exists e :: e in counted && plan.edgeMap[e] == i
    {
      EdgeImage(c, m, tau, plan, s, i);
    }
    ImageSize(counted, CellEdges(c, s), plan.edgeMap);
  }

  lemma CountedVertexIs(m: Seamed, plan: Plan, s: seq<nat>, v: nat)
    requires AllBelow(s, |m.faces|)
    ensures v in CountedVertices(m, plan, s) <==> v < |m.vertices| && v !in plan.drop && EndsAny(m, s, v)
  {
  }

  lemma EndInShell(m: Seamed, s: seq<nat>, e: nat, v: nat)
    requires AllBelow(s, |m.faces|) && e < |m.edges| && UsedInAny(m, s, e) && Ends(m, e, v)
    ensures EndsAny(m, s, v)
  {
  }

  lemma NoLoopVertex(c: CellData, s: seq<nat>, w: nat)
    requires PlainLoops(c) && CellEnds(c, s, w)
    ensures exists i ::
      i in CellEdges(c, s) && i < |c.edges| && (c.edges[i].start == Some(w) || c.edges[i].end == Some(w))
  {
  }

  lemma VertexImage(c: CellData, m: Seamed, tau: real, plan: Plan, s: seq<nat>, w: nat) returns (v: nat)
    requires tau > 0.0 && GoodShell(c, m, tau, plan, s) && AllBelow(s, |m.faces|) && |plan.gone| == |m.faces|
    requires w in CellVertices(c, s)
    ensures v in CountedVertices(m, plan, s) && v in plan.vertexMap && plan.vertexMap[v] == w
  {
    InCellVertices(c, s, w);
    hide *;
    GoodShellParts(c, m, tau, plan, s);
    GoodSizes(c, m, tau, plan);
    GoodLists(c, m, tau, plan);
    NoLoopVertex(c, s, w);
    var i :| i in CellEdges(c, s) && i < |c.edges| && (c.edges[i].start == Some(w) || c.edges[i].end == Some(w));
    EdgeImage(c, m, tau, plan, s, i);
    var e := plan.keptEdges[i];
    EdgePreimage(c, m, tau, plan, s, e);
    CountedEdgeUsed(m, plan, s, e);
    v := if c.edges[i].start == Some(w) then m.edges[e].start else m.edges[e].end;
    EdgeEnds(m, e, v);
    EndInShell(m, s, e, v);
    NumberOf(|m.vertices|, plan.drop, plan.vertexMap, plan.keptVertices, v);
    CountedVertexIs(m, plan, s, v);
  }

  lemma EdgeEnds(m: Seamed, e: nat, v: nat)
    requires e < |m.edges| && (v == m.edges[e].start || v == m.edges[e].end)
    ensures Ends(m, e, v)
  {
  }

  lemma InCellVertices(c: CellData, s: seq<nat>, w: nat)
    ensures w in CellVertices(c, s) <==> w < |c.vertices| && CellEnds(c, s, w)
  {
  }

  lemma CellEdgeEnds(c: CellData, s: seq<nat>, i: nat, w: nat)
    requires i in CellEdges(c, s) && i < |c.edges| && (c.edges[i].start == Some(w) || c.edges[i].end == Some(w))
    ensures CellEnds(c, s, w)
  {
  }

  /** A counted vertex ends a counted edge. */
  lemma CountedEdgeAt(c: CellData, m: Seamed, tau: real, plan: Plan, s: seq<nat>, v: nat) returns (e: nat)
    requires tau > 0.0 && GoodShell(c, m, tau, plan, s) && AllBelow(s, |m.faces|) && |plan.gone| == |m.faces|
    requires EndsAny(m, s, v) && v !in plan.drop
    ensures e in CountedEdges(m, plan, s) && e < |m.edges| && (v == m.edges[e].start || v == m.edges[e].end)
  {
    hide *;
    GoodShellParts(c, m, tau, plan, s);
    GoodSizes(c, m, tau, plan);
    e := KeptEdgeIn(m, plan, s, v);
    InEdges(m, s, e, v);
    KeptIff(|m.edges|, plan.removed, plan.edgeMap, plan.keptEdges, e);
    CountedIff(c, m, tau, plan, s, e);
    NotRingHere(m.edges[e], plan.drop, v);
  }

  lemma InEdges(m: Seamed, s: seq<nat>, e: nat, v: nat)
    requires AllBelow(s, |m.faces|) && e in EdgesIn(m, s) && Ends(m, e, v)
    ensures e < |m.edges| && UsedInAny(m, s, e) && (v == m.edges[e].start || v == m.edges[e].end)
  {
  }

  lemma NotRingHere(e: SEdge, drop: set<nat>, v: nat)
    requires v !in drop && (v == e.start || v == e.end)
    ensures !(RingLike(e) && e.start in drop)
  {
  }

  lemma VertexPreimage(c: CellData, m: Seamed, tau: real, plan: Plan, s: seq<nat>, v: nat)
    requires tau > 0.0 && GoodShell(c, m, tau, plan, s) && AllBelow(s, |m.faces|) && |plan.gone| == |m.faces|
    requires v in CountedVertices(m, plan, s)
    ensures v in plan.vertexMap && plan.vertexMap[v] in CellVertices(c, s)
  {
    hide *;
    GoodShellParts(c, m, tau, plan, s);
    GoodSizes(c, m, tau, plan);
    CountedVertexIs(m, plan, s, v);
    Numbered(|m.vertices|, plan.drop, plan.vertexMap, plan.keptVertices, v);
    NumberOf(|m.vertices|, plan.drop, plan.vertexMap, plan.keptVertices, v);
    var e := CountedEdgeAt(c, m, tau, plan, s, v);
    EdgePreimage(c, m, tau, plan, s, e);
    CellEdgeEnds(c, s, plan.edgeMap[e], plan.vertexMap[v]);
    InCellVertices(c, s, plan.vertexMap[v]);
  }

  lemma Numbered(n: nat, gone: set<nat>, numbers: map<nat, nat>, kept: seq<nat>, i: nat)
    requires Renumbered(n, gone, numbers, kept) && i < n && i !in gone
    ensures i in numbers
  {
  }

  /** The cell counts as many vertices as remain. */
  lemma VerticesCounted(c: CellData, m: Seamed, tau: real, plan: Plan, s: seq<nat>)
    requires tau > 0.0 && GoodShell(c, m, tau, plan, s) && AllBelow(s, |m.faces|) && |plan.gone| == |m.faces|
    ensures |CellVertices(c, s)| == |CountedVertices(m, plan, s)|
  {
    hide *;
    GoodShellParts(c, m, tau, plan, s);
    GoodSizes(c, m, tau, plan);
    var counted := CountedVertices(m, plan, s);
    forall v | v in counted
      ensures v in plan.vertexMap && plan.vertexMap[v] in CellVertices(c, s)
    {
      VertexPreimage(c, m, tau, plan, s, v);
    }
    forall u, v | u in counted && v in counted && plan.vertexMap[u] == plan.vertexMap[v]
      ensures u == v
    {
      NumberOf(|m.vertices|, plan.drop, plan.vertexMap, plan.keptVertices, u);
      NumberOf(|m.vertices|, plan.drop, plan.vertexMap, plan.keptVertices, v);
    }
    forall w
      ensures w in CellVertices(c, s) <==> exists v :: v in counted && plan.vertexMap[v] == w
    {
      if w in CellVertices(c, s) {
        var v := VertexImage(c, m, tau, plan, s, w);
      }
    }
    ImageSize(counted, CellVertices(c, s), plan.vertexMap);
  }

  lemma {:induction false} LoopsCounted(c: CellData, m: Seamed, tau: real, plan: Plan, s: seq<nat>)
    requires tau > 0.0 && Good(c, m, tau, plan) && AllBelow(s, |m.faces|) && |c.faces| == |plan.runs| == |m.faces|
    ensures CellLoops(c, s) == RunsIn(plan, s)
  {
    hide Good, FaceUses, InRuns, Get;
    if s != [] {
      LoopsCounted(c, m, tau, plan, s[..|s| - 1]);
      FaceUsesRuns(c, m, tau, plan, s[|s| - 1], 0);
    }
  }

  lemma {:induction false} OnceListed(s: seq<nat>, j: nat, k: nat)
    requires 0 <= j < k < |s| && s[j] == s[k]
    ensures CountOf(s, s[j]) >= 2
  {
    var n := |s| - 1;
    if k < n {
      OnceListed(s[..n], j, k);
    } else {
      CountPositive(s[..n], s[j]);
      assert s[..n][j] == s[j];
    }
  }

  lemma {:induction false} OwnersCount(shells: seq<seq<nat>>, k: nat, f: nat)
    requires k < |shells|
    ensures |Owners(shells, f)| >= CountOf(shells[k], f)
  {
    var n := |shells| - 1;
    if k < n {
      OwnersCount(shells[..n], k, f);
    }
  }

  /** A valid model's shell lists no face twice. */
  lemma ShellDistinct(m: Seamed, k: nat)
    requires ValidSeamed(m) && k < |m.shells|
    ensures AllBelow(m.shells[k], |m.faces|) && Distinct(m.shells[k])
  {
    hide Owners, CountOf, GoodFace, VertexInUse, EdgeInUse;
    var s := m.shells[k];
    forall i, j | 0 <= i < j < |s|
      ensures s[i] != s[j]
    {
      if s[i] == s[j] {
        OnceListed(s, i, j);
        OwnersCount(m.shells, k, s[i]);
      }
    }
  }

  /** Seam removal preserves the Euler count of shell k exactly if each dropped vertex of it lies on one of its ring
      edges; where merged loops have one seam edge each, used nowhere else. Each does lie on a ring edge. */
  lemma EulerCountKept(c: CellData, m: Seamed, tau: real, plan: Plan, k: nat)
    requires tau > 0.0 && Good(c, m, tau, plan) && SimpleSeams(m, tau) && ClosedLoops(m) && k < |m.shells|
    ensures AllBelow(m.shells[k], |m.faces|) && AllBelow(m.shells[k], |c.faces|)
    ensures CellChi(c, m.shells[k]) == SeamedChi(m, m.shells[k]) <==> OneRingEach(m, plan, m.shells[k])
  {
    hide *;
    GoodPlan(c, m, tau, plan);
    GoodSizes(c, m, tau, plan);
    GoodRuns(c, m, tau, plan);
    PlanIsSimple(m, tau, plan);
    PlanKeepsEnds(m, tau, plan);
    ShellDistinct(m, k);
    var s := m.shells[k];
    GoodShellFrom(c, m, tau, plan, s);
    EdgesCounted(c, m, tau, plan, s);
    VerticesCounted(c, m, tau, plan, s);
    LoopsCounted(c, m, tau, plan, s);
    CountsBalance(m, plan, s);
    PlanDrops(m, tau, plan);
    RingVertices(m, plan, s);
    RunsCounted(m, plan, s);
    ChiAre(c, m, s);
  }

  /** Every vertex of a shell still ends a kept edge of it, and a dropped vertex a ring edge. */
  lemma KeptEdgeAt(m: Seamed, tau: real, plan: Plan, s: seq<nat>, v: nat) returns (e: nat)
    requires tau > 0.0 && SimpleSeams(m, tau) && ClosedLoops(m) && PlanOf(m, tau, plan) && ValidSeamed(m)
    requires AllBelow(s, |m.faces|) && EndsAny(m, s, v)
    ensures e in EdgesIn(m, s) && e !in plan.removed && Ends(m, e, v)
    ensures v in plan.drop ==> e in RingsIn(m, plan, s)
  {
    hide *;
    PlanKeepsEnds(m, tau, plan);
    PlanKeepsRuns(m, tau, plan);
    PlanDrops(m, tau, plan);
    e := KeptEdgeIn(m, plan, s, v);
    if v in plan.drop {
      e := RingAt(m, plan, s, v);
      RingIsKept(m, plan, s, e, v);
    }
  }

  lemma RingIsKept(m: Seamed, plan: Plan, s: seq<nat>, e: nat, v: nat)
    requires AllBelow(s, |m.faces|) && e in RingsIn(m, plan, s) && m.edges[e].start == v
    ensures e in EdgesIn(m, s) && e !in plan.removed && Ends(m, e, v)
  {
    hide UsedInAny, RingLike;
  }

  lemma PlanKeepsRuns(m: Seamed, tau: real, plan: Plan)
    requires tau > 0.0 && PlanOf(m, tau, plan)
    ensures RunsEverywhere(m, plan) && RemovedIs(plan.runs, plan.gone, plan.removed)
  {
    hide FaceSplit, FaceKeeps, WindingSum, RemovedIs, DropIs, Renumbered;
    forall f | 0 <= f < |m.faces|
      ensures FaceKeeps(m.faces[f], plan.runs[f], plan.gone[f])
    {
      PlanFaces(m, tau, plan, f);
    }
  }

  lemma PlanDrops(m: Seamed, tau: real, plan: Plan)
    requires tau > 0.0 && PlanOf(m, tau, plan)
    ensures DropIs(m.edges, plan.removed, plan.drop)
  {
    hide FacesSplit, RemovedIs, DropIs, Renumbered;
  }

  lemma GoodShellFrom(c: CellData, m: Seamed, tau: real, plan: Plan, s: seq<nat>)
    requires tau > 0.0 && Good(c, m, tau, plan) && SimplePlan(m, plan) && RunsEverywhere(m, plan) && EndsKept(m, plan)
    requires AllBelow(s, |m.faces|)
    ensures GoodShell(c, m, tau, plan, s)
  {
    hide Good, SimplePlan, RunsEverywhere, EndsKept;
  }

  lemma ChiAre(c: CellData, m: Seamed, s: seq<nat>)
    requires AllBelow(s, |m.faces|) && |c.faces| == |m.faces|
    ensures AllBelow(s, |c.faces|)
    ensures CellChi(c, s) == |CellVertices(c, s)| - |CellEdges(c, s)| + 2 * |s| - CellLoops(c, s)
    ensures SeamedChi(m, s) == |VerticesIn(m, s)| - |EdgesIn(m, s)| + 2 * |s| - LoopsIn(m, s)
  {
  }

  /** The same for the conversion itself. */
  lemma ConversionKeepsEulerCount(m: Seamed, tau: real, plan: Plan, k: nat)
    requires tau > 0.0 && PlanOf(m, tau, plan) && PlanFits(m, plan) && ValidSeamed(m) && SimpleSeams(m, tau)
    requires ClosedLoops(m) && (m.kind == Solid || m.kind == ClosedShell) && k < |m.shells|
    ensures AllBelow(m.shells[k], |m.faces|) && AllBelow(m.shells[k], |CellOf(m, plan).faces|)
    ensures CellChi(CellOf(m, plan), m.shells[k]) == SeamedChi(m, m.shells[k]) <==> OneRingEach(m, plan, m.shells[k])
  {
    CellIsConverted(m, plan);
    hide CellOf, CellChi, SeamedChi, OneRingEach, SimpleSeams, PlanOf, ValidSeamed, PlanFits, Converted, ClosedLoops;
    assert Good(CellOf(m, plan), m, tau, plan);
    EulerCountKept(CellOf(m, plan), m, tau, plan, k);
  }
}

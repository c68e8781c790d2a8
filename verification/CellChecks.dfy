/** The structural half of the cell validator: which issues a cell raises. */
module CellChecks {
  import opened Basics
  import opened SeamRuns
  import opened CellModel
  import opened RadialOrder

  /** An issue's kind and entity. `Reference` issues come first: when there is one, nothing else is looked at. */
  datatype Issue =
    | EdgeReference(edge: nat)
    | FinReference(fin: nat)
    | LoopReference(loop: nat)
    | FaceReference(face: nat)
    | ShellReference(shell: nat)
    | RegionReference(region: nat)
    | FinWithoutLoop(fin: nat)
    | FinReused(fin: nat)
    | LoopWithoutFace(loop: nat)
    | LoopReused(loop: nat)
    | EdgeFinsMismatch(edge: nat)
    | UnusedVertex(vertex: nat)
    | UnusedEdge(edge: nat)
    | RingEdgeWithVertex(edge: nat)
    | RingEdgeOpen(edge: nat)
    | EmptyShell(shell: nat)
    | FaceWithoutShell(face: nat)
    | FaceReused(face: nat)
    | SideInTwoShells(face: nat)
    | SideWithoutShell(face: nat)
    | SideRegionMismatch(face: nat)
    | EmptyFace(face: nat)
    | EmptyLoop(face: nat, position: nat)
    | WindingMismatch(face: nat, position: nat)
    | OpenLoop(face: nat, position: nat)
    | DoubleBounding(region: nat)
    | RegionWithoutShell(region: nat)
    | NoInfiniteRegion
    | RegionShellMismatch(shell: nat)
    | SeamEdge(edge: nat)
    | EdgeAccount(edge: nat, verdict: Verdict)

  // ------------------------------------------------------------------ references

  predicate Below(v: Option<nat>, n: nat) {
    v.None? || v.value < n
  }

  predicate AllBelow(s: seq<nat>, n: nat) {
    forall k :: 0 <= k < |s| ==> s[k] < n
  }

  predicate EdgeRefers(c: CellData, e: CEdge) {
    Below(e.start, |c.vertices|) && Below(e.end, |c.vertices|) && AllBelow(e.fins, |c.fins|)
  }

  predicate LoopRefers(c: CellData, l: Loop) {
    AllBelow(l.fins, |c.fins|) && Below(l.vertex, |c.vertices|)
  }

  predicate FaceRefers(c: CellData, f: CFace) {
    AllBelow(f.loops, |c.loops|) && f.front < |c.shells| && f.back < |c.shells|
  }

  predicate ShellRefers(c: CellData, s: Shell) {
    && s.region < |c.regions| && (forall k :: 0 <= k < |s.sides| ==> s.sides[k].0 < |c.faces|)
    && AllBelow(s.wireEdges, |c.edges|) && AllBelow(s.acorns, |c.vertices|)
  }

  predicate BadReference(c: CellData, x: Issue) {
    match x
    case EdgeReference(i) => i < |c.edges| && !EdgeRefers(c, c.edges[i])
    case FinReference(k) => k < |c.fins| && c.fins[k].edge >= |c.edges|
    case LoopReference(l) => l < |c.loops| && !LoopRefers(c, c.loops[l])
    case FaceReference(f) => f < |c.faces| && !FaceRefers(c, c.faces[f])
    case ShellReference(s) => s < |c.shells| && !ShellRefers(c, c.shells[s])
    case RegionReference(r) => r < |c.regions| && !AllBelow(c.regions[r].shells, |c.shells|)
    case _ => false
  }

  ghost predicate GoodReferences(c: CellData) {
    forall x :: !BadReference(c, x)
  }

  // ------------------------------------------------------------------ structure

  ghost predicate VertexUsed(c: CellData, v: nat) {
    || (exists i :: 0 <= i < |c.edges| && (c.edges[i].start == Some(v) || c.edges[i].end == Some(v)))
    || (exists l :: 0 <= l < |c.loops| && c.loops[l].vertex == Some(v))
    || exists s :: 0 <= s < |c.shells| && v in c.shells[s].acorns
  }

  ghost predicate WireEdge(c: CellData, i: nat) {
    exists s :: 0 <= s < |c.shells| && i in c.shells[s].wireEdges
  }

  predicate Bare(s: Shell) {
    s.sides == [] && s.wireEdges == [] && s.acorns == []
  }

  predicate Repeats(s: seq<nat>) {
    exists j, k :: 0 <= j < k < |s| && s[j] == s[k]
  }

  /** What is wrong with a face's two listings. */
  predicate SideIssue(c: CellData, x: Issue, f: nat)
    requires f < |c.faces|
  {
    var front, back := Listing(c.shells, (f, Front)), Listing(c.shells, (f, Back));
    if front == [] && back == [] then x == FaceWithoutShell(f)
    else if |front| > 1 || |back| > 1 then
      if Repeats(front) || Repeats(back) then x == FaceReused(f) else x == SideInTwoShells(f)
    else if front == [] || back == [] then x == SideWithoutShell(f)
    else x == SideRegionMismatch(f) && (front[0] != c.faces[f].front || back[0] != c.faces[f].back)
  }

  /** The face's windings in one direction, vertex loops left out. */
  function Wound(c: CellData, loops: seq<nat>, v: bool): int
    requires AllBelow(loops, |c.loops|)
  {
    if loops == [] then 0
    else
      var k := |loops| - 1;
      var l := c.loops[loops[k]];
      Wound(c, loops[..k], v) + if l.vertex != None then 0 else if v then l.windingV else l.winding
  }

  /** A cone's or sphere's pole closes a band that winds once. */
  predicate Pole(c: CellData, f: CFace)
    requires AllBelow(f.loops, |c.loops|)
  {
    var turns := Wound(c, f.loops, false);
    && (f.surface.kind == Cone || f.surface.kind == Sphere) && (turns == 1 || turns == -1)
    && exists k :: 0 <= k < |f.loops| && c.loops[f.loops[k]].vertex != None
  }

  predicate Unbalanced(c: CellData, f: CFace)
    requires AllBelow(f.loops, |c.loops|)
  {
    PeriodicU(f.surface) && ((Wound(c, f.loops, false) != 0 && !Pole(c, f)) || Wound(c, f.loops, true) != 0)
  }

  predicate WindsWrongly(f: CFace, l: Loop) {
    && l.vertex == None && l.fins != []
    && ((!PeriodicU(f.surface) && l.winding != 0) || (!PeriodicV(f.surface) && l.windingV != 0))
  }

  /** A fin's vertices from its start to its end. */
  function FinEnds(c: CellData, k: nat): (Option<nat>, Option<nat>) {
    if k >= |c.fins| || c.fins[k].edge >= |c.edges| then (None, None)
    else
      var e := c.edges[c.fins[k].edge];
      if c.fins[k].forward then (e.start, e.end) else (e.end, e.start)
  }

  /** The fin has no vertex at an end, or the next fin round does not start where it ends. */
  predicate Breaks(c: CellData, fins: seq<nat>, k: nat)
    requires k < |fins|
  {
    var here, next := FinEnds(c, fins[k]), FinEnds(c, fins[Next(|fins|, k)]);
    here.0 == None || here.1 == None || here.1 != next.0
  }

  /** The loop does not close, and is not one ring. */
  predicate IsOpen(c: CellData, l: Loop) {
    && l.vertex == None && l.fins != []
    && !(|l.fins| == 1 && FinEnds(c, l.fins[0]) == (None, None))
    && exists k :: 0 <= k < |l.fins| && Breaks(c, l.fins, k)
  }

  predicate LoopIssue(c: CellData, x: Issue, f: nat)
    requires f < |c.faces| && AllBelow(c.faces[f].loops, |c.loops|)
  {
    match x
    case EmptyFace(g) => f == g && c.faces[f].loops == [] && c.faces[f].surface.kind != Sphere &&
      c.faces[f].surface.kind != Torus
    case EmptyLoop(g, j) =>
      f == g && j < |c.faces[f].loops| && c.loops[c.faces[f].loops[j]].vertex == None &&
        c.loops[c.faces[f].loops[j]].fins == []
    case WindingMismatch(g, j) =>
      && f == g
      && ((j < |c.faces[f].loops| && WindsWrongly(c.faces[f], c.loops[c.faces[f].loops[j]])) ||
          (j == 0 && Unbalanced(c, c.faces[f])))
    case OpenLoop(g, j) => f == g && j < |c.faces[f].loops| && IsOpen(c, c.loops[c.faces[f].loops[j]])
    case _ => false
  }

  // around edges

  /** Some loop of the face lists the fin. */
  predicate FaceHas(c: CellData, face: CFace, k: nat) {
    exists j :: 0 <= j < |face.loops| && face.loops[j] < |c.loops| && k in c.loops[face.loops[j]].fins
  }

  /** The first face from f on that has the fin. */
  function FaceFrom(c: CellData, k: nat, f: nat): Option<nat>
    decreases |c.faces| - f
  {
    if f >= |c.faces| then None else if FaceHas(c, c.faces[f], k) then Some(f) else FaceFrom(c, k, f + 1)
  }

  /** `fin_face` */
  function FinFace(c: CellData, k: nat): Option<nat> {
    FaceFrom(c, k, 0)
  }

  /** The faces of the edge's users. */
  function FacesOn(c: CellData, i: nat): (r: seq<Option<nat>>)
    ensures |r| == |FinsOn(c.fins, i)|
  {
    var on := FinsOn(c.fins, i);
    seq(|on|, j requires 0 <= j < |on| => FinFace(c, on[j]))
  }

  predicate Twice(s: seq<Option<nat>>) {
    exists j, k :: 0 <= j < k < |s| && s[j] == s[k]
  }

  /** `side_bad`: a face's sides are not listed once each, by its own shells. */
  predicate SideBad(c: CellData, f: nat)
    requires f < |c.faces|
  {
    !(Listing(c.shells, (f, Front)) == [c.faces[f].front] && Listing(c.shells, (f, Back)) == [c.faces[f].back])
  }

  lemma SideBadIff(c: CellData, f: nat)
    requires f < |c.faces|
    ensures SideBad(c, f) <==> exists x :: SideIssue(c, x, f)
  {
    hide Listing, Repeats;
    if SideBad(c, f) {
      assert SideIssue(c, FaceWithoutShell(f), f) || SideIssue(c, FaceReused(f), f) ||
        SideIssue(c, SideInTwoShells(f), f) ||
             SideIssue(c, SideWithoutShell(f), f) || SideIssue(c, SideRegionMismatch(f), f);
    }
  }

  predicate Usable(c: CellData, k: nat) {
    var f := FinFace(c, k);
    k < |c.fins| && f.Some? && f.value < |c.faces| && !SideBad(c, f.value)
  }

  function UsableOf(c: CellData, fins: seq<nat>): seq<nat> {
    if fins == [] then []
    else UsableOf(c, fins[..|fins| - 1]) + if Usable(c, fins[|fins| - 1]) then [fins[|fins| - 1]] else []
  }

  /** The usable fins of an edge, with their senses and their faces' shells. */
  function RadialOf(c: CellData, fins: seq<nat>): (r: seq<RadialFin>)
    ensures |r| == |fins|
  {
    seq(|fins|, j requires 0 <= j < |fins| => RadialAt(c, fins[j]))
  }

  function RadialAt(c: CellData, k: nat): RadialFin {
    var f := FinFace(c, k);
    if k < |c.fins| && f.Some? && f.value < |c.faces| then
      RadialFin(c.fins[k].forward, c.faces[f.value].front, c.faces[f.value].back)
    else RadialFin(true, 0, 0)
  }

  predicate AroundIssue(c: CellData, x: Issue) {
    match x
    case SeamEdge(i) => i < |c.edges| && Twice(FacesOn(c, i))
    case EdgeAccount(i, v) =>
      && i < |c.edges| && v != Fine && UsableOf(c, c.edges[i].fins) != []
      && multiset(c.edges[i].fins) == multiset(FinsOn(c.fins, i))
      && v == VerdictOf(RadialOf(c, UsableOf(c, c.edges[i].fins)))
    case _ => false
  }

  ghost predicate EdgeIssue(c: CellData, x: Issue) {
    match x
    case EdgeFinsMismatch(i) => i < |c.edges| && multiset(c.edges[i].fins) != multiset(FinsOn(c.fins, i))
    case UnusedVertex(v) => v < |c.vertices| && !VertexUsed(c, v)
    case UnusedEdge(i) => i < |c.edges| && FinsOn(c.fins, i) == [] && !WireEdge(c, i)
    case RingEdgeWithVertex(i) => i < |c.edges| && c.edges[i].start.None? != c.edges[i].end.None?
    case RingEdgeOpen(i) => i < |c.edges| && c.edges[i].start.None? && c.edges[i].end.None? && !c.edges[i].curve.closed
    case _ => false
  }

  predicate OwnerIssue(c: CellData, x: Issue) {
    match x
    case FinWithoutLoop(k) => k < |c.fins| && FinCount(c.loops, k) == 0
    case FinReused(k) => k < |c.fins| && FinCount(c.loops, k) > 1
    case LoopWithoutFace(l) => l < |c.loops| && LoopCount(c.faces, l) == 0
    case LoopReused(l) => l < |c.loops| && LoopCount(c.faces, l) > 1
    case _ => false
  }

  predicate ShellIssue(c: CellData, x: Issue)
    requires forall s :: 0 <= s < |c.shells| ==> c.shells[s].region < |c.regions|
  {
    match x
    case EmptyShell(s) => s < |c.shells| && Bare(c.shells[s])
    case DoubleBounding(r) => r < |c.regions| && Repeats(c.regions[r].shells)
    case RegionWithoutShell(r) => 0 < r < |c.regions| && c.regions[r].shells == []
    case NoInfiniteRegion => c.regions == [] || c.regions[0].kind != Void
    case RegionShellMismatch(s) => s < |c.shells| && s !in c.regions[c.shells[s].region].shells
    case _ => false
  }

  lemma ReferencesGiveShells(c: CellData)
    requires GoodReferences(c)
    ensures forall s :: 0 <= s < |c.shells| ==> c.shells[s].region < |c.regions|
    ensures forall f :: 0 <= f < |c.faces| ==> AllBelow(c.faces[f].loops, |c.loops|)
  {
    forall s | 0 <= s < |c.shells|
      ensures c.shells[s].region < |c.regions|
    {
      assert !BadReference(c, ShellReference(s));
    }
    forall f | 0 <= f < |c.faces|
      ensures AllBelow(c.faces[f].loops, |c.loops|)
    {
      assert !BadReference(c, FaceReference(f));
    }
  }

  /** The issues of the references, or of the structure if the references are good. */
  ghost predicate Raises(c: CellData, x: Issue) {
    if GoodReferences(c) then
      ReferencesGiveShells(c);
      || OwnerIssue(c, x) || EdgeIssue(c, x) || ShellIssue(c, x) || AroundIssue(c, x)
      || exists f :: 0 <= f < |c.faces| && (SideIssue(c, x, f) || LoopIssue(c, x, f))
    else BadReference(c, x)
  }
}

/** The structural half of the cell validator, loop by loop: it reports exactly the issues a cell raises. */
module CellValidator {
  import opened Basics
  import opened SeamRuns
  import opened CellModel
  import opened CellChecks
  import opened RadialOrder

  // ------------------------------------------------------------------ references

  method EdgeReferences(c: CellData) returns (issues: set<Issue>)
    ensures forall x :: x in issues <==> x.EdgeReference? && BadReference(c, x)
  {
    hide EdgeRefers;
    issues := {};
    for i := 0 to |c.edges|
      invariant forall x :: x in issues <==> x.EdgeReference? && x.edge < i && !EdgeRefers(c, c.edges[x.edge])
    {
      if !EdgeRefers(c, c.edges[i]) {
        issues := issues + {EdgeReference(i)};
      }
    }
  }

  method FinReferences(c: CellData) returns (issues: set<Issue>)
    ensures forall x :: x in issues <==> x.FinReference? && BadReference(c, x)
  {
    issues := {};
    for k := 0 to |c.fins|
      invariant forall x :: x in issues <==> x.FinReference? && x.fin < k && c.fins[x.fin].edge >= |c.edges|
    {
      if c.fins[k].edge >= |c.edges| {
        issues := issues + {FinReference(k)};
      }
    }
  }

  method LoopReferences(c: CellData) returns (issues: set<Issue>)
    ensures forall x :: x in issues <==> x.LoopReference? && BadReference(c, x)
  {
    hide LoopRefers;
    issues := {};
    for l := 0 to |c.loops|
      invariant forall x :: x in issues <==> x.LoopReference? && x.loop < l && !LoopRefers(c, c.loops[x.loop])
    {
      if !LoopRefers(c, c.loops[l]) {
        issues := issues + {LoopReference(l)};
      }
    }
  }

  method FaceReferences(c: CellData) returns (issues: set<Issue>)
    ensures forall x :: x in issues <==> x.FaceReference? && BadReference(c, x)
  {
    hide FaceRefers;
    issues := {};
    for f := 0 to |c.faces|
      invariant forall x :: x in issues <==> x.FaceReference? && x.face < f && !FaceRefers(c, c.faces[x.face])
    {
      if !FaceRefers(c, c.faces[f]) {
        issues := issues + {FaceReference(f)};
      }
    }
  }

  method ShellReferences(c: CellData) returns (issues: set<Issue>)
    ensures forall x :: x in issues <==> x.ShellReference? && BadReference(c, x)
  {
    hide ShellRefers;
    issues := {};
    for s := 0 to |c.shells|
      invariant forall x :: x in issues <==> x.ShellReference? && x.shell < s && !ShellRefers(c, c.shells[x.shell])
    {
      if !ShellRefers(c, c.shells[s]) {
        issues := issues + {ShellReference(s)};
      }
    }
  }

  method RegionReferences(c: CellData) returns (issues: set<Issue>)
    ensures forall x :: x in issues <==> x.RegionReference? && BadReference(c, x)
  {
    hide AllBelow;
    issues := {};
    for r := 0 to |c.regions|
      invariant forall x :: x in issues <==>
        x.RegionReference? && x.region < r && !AllBelow(c.regions[x.region].shells, |c.shells|)
    {
      if !AllBelow(c.regions[r].shells, |c.shells|) {
        issues := issues + {RegionReference(r)};
      }
    }
  }

  lemma ReferenceKinds(c: CellData, x: Issue)
    ensures BadReference(c, x) ==>
      || x.EdgeReference? || x.FinReference? || x.LoopReference?
      || x.FaceReference? || x.ShellReference? || x.RegionReference?
  {
    hide EdgeRefers, LoopRefers, FaceRefers, ShellRefers, AllBelow;
  }

  method References(c: CellData) returns (issues: set<Issue>)
    ensures forall x :: x in issues <==> BadReference(c, x)
  {
    hide BadReference;
    var edges := EdgeReferences(c);
    var fins := FinReferences(c);
    var loops := LoopReferences(c);
    var faces := FaceReferences(c);
    var shells := ShellReferences(c);
    var regions := RegionReferences(c);
    issues := edges + fins + loops + faces + shells + regions;
    forall x
      ensures x in issues <==> BadReference(c, x)
    {
      ReferenceKinds(c, x);
    }
  }

  // ------------------------------------------------------------------ owners

  /** `fin_count` */
  method CountFins(loops: seq<Loop>) returns (count: map<nat, nat>)
    ensures forall k: nat :: FinCount(loops, k) == if k in count then count[k] else 0
  {
    count := map[];
    for l := 0 to |loops|
      invariant forall k: nat :: FinCount(loops[..l], k) == if k in count then count[k] else 0
    {
      assert loops[..l + 1][..l] == loops[..l];
      ghost var was := count;
      var fins := loops[l].fins;
      for j := 0 to |fins|
        invariant forall k: nat ::
          (if k in count then count[k] else 0) == (if k in was then was[k] else 0) + CountOf(fins[..j], k)
      {
        assert fins[..j + 1][..j] == fins[..j];
        var k := fins[j];
        count := count[k := (if k in count then count[k] else 0) + 1];
      }
      assert fins[..|fins|] == fins;
    }
    assert loops[..|loops|] == loops;
  }

  /** `loop_count` */
  method CountLoops(faces: seq<CFace>) returns (count: map<nat, nat>)
    ensures forall l: nat :: LoopCount(faces, l) == if l in count then count[l] else 0
  {
    count := map[];
    for f := 0 to |faces|
      invariant forall l: nat :: LoopCount(faces[..f], l) == if l in count then count[l] else 0
    {
      assert faces[..f + 1][..f] == faces[..f];
      ghost var was := count;
      var loops := faces[f].loops;
      for j := 0 to |loops|
        invariant forall l: nat ::
          (if l in count then count[l] else 0) == (if l in was then was[l] else 0) + CountOf(loops[..j], l)
      {
        assert loops[..j + 1][..j] == loops[..j];
        var l := loops[j];
        count := count[l := (if l in count then count[l] else 0) + 1];
      }
      assert loops[..|loops|] == loops;
    }
    assert faces[..|faces|] == faces;
  }

  method OwnerIssues(c: CellData) returns (issues: set<Issue>)
    ensures forall x :: x in issues <==> OwnerIssue(c, x)
  {
    hide FinCount, LoopCount;
    issues := {};
    var fins := CountFins(c.loops);
    for k := 0 to |c.fins|
      invariant forall x :: x in issues <==> OwnerIssue(c, x) && (x.FinWithoutLoop? || x.FinReused?) && x.fin < k
    {
      var n := if k in fins then fins[k] else 0;
      if n == 0 {
        issues := issues + {FinWithoutLoop(k)};
      } else if n > 1 {
        issues := issues + {FinReused(k)};
      }
    }
    var loops := CountLoops(c.faces);
    for l := 0 to |c.loops|
      invariant forall x :: x in issues <==>
        OwnerIssue(c, x) && (x.FinWithoutLoop? || x.FinReused? || ((x.LoopWithoutFace? || x.LoopReused?) && x.loop < l))
    {
      var n := if l in loops then loops[l] else 0;
      if n == 0 {
        issues := issues + {LoopWithoutFace(l)};
      } else if n > 1 {
        issues := issues + {LoopReused(l)};
      }
    }
  }

  // ------------------------------------------------------------------ edges and vertices

  /** `users` */
  method Users(fins: seq<Fin>) returns (users: map<nat, seq<nat>>)
    ensures forall i: nat :: FinsOn(fins, i) == if i in users then users[i] else []
  {
    users := map[];
    for k := 0 to |fins|
      invariant forall i: nat :: FinsOn(fins[..k], i) == if i in users then users[i] else []
    {
      assert fins[..k + 1][..k] == fins[..k];
      var e := fins[k].edge;
      users := users[e := (if e in users then users[e] else []) + [k]];
    }
    assert fins[..|fins|] == fins;
  }

  function Ends(v: Option<nat>): set<nat> {
    if v.Some? then {v.value} else {}
  }

  method UsedVertices(c: CellData) returns (used: set<nat>)
    ensures forall v :: v in used <==> VertexUsed(c, v)
  {
    var ends, poles, acorns: set<nat> := {}, {}, {};
    for i := 0 to |c.edges|
      invariant forall v :: v in ends <==>
        exists k :: 0 <= k < i && (c.edges[k].start == Some(v) || c.edges[k].end == Some(v))
    {
      ends := ends + Ends(c.edges[i].start) + Ends(c.edges[i].end);
    }
    for l := 0 to |c.loops|
      invariant forall v :: v in poles <==> exists k :: 0 <= k < l && c.loops[k].vertex == Some(v)
    {
      poles := poles + Ends(c.loops[l].vertex);
    }
    for s := 0 to |c.shells|
      invariant forall v :: v in acorns <==> exists k :: 0 <= k < s && v in c.shells[k].acorns
    {
      acorns := acorns + set v | v in c.shells[s].acorns;
    }
    used := ends + poles + acorns;
  }

  method WireEdges(c: CellData) returns (wire: set<nat>)
    ensures forall i :: i in wire <==> WireEdge(c, i)
  {
    wire := {};
    for s := 0 to |c.shells|
      invariant forall i :: i in wire <==> exists k :: 0 <= k < s && i in c.shells[k].wireEdges
    {
      wire := wire + set i | i in c.shells[s].wireEdges;
    }
  }

  method VertexIssues(c: CellData) returns (issues: set<Issue>)
    ensures forall x :: x in issues <==> x.UnusedVertex? && EdgeIssue(c, x)
  {
    hide VertexUsed;
    issues := {};
    var used := UsedVertices(c);
    for v := 0 to |c.vertices|
      invariant forall x :: x in issues <==> x.UnusedVertex? && x.vertex < v && !VertexUsed(c, x.vertex)
    {
      if v !in used {
        issues := issues + {UnusedVertex(v)};
      }
    }
  }

  method EdgeIssuesAt(c: CellData, i: nat, users: seq<nat>, wired: bool) returns (issues: set<Issue>)
    requires i < |c.edges| && users == FinsOn(c.fins, i) && (wired <==> WireEdge(c, i))
    ensures forall x :: x in issues <==> EdgeIssue(c, x) && !x.UnusedVertex? && x.edge == i
  {
    hide VertexUsed, WireEdge, FinsOn;
    issues := {};
    var e := c.edges[i];
    if multiset(e.fins) != multiset(users) {
      issues := issues + {EdgeFinsMismatch(i)};
    }
    if users == [] && !wired {
      issues := issues + {UnusedEdge(i)};
    }
    if e.start.None? != e.end.None? {
      issues := issues + {RingEdgeWithVertex(i)};
    } else if e.start.None? && !e.curve.closed {
      issues := issues + {RingEdgeOpen(i)};
    }
  }

  method EdgeIssues(c: CellData) returns (issues: set<Issue>)
    ensures forall x :: x in issues <==> EdgeIssue(c, x)
  {
    var users := Users(c.fins);
    var wire := WireEdges(c);
    issues := VertexIssues(c);
    for i := 0 to |c.edges|
      invariant forall x :: x in issues <==> EdgeIssue(c, x) && (x.UnusedVertex? || x.edge < i)
    {
      var more := EdgeIssuesAt(c, i, if i in users then users[i] else [], i in wire);
      issues := issues + more;
    }
    EdgeIssueBounds(c);
  }

  lemma EdgeIssueBounds(c: CellData)
    ensures forall x :: EdgeIssue(c, x) && !x.UnusedVertex? ==>
      (x.EdgeFinsMismatch? || x.UnusedEdge? || x.RingEdgeWithVertex? || x.RingEdgeOpen?) && x.edge < |c.edges|
  {
  }

  // ------------------------------------------------------------------ sides

  function Found(listings: map<(nat, Side), seq<nat>>, side: (nat, Side)): seq<nat> {
    if side in listings then listings[side] else []
  }

  ghost predicate ListsSides(listings: map<(nat, Side), seq<nat>>, shells: seq<Shell>) {
    forall side :: Found(listings, side) == Listing(shells, side)
  }

  ghost predicate ListsMore(more: map<(nat, Side), seq<nat>>, was: map<(nat, Side), seq<nat>>, sides: seq<(nat, Side)>,
                            s: nat) {
    forall side :: Found(more, side) == Found(was, side) + Copies(CountSides(sides, side), s)
  }

  lemma CountSidesStep(sides: seq<(nat, Side)>, x: (nat, Side), side: (nat, Side), s: nat)
    ensures Copies(CountSides(sides + [x], side), s)
         == Copies(CountSides(sides, side), s) + if side == x then [s] else []
  {
    assert (sides + [x])[..|sides|] == sides;
  }

  lemma ListsStepAt(p: seq<nat>, q: seq<nat>, before: seq<nat>, after: seq<nat>, s: nat, same: bool)
    requires p == before + q
    requires after == q + if same then [s] else []
    ensures (if same then p + [s] else p) == before + after
  {
  }

  lemma ListsStep(more: map<(nat, Side), seq<nat>>, was: map<(nat, Side), seq<nat>>, sides: seq<(nat, Side)>, s: nat,
                  x: (nat, Side))
    requires ListsMore(more, was, sides, s)
    ensures ListsMore(more[x := Found(more, x) + [s]], was, sides + [x], s)
  {
    hide CountSides, Copies;
    var next := more[x := Found(more, x) + [s]];
    forall side
      ensures Found(next, side) == Found(was, side) + Copies(CountSides(sides + [x], side), s)
    {
      CountSidesStep(sides, x, side, s);
      ListsStepAt(Found(more, side), Copies(CountSides(sides, side), s), Found(was, side),
                  Copies(CountSides(sides + [x], side), s), s, side == x);
    }
  }

  lemma ListsStart(was: map<(nat, Side), seq<nat>>, s: nat)
    ensures ListsMore(was, was, [], s)
  {
  }

  lemma ListsShell(more: map<(nat, Side), seq<nat>>, was: map<(nat, Side), seq<nat>>, shells: seq<Shell>, s: nat)
    requires s < |shells| && ListsSides(was, shells[..s]) && ListsMore(more, was, shells[s].sides, s)
    ensures ListsSides(more, shells[..s + 1])
  {
    assert shells[..s + 1][..s] == shells[..s];
    hide CountSides, Found;
  }

  lemma ListsNothing()
    ensures ListsSides(map[], [])
  {
  }

  /** `listings` */
  method Listings(shells: seq<Shell>) returns (listings: map<(nat, Side), seq<nat>>)
    ensures ListsSides(listings, shells)
  {
    hide ListsSides, ListsMore;
    listings := map[];
    assert shells[..0] == [];
    ListsNothing();
    for s := 0 to |shells|
      invariant ListsSides(listings, shells[..s])
    {
      ghost var was := listings;
      var sides := shells[s].sides;
      assert sides[..0] == [];
      ListsStart(was, s);
      for j := 0 to |sides|
        invariant ListsMore(listings, was, sides[..j], s)
      {
        ListsStep(listings, was, sides[..j], s, sides[j]);
        assert sides[..j + 1] == sides[..j] + [sides[j]];
        var x := sides[j];
        listings := listings[x := Found(listings, x) + [s]];
      }
      assert sides[..|sides|] == sides;
      ListsShell(listings, was, shells, s);
    }
    assert shells[..|shells|] == shells;
  }

  method SideIssueAt(c: CellData, f: nat, front: seq<nat>, back: seq<nat>) returns (issues: set<Issue>)
    requires f < |c.faces| && front == Listing(c.shells, (f, Front)) && back == Listing(c.shells, (f, Back))
    ensures forall x :: x in issues <==> SideIssue(c, x, f)
  {
    hide Listing, Repeats;
    if front == [] && back == [] {
      return {FaceWithoutShell(f)};
    } else if |front| > 1 || |back| > 1 {
      var same := Repeats(front) || Repeats(back);
      return if same then {FaceReused(f)} else {SideInTwoShells(f)};
    } else if front == [] || back == [] {
      return {SideWithoutShell(f)};
    } else if front[0] != c.faces[f].front || back[0] != c.faces[f].back {
      return {SideRegionMismatch(f)};
    } else {
      return {};
    }
  }

  // ------------------------------------------------------------------ loops and windings

  /** One direction's windings of a face, summed, vertex loops left out. */
  method SumWindings(c: CellData, loops: seq<nat>, v: bool) returns (total: int)
    requires AllBelow(loops, |c.loops|)
    ensures total == Wound(c, loops, v)
  {
    total := 0;
    for k := 0 to |loops|
      invariant total == Wound(c, loops[..k], v)
    {
      assert loops[..k + 1][..k] == loops[..k];
      var l := c.loops[loops[k]];
      if l.vertex == None {
        total := total + if v then l.windingV else l.winding;
      }
    }
    assert loops[..|loops|] == loops;
  }

  method FindPole(c: CellData, f: CFace, turns: int) returns (pole: bool)
    requires AllBelow(f.loops, |c.loops|) && turns == Wound(c, f.loops, false)
    ensures pole <==> Pole(c, f)
  {
    hide Wound;
    if (f.surface.kind != Cone && f.surface.kind != Sphere) || (turns != 1 && turns != -1) {
      return false;
    }
    for k := 0 to |f.loops|
      invariant forall j :: 0 <= j < k ==> c.loops[f.loops[j]].vertex == None
    {
      if c.loops[f.loops[k]].vertex != None {
        return true;
      }
    }
    return false;
  }

  /** Whether a loop does not close. */
  method CheckOpen(c: CellData, l: Loop) returns (open: bool)
    ensures open <==> IsOpen(c, l)
  {
    hide Breaks, FinEnds;
    if l.vertex != None || l.fins == [] {
      return false;
    }
    if |l.fins| == 1 && FinEnds(c, l.fins[0]) == (None, None) {
      return false;
    }
    for k := 0 to |l.fins|
      invariant forall j :: 0 <= j < k ==> !Breaks(c, l.fins, j)
    {
      if Breaks(c, l.fins, k) {
        return true;
      }
    }
    return false;
  }

  method FaceLoopIssues(c: CellData, f: nat) returns (issues: set<Issue>)
    requires f < |c.faces| && AllBelow(c.faces[f].loops, |c.loops|)
    ensures forall x :: x in issues <==> LoopIssue(c, x, f)
  {
    hide Wound, Pole, WindsWrongly, Unbalanced, IsOpen;
    var face := c.faces[f];
    issues := {};
    if face.loops == [] && face.surface.kind != Sphere && face.surface.kind != Torus {
      issues := {EmptyFace(f)};
    }
    for j := 0 to |face.loops|
      invariant forall x :: x in issues <==>
        (x.EmptyFace? && LoopIssue(c, x, f)) ||
        (x.EmptyLoop? && LoopIssue(c, x, f) && x.position < j) ||
        (x.WindingMismatch? && x.face == f && x.position < j && WindsWrongly(face, c.loops[face.loops[x.position]])) ||
        (x.OpenLoop? && LoopIssue(c, x, f) && x.position < j)
    {
      var l := c.loops[face.loops[j]];
      if l.vertex == None && l.fins == [] {
        issues := issues + {EmptyLoop(f, j)};
      }
      if WindsWrongly(face, l) {
        issues := issues + {WindingMismatch(f, j)};
      }
      var open := CheckOpen(c, l);
      if open {
        issues := issues + {OpenLoop(f, j)};
      }
    }
    var bad := Balance(c, face);
    if bad {
      issues := issues + {WindingMismatch(f, 0)};
    }
  }

  /** Whether the face's windings fail to balance. */
  method Balance(c: CellData, face: CFace) returns (bad: bool)
    requires AllBelow(face.loops, |c.loops|)
    ensures bad <==> Unbalanced(c, face)
  {
    hide Pole;
    if !PeriodicU(face.surface) {
      return false;
    }
    var total := SumWindings(c, face.loops, false);
    var totalV := SumWindings(c, face.loops, true);
    var pole := FindPole(c, face, total);
    return (total != 0 && !pole) || totalV != 0;
  }

  // ------------------------------------------------------------------ shells and regions

  method ShellIssues(c: CellData) returns (issues: set<Issue>)
    requires forall s :: 0 <= s < |c.shells| ==> c.shells[s].region < |c.regions|
    ensures forall x :: x in issues <==> ShellIssue(c, x)
  {
    hide Bare, Repeats;
    issues := {};
    for s := 0 to |c.shells|
      invariant forall x :: x in issues <==>
        ShellIssue(c, x) && (x.EmptyShell? || x.RegionShellMismatch?) && x.shell < s
    {
      if Bare(c.shells[s]) {
        issues := issues + {EmptyShell(s)};
      }
      if s !in c.regions[c.shells[s].region].shells {
        issues := issues + {RegionShellMismatch(s)};
      }
    }
    ghost var was := issues;
    for r := 0 to |c.regions|
      invariant forall x :: x in issues <==>
        x in was || (ShellIssue(c, x) && (x.DoubleBounding? || x.RegionWithoutShell?) && x.region < r)
    {
      if Repeats(c.regions[r].shells) {
        issues := issues + {DoubleBounding(r)};
      }
      if r > 0 && c.regions[r].shells == [] {
        issues := issues + {RegionWithoutShell(r)};
      }
    }
    if c.regions == [] || c.regions[0].kind != Void {
      issues := issues + {NoInfiniteRegion};
    }
  }

  // ------------------------------------------------------------------ faces

  ghost predicate BadSides(c: CellData, sideBad: set<nat>, n: nat)
    requires n <= |c.faces|
  {
    forall f: nat :: f in sideBad <==> f < n && SideBad(c, f)
  }

  /** The issues of the faces, and `side_bad`. */
  method FaceIssues(c: CellData) returns (issues: set<Issue>, sideBad: set<nat>)
    requires forall f :: 0 <= f < |c.faces| ==> AllBelow(c.faces[f].loops, |c.loops|)
    ensures forall x :: x in issues <==> exists f :: 0 <= f < |c.faces| && (SideIssue(c, x, f) || LoopIssue(c, x, f))
    ensures BadSides(c, sideBad, |c.faces|)
  {
    hide SideIssue, LoopIssue, AllBelow, Listing, SideBad;
    var listings := Listings(c.shells);
    issues, sideBad := {}, {};
    for f := 0 to |c.faces|
      invariant forall x :: x in issues <==> exists g :: 0 <= g < f && (SideIssue(c, x, g) || LoopIssue(c, x, g))
      invariant BadSides(c, sideBad, f)
    {
      var sides := SideIssueAt(c, f, Found(listings, (f, Front)), Found(listings, (f, Back)));
      var loops := FaceLoopIssues(c, f);
      SideBadIff(c, f);
      issues := issues + sides + loops;
      if sides != {} {
        sideBad := sideBad + {f};
      }
    }
  }

  // ------------------------------------------------------------------ around edges

  ghost predicate Locates(c: CellData, faces: map<nat, nat>) {
    forall k: nat :: FinFace(c, k) == if k in faces then Some(faces[k]) else None
  }

  /** The fins of the faces before f, each with its first face. */
  ghost predicate Located(c: CellData, faces: map<nat, nat>, f: nat) {
    forall k: nat :: if k in faces then faces[k] < f && FirstHas(c, k, faces[k])
      else forall g :: 0 <= g < f && g < |c.faces| ==> !FaceHas(c, c.faces[g], k)
  }

  ghost predicate FirstHas(c: CellData, k: nat, f: nat) {
    f < |c.faces| && FaceHas(c, c.faces[f], k) && forall g :: 0 <= g < f ==> !FaceHas(c, c.faces[g], k)
  }

  lemma {:induction false} FaceFromIs(c: CellData, k: nat, f: nat)
    ensures var r := FaceFrom(c, k, f);
      if r.Some? then f <= r.value < |c.faces| && FaceHas(c, c.faces[r.value], k) &&
        forall g :: f <= g < r.value ==> !FaceHas(c, c.faces[g], k)
      else forall g :: f <= g < |c.faces| ==> !FaceHas(c, c.faces[g], k)
    decreases |c.faces| - f
  {
    hide FaceHas;
    if f < |c.faces| && !FaceHas(c, c.faces[f], k) {
      FaceFromIs(c, k, f + 1);
    }
  }

  lemma LocatedAll(c: CellData, faces: map<nat, nat>)
    requires Located(c, faces, |c.faces|)
    ensures Locates(c, faces)
  {
    hide FaceHas;
    forall k: nat
      ensures FinFace(c, k) == if k in faces then Some(faces[k]) else None
    {
      FaceFromIs(c, k, 0);
    }
  }

  /** `fin_face`: the first face of each fin. */
  method Locate(c: CellData) returns (faces: map<nat, nat>)
    ensures Locates(c, faces)
  {
    hide FaceHas, FirstHas;
    faces := map[];
    for f := 0 to |c.faces|
      invariant Located(c, faces, f)
    {
      var all := FaceFins(c, c.faces[f]);
      ghost var was := faces;
      faces := faces + map k | k in all && k !in faces :: f;
      LocatedMore(c, was, f, all, faces);
    }
    LocatedAll(c, faces);
  }

  lemma LocatedMore(c: CellData, was: map<nat, nat>, f: nat, all: set<nat>, faces: map<nat, nat>)
    requires f < |c.faces| && Located(c, was, f) && forall k :: k in all <==> FaceHas(c, c.faces[f], k)
    requires forall k :: k in faces <==> k in was || k in all
    requires forall k :: k in faces ==> faces[k] == if k in was then was[k] else f
    ensures Located(c, faces, f + 1)
  {
    hide FaceHas;
  }

  /** The fins of a face's loops. */
  method FaceFins(c: CellData, face: CFace) returns (all: set<nat>)
    ensures forall k :: k in all <==> FaceHas(c, face, k)
  {
    all := {};
    for j := 0 to |face.loops|
      invariant forall k :: k in all <==>
        exists i :: 0 <= i < j && face.loops[i] < |c.loops| && k in c.loops[face.loops[i]].fins
    {
      if face.loops[j] < |c.loops| {
        all := all + set k | k in c.loops[face.loops[j]].fins;
      }
    }
  }

  /** Whether two users of an edge are in one face. */
  method CheckSeam(c: CellData, i: nat, users: seq<nat>, faces: map<nat, nat>) returns (twice: bool)
    requires users == FinsOn(c.fins, i) && Locates(c, faces)
    ensures twice <==> Twice(FacesOn(c, i))
  {
    hide FinFace, FinsOn;
    var all: seq<Option<nat>> := [];
    for j := 0 to |users|
      invariant |all| == j && forall k :: 0 <= k < j ==> all[k] == FinFace(c, users[k])
    {
      var k := users[j];
      all := all + [if k in faces then Some(faces[k]) else None];
    }
    assert all == FacesOn(c, i);
    twice := Twice(all);
  }

  /** The fins of an edge that have a face with good sides. */
  method UsableFins(c: CellData, fins: seq<nat>, faces: map<nat, nat>, sideBad: set<nat>) returns (out: seq<nat>)
    requires Locates(c, faces) && AllBelow(fins, |c.fins|)
    requires BadSides(c, sideBad, |c.faces|)
    ensures out == UsableOf(c, fins)
  {
    hide FinFace, SideBad;
    out := [];
    for j := 0 to |fins|
      invariant out == UsableOf(c, fins[..j])
    {
      assert fins[..j + 1][..j] == fins[..j];
      var k := fins[j];
      UsableIff(c, k, faces, sideBad);
      if k in faces && faces[k] !in sideBad {
        out := out + [k];
      }
    }
    assert fins[..|fins|] == fins;
  }

  lemma UsableIff(c: CellData, k: nat, faces: map<nat, nat>, sideBad: set<nat>)
    requires Locates(c, faces) && k < |c.fins| && BadSides(c, sideBad, |c.faces|)
    ensures Usable(c, k) <==> k in faces && faces[k] !in sideBad
  {
    FaceFromIs(c, k, 0);
    hide SideBad, FaceHas, FaceFrom;
    assert FinFace(c, k) == FaceFrom(c, k, 0);
  }

  /** The accounting of one edge. */
  method AccountEdge(c: CellData, i: nat, users: seq<nat>, faces: map<nat, nat>, sideBad: set<nat>)
    returns (issues: set<Issue>)
    requires i < |c.edges| && users == FinsOn(c.fins, i) && Locates(c, faces) && AllBelow(c.edges[i].fins, |c.fins|)
    requires BadSides(c, sideBad, |c.faces|)
    ensures forall x :: x in issues <==> x.EdgeAccount? && x.edge == i && AroundIssue(c, x)
  {
    hide FinFace, FinsOn, SideBad, UsableOf, VerdictOf, RadialAt;
    var fins := UsableFins(c, c.edges[i].fins, faces, sideBad);
    if fins == [] || multiset(c.edges[i].fins) != multiset(users) {
      return {};
    }
    var radial := RadialOf(c, fins);
    var v := Account(radial);
    return if v == Fine then {} else {EdgeAccount(i, v)};
  }

  method AroundIssues(c: CellData, sideBad: set<nat>) returns (issues: set<Issue>)
    requires forall i :: 0 <= i < |c.edges| ==> AllBelow(c.edges[i].fins, |c.fins|)
    requires BadSides(c, sideBad, |c.faces|)
    ensures forall x :: x in issues <==> AroundIssue(c, x)
  {
    hide FinFace, FinsOn, SideBad, UsableOf, VerdictOf, AllBelow, Locates, Twice;
    var users := Users(c.fins);
    var faces := Locate(c);
    issues := {};
    for i := 0 to |c.edges|
      invariant forall x :: x in issues <==> AroundIssue(c, x) && x.edge < i
    {
      var on := if i in users then users[i] else [];
      var twice := CheckSeam(c, i, on, faces);
      var more := AccountEdge(c, i, on, faces, sideBad);
      issues := issues + more + if twice then {SeamEdge(i)} else {};
    }
  }

  lemma ReferencesGiveFins(c: CellData)
    requires GoodReferences(c)
    ensures forall i :: 0 <= i < |c.edges| ==> AllBelow(c.edges[i].fins, |c.fins|)
  {
    forall i | 0 <= i < |c.edges|
      ensures AllBelow(c.edges[i].fins, |c.fins|)
    {
      assert !BadReference(c, EdgeReference(i));
    }
  }

  // ------------------------------------------------------------------ all of it

  /** The references and, if they are good, the structure: exactly the issues the cell raises. */
  method Validate(c: CellData) returns (issues: set<Issue>)
    ensures forall x :: x in issues <==> Raises(c, x)
  {
    hide BadReference, OwnerIssue, EdgeIssue, ShellIssue, SideIssue, LoopIssue, AroundIssue, AllBelow, SideBad;
    issues := References(c);
    if issues != {} {
      return;
    }
    assert GoodReferences(c);
    ReferencesGiveShells(c);
    ReferencesGiveFins(c);
    var owners := OwnerIssues(c);
    var edges := EdgeIssues(c);
    var shells := ShellIssues(c);
    var faces, sideBad := FaceIssues(c);
    var around := AroundIssues(c, sideBad);
    issues := owners + edges + shells + faces + around;
  }

  // ------------------------------------------------------------------ searches

  ghost predicate IsPath(next: map<nat, set<nat>>, path: seq<nat>) {
    |path| >= 1 && forall k :: 0 <= k < |path| - 1 ==> path[k] in next && path[k + 1] in next[path[k]]
  }

  /** x can be reached from start along the adjacency. */
  ghost predicate Reachable(next: map<nat, set<nat>>, start: nat, x: nat) {
    exists path: seq<nat> :: IsPath(next, path) && path[0] == start && path[|path| - 1] == x
  }

  lemma ReachesItself(next: map<nat, set<nat>>, x: nat)
    ensures Reachable(next, x, x)
  {
    assert IsPath(next, [x]);
  }

  lemma ReachesNext(next: map<nat, set<nat>>, start: nat, x: nat, y: nat)
    requires Reachable(next, start, x) && x in next && y in next[x]
    ensures Reachable(next, start, y)
  {
    var path: seq<nat> :| IsPath(next, path) && path[0] == start && path[|path| - 1] == x;
    var more := path + [y];
    forall k | 0 <= k < |more| - 1
      ensures more[k] in next && more[k + 1] in next[more[k]]
    {
      if k < |path| - 1 {
        assert path[k] in next && path[k + 1] in next[path[k]];
      }
    }
    assert IsPath(next, more);
  }

  lemma {:induction false} ClosedHoldsPaths(next: map<nat, set<nat>>, seen: set<nat>, path: seq<nat>)
    requires IsPath(next, path) && path[0] in seen
    requires forall x, y :: x in seen && x in next && y in next[x] ==> y in seen
    ensures path[|path| - 1] in seen
    decreases |path|
  {
    if |path| > 1 {
      assert path[0] in next && path[1] in next[path[0]];
      var rest := path[1..];
      forall k | 0 <= k < |rest| - 1
        ensures rest[k] in next && rest[k + 1] in next[rest[k]]
      {
        assert path[k + 1] in next && path[k + 2] in next[path[k + 1]];
      }
      ClosedHoldsPaths(next, seen, rest);
    }
  }

  lemma ClosedHoldsReachable(next: map<nat, set<nat>>, seen: set<nat>, start: nat, x: nat)
    requires start in seen && Reachable(next, start, x)
    requires forall x, y :: x in seen && x in next && y in next[x] ==> y in seen
    ensures x in seen
  {
    var path: seq<nat> :| IsPath(next, path) && path[0] == start && path[|path| - 1] == x;
    ClosedHoldsPaths(next, seen, path);
  }

  /** A set's elements in some order. */
  method Elements(s: set<nat>) returns (r: seq<nat>)
    ensures forall x :: x in r <==> x in s
  {
    r := [];
    var todo := s;
    while todo != {}
      invariant todo <= s && forall x :: x in r <==> x in s - todo
      decreases |todo|
    {
      var x :| x in todo;
      r := r + [x];
      todo := todo - {x};
    }
  }

  /** The stack-driven search of the connectivity and vertex-link checks: it sees exactly what can be reached. */
  method Search(next: map<nat, set<nat>>, start: nat) returns (seen: set<nat>)
    requires start in next && forall x :: x in next ==> next[x] <= next.Keys
    ensures forall x :: x in seen <==> Reachable(next, start, x)
  {
    hide Reachable;
    var stack: seq<nat>;
    seen, stack := {}, [start];
    ReachesItself(next, start);
    while stack != []
      invariant Searched(next, start, seen, stack)
      decreases |next.Keys - seen|, |stack|
    {
      var f := stack[|stack| - 1];
      SearchStep(next, start, seen, stack, []);
      stack := stack[..|stack| - 1];
      if f !in seen {
        var more := Elements(next[f]);
        SmallerRest(next.Keys, seen, f);
        SearchStep(next, start, seen, stack + [f], more);
        seen := seen + {f};
        stack := stack + more;
      }
    }
    forall x | Reachable(next, start, x)
      ensures x in seen
    {
      ClosedHoldsReachable(next, seen, start, x);
    }
  }

  /** What is seen or waiting can be reached, and nothing beyond it is forgotten. */
  ghost predicate Searched(next: map<nat, set<nat>>, start: nat, seen: set<nat>, stack: seq<nat>) {
    && seen <= next.Keys && (forall x :: x in stack ==> x in next)
    && (forall x :: x in seen || x in stack ==> Reachable(next, start, x))
    && (start in seen || start in stack)
    && forall x, y :: x in seen && x in next && y in next[x] ==> y in seen || y in stack
  }

  lemma SearchStep(next: map<nat, set<nat>>, start: nat, seen: set<nat>, stack: seq<nat>, more: seq<nat>)
    requires Searched(next, start, seen, stack) && stack != [] && forall x :: x in next ==> next[x] <= next.Keys
    ensures var f, rest := stack[|stack| - 1], stack[..|stack| - 1];
      && f in next && stack == rest + [f]
      && (f in seen ==> Searched(next, start, seen, rest))
      && ((forall y :: y in more <==> y in next[f]) ==> Searched(next, start, seen + {f}, rest + more))
  {
    hide Reachable;
    var f, rest := stack[|stack| - 1], stack[..|stack| - 1];
    assert f in stack && stack == rest + [f];
    forall y | y in next[f]
      ensures Reachable(next, start, y)
    {
      ReachesNext(next, start, f, y);
    }
  }

  lemma SmallerRest(all: set<nat>, seen: set<nat>, f: nat)
    requires f in all && f !in seen
    ensures |all - (seen + {f})| < |all - seen|
  {
    assert all - seen == (all - (seen + {f})) + {f};
  }
}

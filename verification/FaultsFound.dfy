/** Faults are found: what a cell that raises nothing raises once one of its entities is changed. References, owners,
    edges, vertices, shells and regions. */
module FaultsFound {
  import opened Basics
  import opened SeamRuns
  import opened CellModel
  import opened CellChecks

  /** A cell that raises nothing, as the cell of an accepted model. */
  ghost predicate Clean(c: CellData) {
    forall x :: !Raises(c, x)
  }

  lemma RaisesReference(c: CellData, x: Issue)
    requires !GoodReferences(c)
    ensures Raises(c, x) <==> BadReference(c, x)
  {
  }

  lemma CleanRefers(c: CellData)
    requires Clean(c)
    ensures GoodReferences(c)
  {
    hide BadReference, Raises;
    if !GoodReferences(c) {
      var x :| BadReference(c, x);
      RaisesReference(c, x);
    }
  }

  ghost predicate Regions(c: CellData) {
    && (forall s :: 0 <= s < |c.shells| ==> c.shells[s].region < |c.regions|)
    && forall f :: 0 <= f < |c.faces| ==> AllBelow(c.faces[f].loops, |c.loops|)
  }

  lemma CleanParts(c: CellData, x: Issue)
    requires Clean(c)
    ensures GoodReferences(c) && Regions(c)
    ensures !OwnerIssue(c, x) && !EdgeIssue(c, x) && !AroundIssue(c, x) && !ShellIssue(c, x)
    ensures forall f :: 0 <= f < |c.faces| ==> !SideIssue(c, x, f) && !LoopIssue(c, x, f)
  {
    CleanRefers(c);
    ReferencesGiveShells(c);
    hide OwnerIssue, EdgeIssue, AroundIssue, ShellIssue, SideIssue, LoopIssue, GoodReferences;
    assert !Raises(c, x);
  }

  // ------------------------------------------------------------------ references

  lemma NoReferenceIssue(c: CellData, x: Issue)
    requires GoodReferences(c)
    requires x.EdgeReference? || x.FinReference? || x.LoopReference? || x.FaceReference? || x.ShellReference? ||
      x.RegionReference?
    ensures !Raises(c, x)
  {
    hide GoodReferences, SideBad, Listing;
  }

  /** One issue is all, or none, of the bad references of a cell. */
  lemma OneReference(c: CellData, y: Issue)
    requires y.EdgeReference? || y.FinReference? || y.LoopReference? || y.FaceReference? || y.ShellReference? ||
      y.RegionReference?
    requires forall x :: BadReference(c, x) ==> x == y
    ensures Raises(c, y) <==> BadReference(c, y)
    ensures BadReference(c, y) ==> forall x :: Raises(c, x) <==> x == y
  {
    if BadReference(c, y) {
      hide BadReference;
      forall x
        ensures Raises(c, x) <==> x == y
      {
        RaisesReference(c, x);
      }
    } else {
      NoReferenceIssue(c, y);
    }
  }

  /** Some number of the list is too large. */
  ghost predicate Dangles(s: seq<nat>, n: nat) {
    exists k :: k in s && k >= n
  }

  lemma DanglesIs(s: seq<nat>, n: nat)
    ensures Dangles(s, n) <==> !AllBelow(s, n)
  {
    if !AllBelow(s, n) {
      var k :| 0 <= k < |s| && s[k] >= n;
      assert s[k] in s;
    }
  }

  /** Put into a clean cell, an edge raises its reference issue, and then nothing else, exactly if it names a vertex or
      a fin that is not there. */
  lemma EdgeReferenceFound(c: CellData, i: nat, e: CEdge)
    requires Clean(c) && i < |c.edges|
    ensures var d := c.(edges := c.edges[i := e]);
      && (Raises(d, EdgeReference(i)) <==>
          || Dangles(e.fins, |c.fins|)
          || (e.start.Some? && e.start.value >= |c.vertices|) || (e.end.Some? && e.end.value >= |c.vertices|))
      && (Raises(d, EdgeReference(i)) ==> forall x :: Raises(d, x) <==> x == EdgeReference(i))
  {
    CleanRefers(c);
    var d := c.(edges := c.edges[i := e]);
    forall x | BadReference(d, x)
      ensures x == EdgeReference(i)
    {
      assert !BadReference(c, x);
    }
    OneReference(d, EdgeReference(i));
    DanglesIs(e.fins, |c.fins|);
    hide Raises, GoodReferences, AllBelow, Dangles;
  }

  lemma FinReferenceFound(c: CellData, k: nat, fin: Fin)
    requires Clean(c) && k < |c.fins|
    ensures var d := c.(fins := c.fins[k := fin]);
      && (Raises(d, FinReference(k)) <==> fin.edge >= |c.edges|)
      && (Raises(d, FinReference(k)) ==> forall x :: Raises(d, x) <==> x == FinReference(k))
  {
    CleanRefers(c);
    var d := c.(fins := c.fins[k := fin]);
    forall x | BadReference(d, x)
      ensures x == FinReference(k)
    {
      assert !BadReference(c, x);
    }
    OneReference(d, FinReference(k));
    hide Raises, GoodReferences, AllBelow;
  }

  lemma LoopReferenceFound(c: CellData, l: nat, loop: Loop)
    requires Clean(c) && l < |c.loops|
    ensures var d := c.(loops := c.loops[l := loop]);
      && (Raises(d, LoopReference(l)) <==>
          Dangles(loop.fins, |c.fins|) || (loop.vertex.Some? && loop.vertex.value >= |c.vertices|))
      && (Raises(d, LoopReference(l)) ==> forall x :: Raises(d, x) <==> x == LoopReference(l))
  {
    CleanRefers(c);
    var d := c.(loops := c.loops[l := loop]);
    forall x | BadReference(d, x)
      ensures x == LoopReference(l)
    {
      assert !BadReference(c, x);
    }
    OneReference(d, LoopReference(l));
    DanglesIs(loop.fins, |c.fins|);
    hide Raises, GoodReferences, AllBelow, Dangles;
  }

  lemma FaceReferenceFound(c: CellData, f: nat, face: CFace)
    requires Clean(c) && f < |c.faces|
    ensures var d := c.(faces := c.faces[f := face]);
      && (Raises(d, FaceReference(f)) <==>
          Dangles(face.loops, |c.loops|) || face.front >= |c.shells| || face.back >= |c.shells|)
      && (Raises(d, FaceReference(f)) ==> forall x :: Raises(d, x) <==> x == FaceReference(f))
  {
    CleanRefers(c);
    var d := c.(faces := c.faces[f := face]);
    forall x | BadReference(d, x)
      ensures x == FaceReference(f)
    {
      assert !BadReference(c, x);
    }
    OneReference(d, FaceReference(f));
    DanglesIs(face.loops, |c.loops|);
    hide Raises, GoodReferences, AllBelow, Dangles;
  }

  lemma ShellReferenceFound(c: CellData, s: nat, shell: Shell)
    requires Clean(c) && s < |c.shells|
    ensures var d := c.(shells := c.shells[s := shell]);
      && (Raises(d, ShellReference(s)) <==>
          || shell.region >= |c.regions| || Dangles(shell.wireEdges, |c.edges|) || Dangles(shell.acorns, |c.vertices|)
          || exists k, side :: (k, side) in shell.sides && k >= |c.faces|)
      && (Raises(d, ShellReference(s)) ==> forall x :: Raises(d, x) <==> x == ShellReference(s))
  {
    CleanRefers(c);
    var d := c.(shells := c.shells[s := shell]);
    forall x | BadReference(d, x)
      ensures x == ShellReference(s)
    {
      assert !BadReference(c, x);
    }
    OneReference(d, ShellReference(s));
    DanglesIs(shell.wireEdges, |c.edges|);
    DanglesIs(shell.acorns, |c.vertices|);
    SidesDangle(shell.sides, |c.faces|);
    hide Raises, GoodReferences, AllBelow, Dangles;
  }

  lemma SidesDangle(sides: seq<(nat, Side)>, n: nat)
    ensures (exists k, side :: (k, side) in sides && k >= n) <==> !forall k :: 0 <= k < |sides| ==> sides[k].0 < n
  {
    if k :| 0 <= k < |sides| && sides[k].0 >= n {
      assert (sides[k].0, sides[k].1) in sides;
    }
  }

  lemma RegionReferenceFound(c: CellData, r: nat, region: Region)
    requires Clean(c) && r < |c.regions|
    ensures var d := c.(regions := c.regions[r := region]);
      && (Raises(d, RegionReference(r)) <==> Dangles(region.shells, |c.shells|))
      && (Raises(d, RegionReference(r)) ==> forall x :: Raises(d, x) <==> x == RegionReference(r))
  {
    CleanRefers(c);
    var d := c.(regions := c.regions[r := region]);
    forall x | BadReference(d, x)
      ensures x == RegionReference(r)
    {
      assert !BadReference(c, x);
    }
    OneReference(d, RegionReference(r));
    DanglesIs(region.shells, |c.shells|);
    hide Raises, GoodReferences, AllBelow, Dangles;
  }

  // ------------------------------------------------------------------ owners

  ghost predicate Repeated(s: seq<nat>, x: nat) {
    exists j, k :: 0 <= j < k < |s| && s[j] == x && s[k] == x
  }

  lemma RepeatedLast(s: seq<nat>, x: nat)
    requires s != []
    ensures var k := |s| - 1; Repeated(s, x) <==> Repeated(s[..k], x) || (s[k] == x && x in s[..k])
  {
    var k := |s| - 1;
    if Repeated(s[..k], x) {
      var i, j :| 0 <= i < j < k && s[..k][i] == x && s[..k][j] == x;
      assert s[i] == x && s[j] == x;
    }
    if s[k] == x && x in s[..k] {
      var i :| 0 <= i < k && s[..k][i] == x;
      assert s[i] == x && s[k] == x;
    }
    if Repeated(s, x) {
      var i, j :| 0 <= i < j < |s| && s[i] == x && s[j] == x;
      assert s[..k][i] == x;
      assert j < k ==> s[..k][j] == x;
    }
  }

  lemma {:induction false} CountsOf(s: seq<nat>, x: nat)
    ensures CountOf(s, x) == 0 <==> x !in s
    ensures CountOf(s, x) > 1 <==> Repeated(s, x)
  {
    if s != [] {
      var k := |s| - 1;
      CountsOf(s[..k], x);
      assert s == s[..k] + [s[k]];
      RepeatedLast(s, x);
    }
  }

  lemma {:induction false} FinCountReplaced(loops: seq<Loop>, l: nat, loop: Loop, k: nat)
    requires l < |loops|
    ensures FinCount(loops[l := loop], k) == FinCount(loops, k) - CountOf(loops[l].fins, k) + CountOf(loop.fins, k)
  {
    hide CountOf;
    var n := |loops| - 1;
    if l < n {
      FinCountReplaced(loops[..n], l, loop, k);
      assert loops[l := loop][..n] == loops[..n][l := loop];
    } else {
      assert loops[l := loop][..n] == loops[..n];
    }
  }

  lemma {:induction false} LoopCountReplaced(faces: seq<CFace>, f: nat, face: CFace, l: nat)
    requires f < |faces|
    ensures LoopCount(faces[f := face], l)
         == LoopCount(faces, l) - CountOf(faces[f].loops, l) + CountOf(face.loops, l)
  {
    hide CountOf;
    var n := |faces| - 1;
    if f < n {
      LoopCountReplaced(faces[..n], f, face, l);
      assert faces[f := face][..n] == faces[..n][f := face];
    } else {
      assert faces[f := face][..n] == faces[..n];
    }
  }

  lemma {:induction false} FinCountHas(loops: seq<Loop>, l: nat, k: nat)
    requires l < |loops|
    ensures FinCount(loops, k) >= CountOf(loops[l].fins, k)
  {
    hide CountOf;
    var n := |loops| - 1;
    if l < n {
      FinCountHas(loops[..n], l, k);
    }
  }

  lemma {:induction false} LoopCountHas(faces: seq<CFace>, f: nat, l: nat)
    requires f < |faces|
    ensures LoopCount(faces, l) >= CountOf(faces[f].loops, l)
  {
    hide CountOf;
    var n := |faces| - 1;
    if f < n {
      LoopCountHas(faces[..n], f, l);
    }
  }

  lemma OwnedOnce(c: CellData)
    requires Clean(c)
    ensures forall k :: 0 <= k < |c.fins| ==> FinCount(c.loops, k) == 1
    ensures forall l :: 0 <= l < |c.loops| ==> LoopCount(c.faces, l) == 1
  {
    hide FinCount, LoopCount, Raises;
    forall k | 0 <= k < |c.fins|
      ensures FinCount(c.loops, k) == 1
    {
      CleanParts(c, FinWithoutLoop(k));
      CleanParts(c, FinReused(k));
    }
    forall l | 0 <= l < |c.loops|
      ensures LoopCount(c.faces, l) == 1
    {
      CleanParts(c, LoopWithoutFace(l));
      CleanParts(c, LoopReused(l));
    }
  }

  lemma RaisesOwner(c: CellData, x: Issue)
    requires GoodReferences(c)
    requires x.FinWithoutLoop? || x.FinReused? || x.LoopWithoutFace? || x.LoopReused?
    ensures Raises(c, x) <==> OwnerIssue(c, x)
  {
    hide GoodReferences, OwnerIssue;
  }

  lemma StillRefers(c: CellData, d: CellData)
    requires GoodReferences(c) && forall x :: BadReference(d, x) ==> BadReference(c, x)
    ensures GoodReferences(d)
  {
    hide BadReference;
  }

  /** Given any other list of fins, a loop leaves those it drops without a loop, and reuses those it lists twice or
      takes from another loop; no other fin is reported. */
  lemma FinOwnersFound(c: CellData, l: nat, s: seq<nat>, k: nat)
    requires Clean(c) && l < |c.loops| && k < |c.fins| && forall j :: 0 <= j < |s| ==> s[j] < |c.fins|
    ensures var d := c.(loops := c.loops[l := c.loops[l].(fins := s)]);
      && (Raises(d, FinWithoutLoop(k)) <==> k in c.loops[l].fins && k !in s)
      && (Raises(d, FinReused(k)) <==> Repeated(s, k) || (k in s && k !in c.loops[l].fins))
  {
    CleanRefers(c);
    OwnedOnce(c);
    var d := c.(loops := c.loops[l := c.loops[l].(fins := s)]);
    StillRefers(c, d);
    RaisesOwner(d, FinWithoutLoop(k));
    RaisesOwner(d, FinReused(k));
    hide Raises, GoodReferences, FinCount, CountOf;
    FinCountReplaced(c.loops, l, c.loops[l].(fins := s), k);
    FinCountHas(c.loops, l, k);
    CountsOf(s, k);
    CountsOf(c.loops[l].fins, k);
  }

  /** The same for the loops of a face. */
  lemma LoopOwnersFound(c: CellData, f: nat, s: seq<nat>, l: nat)
    requires Clean(c) && f < |c.faces| && l < |c.loops| && forall j :: 0 <= j < |s| ==> s[j] < |c.loops|
    ensures var d := c.(faces := c.faces[f := c.faces[f].(loops := s)]);
      && (Raises(d, LoopWithoutFace(l)) <==> l in c.faces[f].loops && l !in s)
      && (Raises(d, LoopReused(l)) <==> Repeated(s, l) || (l in s && l !in c.faces[f].loops))
  {
    CleanRefers(c);
    OwnedOnce(c);
    var d := c.(faces := c.faces[f := c.faces[f].(loops := s)]);
    StillRefers(c, d);
    RaisesOwner(d, LoopWithoutFace(l));
    RaisesOwner(d, LoopReused(l));
    hide Raises, GoodReferences, LoopCount, CountOf;
    LoopCountReplaced(c.faces, f, c.faces[f].(loops := s), l);
    LoopCountHas(c.faces, f, l);
    CountsOf(s, l);
    CountsOf(c.faces[f].loops, l);
  }

  // ------------------------------------------------------------------ edges and vertices

  lemma RaisesEdge(c: CellData, x: Issue)
    requires GoodReferences(c)
    requires x.EdgeFinsMismatch? || x.UnusedVertex? || x.UnusedEdge? || x.RingEdgeWithVertex? || x.RingEdgeOpen?
    ensures Raises(c, x) <==> EdgeIssue(c, x)
  {
    hide GoodReferences, EdgeIssue;
  }

  /** An edge given other fins is reported exactly if they are not the same ones, counted. */
  lemma EdgeFinsFound(c: CellData, i: nat, s: seq<nat>)
    requires Clean(c) && i < |c.edges| && forall j :: 0 <= j < |s| ==> s[j] < |c.fins|
    ensures var d := c.(edges := c.edges[i := c.edges[i].(fins := s)]);
      Raises(d, EdgeFinsMismatch(i)) <==> multiset(s) != multiset(c.edges[i].fins)
  {
    CleanParts(c, EdgeFinsMismatch(i));
    var d := c.(edges := c.edges[i := c.edges[i].(fins := s)]);
    StillRefers(c, d);
    RaisesEdge(d, EdgeFinsMismatch(i));
    hide Raises, GoodReferences;
  }

  /** A fin put on another edge is missed by the one and too many for the other. */
  lemma FinMoveFound(c: CellData, k: nat, e: nat)
    requires Clean(c) && k < |c.fins| && e < |c.edges| && e != c.fins[k].edge
    ensures var d := c.(fins := c.fins[k := c.fins[k].(edge := e)]);
      Raises(d, EdgeFinsMismatch(e)) && Raises(d, EdgeFinsMismatch(c.fins[k].edge))
  {
    CleanRefers(c);
    assert !BadReference(c, FinReference(k));
    var d, was := c.(fins := c.fins[k := c.fins[k].(edge := e)]), c.fins[k].edge;
    StillRefers(c, d);
    CleanParts(c, EdgeFinsMismatch(e));
    CleanParts(c, EdgeFinsMismatch(was));
    RaisesEdge(d, EdgeFinsMismatch(e));
    RaisesEdge(d, EdgeFinsMismatch(was));
    hide Raises, GoodReferences, FinsOn;
    FinsOnIs(c.fins, e, k);
    FinsOnIs(d.fins, e, k);
    FinsOnIs(c.fins, was, k);
    FinsOnIs(d.fins, was, k);
    assert k in multiset(FinsOn(d.fins, e)) && k !in multiset(FinsOn(c.fins, e));
    assert k !in multiset(FinsOn(d.fins, was)) && k in multiset(FinsOn(c.fins, was));
  }

  /** An edge given other ends and another curve is reported exactly if one end alone is missing, or both are and the
      curve does not close. */
  lemma RingFound(c: CellData, i: nat, e: CEdge)
    requires Clean(c) && i < |c.edges| && e.fins == c.edges[i].fins
    requires (e.start.Some? ==> e.start.value < |c.vertices|) && (e.end.Some? ==> e.end.value < |c.vertices|)
    ensures var d := c.(edges := c.edges[i := e]);
      && (Raises(d, RingEdgeWithVertex(i)) <==>
        (e.start == None && e.end != None) || (e.start != None && e.end == None))
      && (Raises(d, RingEdgeOpen(i)) <==> e.start == None && e.end == None && !e.curve.closed)
  {
    CleanRefers(c);
    var d := c.(edges := c.edges[i := e]);
    assert !BadReference(c, EdgeReference(i));
    StillRefers(c, d);
    RaisesEdge(d, RingEdgeWithVertex(i));
    RaisesEdge(d, RingEdgeOpen(i));
    hide Raises, GoodReferences;
  }

  lemma NewVertex(c: CellData, p: Vertex)
    requires Clean(c)
    ensures var d := c.(vertices := c.vertices + [p]); GoodReferences(d) && !VertexUsed(d, |c.vertices|)
  {
    CleanRefers(c);
    var d, n := c.(vertices := c.vertices + [p]), |c.vertices|;
    StillRefers(c, d);
    Referred(c);
    hide GoodReferences, Raises;
  }

  /** Good references, entity by entity. */
  lemma Referred(c: CellData)
    requires GoodReferences(c)
    ensures forall i :: 0 <= i < |c.edges| ==> EdgeRefers(c, c.edges[i])
    ensures forall k :: 0 <= k < |c.fins| ==> c.fins[k].edge < |c.edges|
    ensures forall l :: 0 <= l < |c.loops| ==> LoopRefers(c, c.loops[l])
    ensures forall f :: 0 <= f < |c.faces| ==> FaceRefers(c, c.faces[f])
    ensures forall s :: 0 <= s < |c.shells| ==> ShellRefers(c, c.shells[s])
    ensures forall r :: 0 <= r < |c.regions| ==> AllBelow(c.regions[r].shells, |c.shells|)
  {
    hide EdgeRefers, LoopRefers, FaceRefers, ShellRefers, AllBelow;
    forall i | 0 <= i < |c.edges|
      ensures EdgeRefers(c, c.edges[i])
    {
      assert !BadReference(c, EdgeReference(i));
    }
    forall k | 0 <= k < |c.fins|
      ensures c.fins[k].edge < |c.edges|
    {
      assert !BadReference(c, FinReference(k));
    }
    forall l | 0 <= l < |c.loops|
      ensures LoopRefers(c, c.loops[l])
    {
      assert !BadReference(c, LoopReference(l));
    }
    forall f | 0 <= f < |c.faces|
      ensures FaceRefers(c, c.faces[f])
    {
      assert !BadReference(c, FaceReference(f));
    }
    forall s | 0 <= s < |c.shells|
      ensures ShellRefers(c, c.shells[s])
    {
      assert !BadReference(c, ShellReference(s));
    }
    forall r | 0 <= r < |c.regions|
      ensures AllBelow(c.regions[r].shells, |c.shells|)
    {
      assert !BadReference(c, RegionReference(r));
    }
  }

  lemma RaisesUnused(c: CellData, v: nat)
    requires GoodReferences(c) && v < |c.vertices|
    ensures Raises(c, UnusedVertex(v)) <==> !VertexUsed(c, v)
  {
    RaisesEdge(c, UnusedVertex(v));
    hide GoodReferences, Raises;
  }

  /** A new vertex is reported until an edge ends at it, */
  lemma VertexFoundOnEdge(c: CellData, p: Vertex, i: nat, start: Option<nat>, end: Option<nat>)
    requires Clean(c) && i < |c.edges|
    requires (start.Some? ==> start.value <= |c.vertices|) && (end.Some? ==> end.value <= |c.vertices|)
    ensures var d := c.(vertices := c.vertices + [p]);
      && Raises(d, UnusedVertex(|c.vertices|))
      && (Raises(d.(edges := c.edges[i := c.edges[i].(start := start, end := end)]), UnusedVertex(|c.vertices|)) <==>
        start != Some(|c.vertices|) && end != Some(|c.vertices|))
  {
    NewVertex(c, p);
    var d, n := c.(vertices := c.vertices + [p]), |c.vertices|;
    var b := d.(edges := c.edges[i := c.edges[i].(start := start, end := end)]);
    RaisesUnused(d, n);
    assert !BadReference(d, EdgeReference(i));
    StillRefers(d, b);
    RaisesUnused(b, n);
    hide GoodReferences, Raises;
    assert b.edges[i].start == start && b.edges[i].end == end;
  }

  /** a loop stands at it */
  lemma VertexFoundOnLoop(c: CellData, p: Vertex, l: nat, vertex: Option<nat>)
    requires Clean(c) && l < |c.loops| && (vertex.Some? ==> vertex.value <= |c.vertices|)
    ensures var d := c.(vertices := c.vertices + [p]);
      Raises(d.(loops := c.loops[l := c.loops[l].(vertex := vertex)]), UnusedVertex(|c.vertices|)) <==>
        vertex != Some(|c.vertices|)
  {
    NewVertex(c, p);
    var d, n := c.(vertices := c.vertices + [p]), |c.vertices|;
    var b := d.(loops := c.loops[l := c.loops[l].(vertex := vertex)]);
    assert !BadReference(d, LoopReference(l));
    StillRefers(d, b);
    RaisesUnused(b, n);
    hide GoodReferences, Raises;
    assert b.loops[l].vertex == vertex;
  }

  /** or a shell has it as an acorn. */
  lemma VertexFoundAsAcorn(c: CellData, p: Vertex, s: nat, acorns: seq<nat>)
    requires Clean(c) && s < |c.shells| && forall k :: 0 <= k < |acorns| ==> acorns[k] <= |c.vertices|
    ensures var d := c.(vertices := c.vertices + [p]);
      Raises(d.(shells := c.shells[s := c.shells[s].(acorns := acorns)]), UnusedVertex(|c.vertices|)) <==>
        |c.vertices| !in acorns
  {
    NewVertex(c, p);
    var d, n := c.(vertices := c.vertices + [p]), |c.vertices|;
    var b := d.(shells := c.shells[s := c.shells[s].(acorns := acorns)]);
    assert !BadReference(d, ShellReference(s));
    StillRefers(d, b);
    RaisesUnused(b, n);
    hide GoodReferences, Raises;
    assert b.shells[s].acorns == acorns;
  }

  lemma NewEdge(c: CellData, e: CEdge)
    requires Clean(c) && EdgeRefers(c, e)
    ensures GoodReferences(c.(edges := c.edges + [e])) && !WireEdge(c.(edges := c.edges + [e]), |c.edges|)
    ensures FinsOn(c.fins, |c.edges|) == []
  {
    CleanRefers(c);
    var d, n := c.(edges := c.edges + [e]), |c.edges|;
    forall x | BadReference(d, x)
      ensures BadReference(c, x)
    {
    }
    StillRefers(c, d);
    Referred(c);
    hide GoodReferences, Raises, FinsOn;
    if FinsOn(c.fins, n) != [] {
      FinsOnIs(c.fins, n, FinsOn(c.fins, n)[0]);
    }
  }

  /** A new edge is reported until a fin runs along it */
  lemma EdgeFoundUnused(c: CellData, e: CEdge, k: nat, edge: nat)
    requires Clean(c) && EdgeRefers(c, e) && k < |c.fins| && edge <= |c.edges|
    ensures var d := c.(edges := c.edges + [e]);
      && Raises(d, UnusedEdge(|c.edges|))
      && (Raises(d.(fins := c.fins[k := c.fins[k].(edge := edge)]), UnusedEdge(|c.edges|)) <==> edge != |c.edges|)
  {
    NewEdge(c, e);
    var d, n := c.(edges := c.edges + [e]), |c.edges|;
    var b := d.(fins := c.fins[k := c.fins[k].(edge := edge)]);
    RaisesEdge(d, UnusedEdge(n));
    StillRefers(d, b);
    RaisesEdge(b, UnusedEdge(n));
    hide GoodReferences, Raises, FinsOn;
    FinsOnIs(b.fins, n, k);
    if FinsOn(b.fins, n) != [] {
      FinsOnIs(b.fins, n, FinsOn(b.fins, n)[0]);
      FinsOnIs(c.fins, n, FinsOn(b.fins, n)[0]);
    }
  }

  /** or it is a shell's wire. */
  lemma EdgeFoundUnwired(c: CellData, e: CEdge, s: nat, wires: seq<nat>)
    requires Clean(c) && EdgeRefers(c, e) && s < |c.shells| && forall k :: 0 <= k < |wires| ==> wires[k] <= |c.edges|
    ensures var d := c.(edges := c.edges + [e]);
      Raises(d.(shells := c.shells[s := c.shells[s].(wireEdges := wires)]), UnusedEdge(|c.edges|)) <==>
        |c.edges| !in wires
  {
    NewEdge(c, e);
    var d, n := c.(edges := c.edges + [e]), |c.edges|;
    var b := d.(shells := c.shells[s := c.shells[s].(wireEdges := wires)]);
    assert !BadReference(d, ShellReference(s));
    StillRefers(d, b);
    RaisesEdge(b, UnusedEdge(n));
    hide GoodReferences, Raises, FinsOn;
    assert b.shells[s].wireEdges == wires;
  }

  // ------------------------------------------------------------------ shells and regions

  lemma RaisesShell(c: CellData, x: Issue)
    requires GoodReferences(c) && Regions(c)
    requires x.EmptyShell? || x.DoubleBounding? || x.RegionWithoutShell? || x.NoInfiniteRegion? ||
      x.RegionShellMismatch?
    ensures Raises(c, x) <==> ShellIssue(c, x)
  {
    hide GoodReferences, ShellIssue;
  }

  lemma RegionsOf(c: CellData)
    requires GoodReferences(c)
    ensures Regions(c)
  {
    ReferencesGiveShells(c);
    hide GoodReferences;
  }

  /** A shell put in another's place is reported exactly if it holds nothing, and exactly if its region does not list
      it. */
  lemma ShellFound(c: CellData, s: nat, shell: Shell)
    requires Clean(c) && s < |c.shells| && ShellRefers(c, shell)
    ensures var d := c.(shells := c.shells[s := shell]);
      && (Raises(d, EmptyShell(s)) <==> |shell.sides| + |shell.wireEdges| + |shell.acorns| == 0)
      && (Raises(d, RegionShellMismatch(s)) <==> s !in c.regions[shell.region].shells)
  {
    CleanRefers(c);
    var d := c.(shells := c.shells[s := shell]);
    StillRefers(c, d);
    RegionsOf(d);
    RaisesShell(d, EmptyShell(s));
    RaisesShell(d, RegionShellMismatch(s));
    hide Raises, GoodReferences;
  }

  ghost function Members(s: seq<nat>): set<nat> {
    set x | x in s
  }

  /** Listing other shells, a region is reported exactly if some number is listed twice, and exactly if there is none
      and it is not the first; a shell of it is reported exactly if it is no longer listed. */
  lemma RegionFound(c: CellData, r: nat, shells: seq<nat>, s: nat)
    requires Clean(c) && r < |c.regions| && (forall k :: 0 <= k < |shells| ==> shells[k] < |c.shells|)
    requires s < |c.shells|
    ensures c.shells[s].region < |c.regions|
    ensures var d := c.(regions := c.regions[r := c.regions[r].(shells := shells)]);
      && (Raises(d, DoubleBounding(r)) <==> |Members(shells)| != |shells|)
      && (Raises(d, RegionWithoutShell(r)) <==> r != 0 && |shells| == 0)
      && (Raises(d, RegionShellMismatch(s)) <==> c.shells[s].region == r && s !in shells)
  {
    CleanParts(c, RegionShellMismatch(s));
    var d := c.(regions := c.regions[r := c.regions[r].(shells := shells)]);
    StillRefers(c, d);
    RegionsOf(d);
    RaisesShell(d, DoubleBounding(r));
    RaisesShell(d, RegionWithoutShell(r));
    RaisesShell(d, RegionShellMismatch(s));
    hide Raises, GoodReferences, Repeats;
    RepeatsCounted(shells);
  }

  lemma {:induction false} RepeatsCounted(s: seq<nat>)
    ensures Repeats(s) <==> |Members(s)| != |s|
    ensures |Members(s)| <= |s|
  {
    var all := Members(s);
    if s == [] {
      assert all == {};
    } else {
      var k := |s| - 1;
      var before := Members(s[..k]);
      RepeatsCounted(s[..k]);
      assert all == before + {s[k]};
      assert s[k] in s[..k] <==> s[k] in before;
      assert s[k] in before ==> all == before;
      LastRepeats(s);
    }
  }

  lemma LastRepeats(s: seq<nat>)
    requires s != []
    ensures Repeats(s) <==> Repeats(s[..|s| - 1]) || s[|s| - 1] in s[..|s| - 1]
  {
    var k := |s| - 1;
    if s[k] in s[..k] {
      var i :| 0 <= i < k && s[..k][i] == s[k];
      assert s[i] == s[k];
    }
    if Repeats(s[..k]) {
      var i, j :| 0 <= i < j < k && s[..k][i] == s[..k][j];
      assert s[i] == s[j];
    }
    if Repeats(s) {
      var i, j :| 0 <= i < j < |s| && s[i] == s[j];
      assert s[..k][i] == s[i];
      assert j < k ==> s[..k][j] == s[j];
    }
  }

  /** The first region must be there and void. */
  lemma OuterRegionFound(c: CellData, region: Region)
    requires Clean(c) && c.regions != [] && region.shells == c.regions[0].shells
    ensures Raises(c.(regions := c.regions[0 := region]), NoInfiniteRegion) <==> region.kind == SolidRegion
  {
    CleanRefers(c);
    var d := c.(regions := c.regions[0 := region]);
    assert !BadReference(c, RegionReference(0));
    StillRefers(c, d);
    RegionsOf(d);
    RaisesShell(d, NoInfiniteRegion);
    hide Raises, GoodReferences;
  }
}

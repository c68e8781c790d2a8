/** Faults are found, continued: the sides of faces, their loops and windings, seams and the shells around an edge. */
module FaultsInFaces {
  import opened Basics
  import opened SeamRuns
  import opened CellModel
  import opened CellChecks
  import CellValidator
  import opened RadialOrder
  import opened FaultsFound

  lemma RaisesFace(c: CellData, f: nat, x: Issue)
    requires GoodReferences(c) && Regions(c) && f < |c.faces|
    requires (x.FaceWithoutShell? || x.FaceReused? || x.SideInTwoShells? || x.SideWithoutShell? ||
      x.SideRegionMismatch? || x.EmptyFace? || x.EmptyLoop? || x.WindingMismatch? || x.OpenLoop?) && x.face == f
    ensures Raises(c, x) <==> SideIssue(c, x, f) || LoopIssue(c, x, f)
  {
    hide GoodReferences, Listing, Repeats, Wound, Pole, WindsWrongly, Unbalanced, IsOpen, FinsOn;
  }

  // ------------------------------------------------------------------ sides

  lemma {:induction false} CountsSides(s: seq<(nat, Side)>, x: (nat, Side))
    ensures CountSides(s, x) == multiset(s)[x]
  {
    if s != [] {
      var k := |s| - 1;
      CountsSides(s[..k], x);
      assert s == s[..k] + [s[k]];
    }
  }

  lemma CopiesCounted(n: nat, k: nat, t: nat)
    ensures multiset(Copies(n, k))[t] == if t == k then n else 0
    decreases n
  {
    if n > 0 {
      CopiesCounted(n - 1, k, t);
      assert Copies(n, k) == Copies(n - 1, k) + [k];
    }
  }

  /** A side's listing holds each shell as often as the shell lists the side. */
  lemma {:induction false} ListingCounted(shells: seq<Shell>, x: (nat, Side), t: nat)
    ensures multiset(Listing(shells, x))[t] == if t < |shells| then multiset(shells[t].sides)[x] else 0
  {
    hide CountSides, Copies;
    if shells != [] {
      var k := |shells| - 1;
      ListingCounted(shells[..k], x, t);
      CopiesCounted(CountSides(shells[k].sides, x), k, t);
      CountsSides(shells[k].sides, x);
    }
  }

  lemma {:induction false} RepeatsTwice(s: seq<nat>)
    ensures Repeats(s) <==> exists x :: multiset(s)[x] >= 2
  {
    if s != [] {
      var k := |s| - 1;
      assert s == s[..k] + [s[k]];
      RepeatsTwice(s[..k]);
      LastRepeats(s);
      if x :| multiset(s)[x] >= 2 {
        assert x == s[k] || multiset(s[..k])[x] >= 2;
      }
      if s[k] in s[..k] {
        assert multiset(s)[s[k]] >= 2;
      }
      if Repeats(s[..k]) {
        var x :| multiset(s[..k])[x] >= 2;
        assert multiset(s)[x] >= 2;
      }
    }
  }

  lemma SidesListed(c: CellData, f: nat)
    requires Clean(c) && f < |c.faces|
    ensures Listing(c.shells, (f, Front)) == [c.faces[f].front]
    ensures Listing(c.shells, (f, Back)) == [c.faces[f].back]
  {
    SideBadIff(c, f);
    hide Raises, SideIssue, Listing;
    forall x
      ensures !SideIssue(c, x, f)
    {
      CleanParts(c, x);
    }
  }

  /** The shells that list a side when s lists it p times and the side's own shell listed it once before. */
  lemma ListingReplaced(shells: seq<Shell>, s: nat, shell: Shell, x: (nat, Side), own: nat)
    requires s < |shells| && Listing(shells, x) == [own]
    ensures var p, l := multiset(shell.sides)[x], Listing(shells[s := shell], x);
      && |l| == p + (if own == s then 0 else 1)
      && (Repeats(l) <==> p > 1)
      && (|l| == 1 ==> l[0] == if p == 1 then s else own)
  {
    hide Repeats, Listing;
    var p, l := multiset(shell.sides)[x], Listing(shells[s := shell], x);
    var rest := if own == s then multiset{} else multiset{own};
    forall t: nat
      ensures multiset(l)[t] == (rest + multiset{}[s := p])[t]
    {
      ListingCounted(shells, x, t);
      ListingCounted(shells[s := shell], x, t);
    }
    assert multiset(l) == rest + multiset{}[s := p];
    RepeatsTwice(l);
    if p > 1 {
      assert multiset(l)[s] >= 2;
    }
    if |l| == 1 {
      assert l == [l[0]] && multiset(l) == multiset{l[0]};
    }
  }

  /** The shells that list a side, once s lists it p times. */
  ghost predicate ListedAs(l: seq<nat>, p: nat, s: nat, own: nat) {
    && |l| == p + (if own == s then 0 else 1)
    && (Repeats(l) <==> p > 1)
    && (|l| == 1 ==> l[0] == if p == 1 then s else own)
  }

  lemma SideIssuesAre(c: CellData, f: nat, s: nat, p: nat, q: nat)
    requires f < |c.faces|
    requires ListedAs(Listing(c.shells, (f, Front)), p, s, c.faces[f].front)
    requires ListedAs(Listing(c.shells, (f, Back)), q, s, c.faces[f].back)
    ensures var fronts := p + if c.faces[f].front == s then 0 else 1;
      var backs := q + if c.faces[f].back == s then 0 else 1;
      && (SideIssue(c, FaceWithoutShell(f), f) <==> fronts == 0 && backs == 0)
      && (SideIssue(c, FaceReused(f), f) <==> p > 1 || q > 1)
      && (SideIssue(c, SideInTwoShells(f), f) <==> p <= 1 && q <= 1 && (fronts > 1 || backs > 1))
      && (SideIssue(c, SideWithoutShell(f), f) <==> (fronts == 0 && backs == 1) || (fronts == 1 && backs == 0))
      && !SideIssue(c, SideRegionMismatch(f), f)
  {
    hide Listing, Repeats;
  }

  lemma SidesRefer(c: CellData, s: nat, sides: seq<(nat, Side)>)
    requires Clean(c) && s < |c.shells| && forall k :: 0 <= k < |sides| ==> sides[k].0 < |c.faces|
    ensures var d := c.(shells := c.shells[s := c.shells[s].(sides := sides)]); GoodReferences(d) && Regions(d)
  {
    CleanRefers(c);
    var d := c.(shells := c.shells[s := c.shells[s].(sides := sides)]);
    assert !BadReference(c, ShellReference(s));
    StillRefers(c, d);
    RegionsOf(d);
    hide Raises, GoodReferences;
  }

  /** A face's sides are reported by the sides' listings alone. */
  lemma RaisesSide(c: CellData, f: nat, x: Issue)
    requires GoodReferences(c) && Regions(c) && f < |c.faces|
    requires (x.FaceWithoutShell? || x.FaceReused? || x.SideInTwoShells? || x.SideWithoutShell? ||
      x.SideRegionMismatch?) && x.face == f
    ensures Raises(c, x) <==> SideIssue(c, x, f)
  {
    RaisesFace(c, f, x);
    hide GoodReferences, Raises, SideIssue, Wound, Unbalanced;
  }

  lemma ListingAs(shells: seq<Shell>, s: nat, shell: Shell, x: (nat, Side), own: nat)
    requires s < |shells| && Listing(shells, x) == [own]
    ensures ListedAs(Listing(shells[s := shell], x), multiset(shell.sides)[x], s, own)
  {
    hide Repeats, Listing;
    ListingReplaced(shells, s, shell, x, own);
  }

  /** Given any other list of sides, a shell has a face reported exactly by how often the face's sides are now listed:
      not at all, twice by the shell, by two shells, or on one side only. */
  lemma SidesFound(c: CellData, s: nat, sides: seq<(nat, Side)>, f: nat)
    requires Clean(c) && s < |c.shells| && f < |c.faces|
    requires forall k :: 0 <= k < |sides| ==> sides[k].0 < |c.faces|
    ensures var d := c.(shells := c.shells[s := c.shells[s].(sides := sides)]);
      var p, q := multiset(sides)[(f, Front)], multiset(sides)[(f, Back)];
      var fronts := p + if c.faces[f].front == s then 0 else 1;
      var backs := q + if c.faces[f].back == s then 0 else 1;
      && (Raises(d, FaceWithoutShell(f)) <==> fronts == 0 && backs == 0)
      && (Raises(d, FaceReused(f)) <==> p > 1 || q > 1)
      && (Raises(d, SideInTwoShells(f)) <==> p <= 1 && q <= 1 && (fronts > 1 || backs > 1))
      && (Raises(d, SideWithoutShell(f)) <==> (fronts == 0 && backs == 1) || (fronts == 1 && backs == 0))
      && !Raises(d, SideRegionMismatch(f))
  {
    hide *;
    var shell := c.shells[s].(sides := sides);
    var d := c.(shells := c.shells[s := shell]);
    SidesListed(c, f);
    SidesRefer(c, s, sides);
    RaisesSide(d, f, FaceWithoutShell(f));
    RaisesSide(d, f, FaceReused(f));
    RaisesSide(d, f, SideInTwoShells(f));
    RaisesSide(d, f, SideWithoutShell(f));
    RaisesSide(d, f, SideRegionMismatch(f));
    ListingAs(c.shells, s, shell, (f, Front), c.faces[f].front);
    ListingAs(c.shells, s, shell, (f, Back), c.faces[f].back);
    SideIssuesAre(d, f, s, multiset(sides)[(f, Front)], multiset(sides)[(f, Back)]);
  }

  /** A face that names other shells than those that list it is reported. */
  lemma SideShellsFound(c: CellData, f: nat, front: nat, back: nat)
    requires Clean(c) && f < |c.faces| && front < |c.shells| && back < |c.shells|
    ensures var d := c.(faces := c.faces[f := c.faces[f].(front := front, back := back)]);
      Raises(d, SideRegionMismatch(f)) <==> front != c.faces[f].front || back != c.faces[f].back
  {
    CleanRefers(c);
    SidesListed(c, f);
    var d := c.(faces := c.faces[f := c.faces[f].(front := front, back := back)]);
    assert !BadReference(c, FaceReference(f));
    StillRefers(c, d);
    RegionsOf(d);
    RaisesFace(d, f, SideRegionMismatch(f));
    hide Raises, GoodReferences, Listing, Repeats;
  }

  // ------------------------------------------------------------------ empty faces and loops

  /** A face left without loops is reported unless it is a whole sphere or torus. */
  lemma EmptyFaceFound(c: CellData, f: nat, surface: Surface)
    requires Clean(c) && f < |c.faces|
    ensures Raises(c.(faces := c.faces[f := c.faces[f].(surface := surface, loops := [])]), EmptyFace(f)) <==>
      surface.kind in {Plane, Cylinder, Cone, Spline}
  {
    CleanRefers(c);
    var d := c.(faces := c.faces[f := c.faces[f].(surface := surface, loops := [])]);
    assert !BadReference(c, FaceReference(f));
    StillRefers(c, d);
    RegionsOf(d);
    RaisesFace(d, f, EmptyFace(f));
    hide Raises, GoodReferences, Listing;
  }

  /** A loop left without fins is reported unless it is a vertex loop. */
  lemma EmptyLoopFound(c: CellData, f: nat, j: nat, vertex: Option<nat>)
    requires Clean(c) && f < |c.faces| && j < |c.faces[f].loops| && (vertex.Some? ==> vertex.value < |c.vertices|)
    ensures c.faces[f].loops[j] < |c.loops|
    ensures var l := c.faces[f].loops[j];
      Raises(c.(loops := c.loops[l := c.loops[l].(fins := [], vertex := vertex)]), EmptyLoop(f, j)) <==> vertex.None?
  {
    CleanParts(c, EmptyLoop(f, j));
    var l := c.faces[f].loops[j];
    var d := c.(loops := c.loops[l := c.loops[l].(fins := [], vertex := vertex)]);
    StillRefers(c, d);
    RegionsOf(d);
    RaisesFace(d, f, EmptyLoop(f, j));
    hide Raises, GoodReferences, Listing;
  }

  // ------------------------------------------------------------------ windings

  /** A loop's winding in one direction, 0 for a vertex loop. */
  ghost function Turn(l: Loop, v: bool): int {
    if l.vertex.Some? then 0 else if v then l.windingV else l.winding
  }

  lemma {:induction false} WoundUntouched(c: CellData, l: nat, loop: Loop, loops: seq<nat>, v: bool)
    requires AllBelow(loops, |c.loops|) && l < |c.loops| && l !in loops
    ensures Wound(c.(loops := c.loops[l := loop]), loops, v) == Wound(c, loops, v)
  {
    if loops != [] {
      WoundUntouched(c, l, loop, loops[..|loops| - 1], v);
    }
  }

  lemma {:induction false} WoundOnce(c: CellData, l: nat, loop: Loop, loops: seq<nat>, v: bool)
    requires AllBelow(loops, |c.loops|) && l < |c.loops| && l in loops && !Repeated(loops, l)
    ensures Wound(c.(loops := c.loops[l := loop]), loops, v) == Wound(c, loops, v) + Turn(loop, v) - Turn(c.loops[l], v)
  {
    var k := |loops| - 1;
    assert loops == loops[..k] + [loops[k]];
    RepeatedLast(loops, l);
    hide Repeated;
    if loops[k] == l {
      WoundUntouched(c, l, loop, loops[..k], v);
    } else {
      WoundOnce(c, l, loop, loops[..k], v);
    }
  }

  /** Where every other loop is a vertex loop or does not wind, the sum is the one loop's winding. */
  lemma {:induction false} WoundOnly(c: CellData, loops: seq<nat>, v: bool, j: nat)
    requires AllBelow(loops, |c.loops|)
    requires forall k :: 0 <= k < |loops| && k != j ==> Turn(c.loops[loops[k]], v) == 0
    ensures Wound(c, loops, v) == if j < |loops| then Turn(c.loops[loops[j]], v) else 0
  {
    if loops != [] {
      var k := |loops| - 1;
      WoundOnly(c, loops[..k], v, j);
    }
  }

  lemma RaisesWinding(c: CellData, f: nat)
    requires GoodReferences(c) && Regions(c) && f < |c.faces|
    ensures (exists p :: Raises(c, WindingMismatch(f, p))) <==>
      Unbalanced(c, c.faces[f]) || exists p :: 0 <= p < |c.faces[f].loops| &&
                                               WindsWrongly(c.faces[f], c.loops[c.faces[f].loops[p]])
  {
    hide GoodReferences, Listing, Repeats, Wound, Pole, WindsWrongly, Unbalanced, IsOpen, Raises;
    forall p: nat
      ensures Raises(c, WindingMismatch(f, p)) <==> LoopIssue(c, WindingMismatch(f, p), f)
    {
      RaisesFace(c, f, WindingMismatch(f, p));
    }
    if Unbalanced(c, c.faces[f]) {
      assert LoopIssue(c, WindingMismatch(f, 0), f);
    }
    if p :| 0 <= p < |c.faces[f].loops| && WindsWrongly(c.faces[f], c.loops[c.faces[f].loops[p]]) {
      assert LoopIssue(c, WindingMismatch(f, p), f);
    }
  }

  /** Some loop of the face is a vertex loop. */
  ghost predicate HasVertexLoop(c: CellData, f: nat)
    requires f < |c.faces| && AllBelow(c.faces[f].loops, |c.loops|)
  {
    exists k :: 0 <= k < |c.faces[f].loops| && c.loops[c.faces[f].loops[k]].vertex.Some?
  }

  /** A clean face's loops wind as its surface allows and balance, up to a pole. */
  lemma CleanWindings(c: CellData, f: nat)
    requires Clean(c) && f < |c.faces|
    ensures Regions(c) && !Unbalanced(c, c.faces[f])
    ensures forall p :: 0 <= p < |c.faces[f].loops| ==> !WindsWrongly(c.faces[f], c.loops[c.faces[f].loops[p]])
    ensures forall p :: 0 <= p < |c.faces[f].loops| ==> !Repeated(c.faces[f].loops, c.faces[f].loops[p])
    ensures forall p :: 0 <= p < |c.faces[f].loops| && c.loops[c.faces[f].loops[p]].vertex.None? ==>
      c.loops[c.faces[f].loops[p]].fins != []
  {
    hide Wound, Pole, WindsWrongly, Unbalanced, IsOpen, Raises, Repeated, LoopCount;
    CleanParts(c, WindingMismatch(f, 0));
    assert !LoopIssue(c, WindingMismatch(f, 0), f);
    OwnedOnce(c);
    forall p | 0 <= p < |c.faces[f].loops|
      ensures !WindsWrongly(c.faces[f], c.loops[c.faces[f].loops[p]])
      ensures c.loops[c.faces[f].loops[p]].vertex.None? ==> c.loops[c.faces[f].loops[p]].fins != []
      ensures !Repeated(c.faces[f].loops, c.faces[f].loops[p])
    {
      CleanParts(c, WindingMismatch(f, p));
      assert !LoopIssue(c, WindingMismatch(f, p), f);
      CleanParts(c, EmptyLoop(f, p));
      assert !LoopIssue(c, EmptyLoop(f, p), f);
      LoopCountHas(c.faces, f, c.faces[f].loops[p]);
      CountsOf(c.faces[f].loops, c.faces[f].loops[p]);
    }
  }

  ghost function Rewound(c: CellData, l: nat, w: int, wv: int): CellData
    requires l < |c.loops|
  {
    c.(loops := c.loops[l := c.loops[l].(winding := w, windingV := wv)])
  }

  /** What a change of one loop's windings does to the face's checks. */
  lemma RewoundChecks(c: CellData, f: nat, j: nat, w: int, wv: int)
    requires Clean(c) && f < |c.faces| && j < |c.faces[f].loops|
    ensures var l := c.faces[f].loops[j]; l < |c.loops| && Regions(c)
    ensures var l, d, face := c.faces[f].loops[j], Rewound(c, c.faces[f].loops[j], w, wv), c.faces[f];
      c.loops[l].vertex.None? ==>
        && GoodReferences(d) && Regions(d) && d.faces[f] == face
        && Wound(d, face.loops, false) == Wound(c, face.loops, false) + w - c.loops[l].winding
        && Wound(d, face.loops, true) == Wound(c, face.loops, true) + wv - c.loops[l].windingV
        && (HasVertexLoop(d, f) <==> HasVertexLoop(c, f))
  {
    CleanWindings(c, f);
    var l := c.faces[f].loops[j];
    CleanRefers(c);
    if c.loops[l].vertex.None? {
      var loop := c.loops[l].(winding := w, windingV := wv);
      var d := c.(loops := c.loops[l := loop]);
      assert !BadReference(c, LoopReference(l));
      StillRefers(c, d);
      RegionsOf(d);
      hide GoodReferences, Raises, Wound, Repeated, WindsWrongly, Unbalanced;
      WoundOnce(c, l, loop, c.faces[f].loops, false);
      WoundOnce(c, l, loop, c.faces[f].loops, true);
      forall k | 0 <= k < |c.faces[f].loops|
        ensures d.loops[d.faces[f].loops[k]].vertex.Some? <==> c.loops[c.faces[f].loops[k]].vertex.Some?
      {
      }
    }
  }

  /** Some winding of the face is reported. */
  ghost predicate ReportsWinding(c: CellData, f: nat) {
    exists p :: Raises(c, WindingMismatch(f, p))
  }

  /** Other windings of one loop are always reported, unless a cone or sphere has a vertex loop. */
  lemma WindingFound(c: CellData, f: nat, j: nat, w: int, wv: int)
    requires Clean(c) && f < |c.faces| && j < |c.faces[f].loops|
    ensures var l := c.faces[f].loops[j]; l < |c.loops| && Regions(c)
    ensures var l, kind := c.faces[f].loops[j], c.faces[f].surface.kind;
      c.loops[l].vertex.None? && (kind in {Plane, Cylinder, Torus, Spline} || !HasVertexLoop(c, f)) ==>
        (ReportsWinding(Rewound(c, l, w, wv), f) <==> w != c.loops[l].winding || wv != c.loops[l].windingV)
  {
    CleanWindings(c, f);
    RewoundChecks(c, f, j, w, wv);
    var l, face := c.faces[f].loops[j], c.faces[f];
    var d := Rewound(c, l, w, wv);
    hide GoodReferences, Raises, Wound, Repeated;
    if c.loops[l].vertex.None? && (face.surface.kind in {Plane, Cylinder, Torus, Spline} || !HasVertexLoop(c, f)) {
      RaisesWinding(d, f);
      assert !WindsWrongly(face, c.loops[face.loops[j]]);
      assert !Unbalanced(c, face) && !Pole(c, face) && !Pole(d, face);
    }
  }

  /** With a vertex loop, a cone or sphere is reported exactly if a v winding changed or it winds twice or more. */
  lemma PoleWindingFound(c: CellData, f: nat, j: nat, w: int, wv: int)
    requires Clean(c) && f < |c.faces| && j < |c.faces[f].loops|
    ensures var l := c.faces[f].loops[j]; l < |c.loops| && Regions(c)
    ensures var l, kind := c.faces[f].loops[j], c.faces[f].surface.kind;
      c.loops[l].vertex.None? && kind in {Cone, Sphere} && HasVertexLoop(c, f) ==>
        (ReportsWinding(Rewound(c, l, w, wv), f) <==>
          wv != c.loops[l].windingV ||
          Wound(c, c.faces[f].loops, false) + w - c.loops[l].winding !in {-1, 0, 1})
  {
    CleanWindings(c, f);
    RewoundChecks(c, f, j, w, wv);
    var l, face := c.faces[f].loops[j], c.faces[f];
    var d := Rewound(c, l, w, wv);
    hide GoodReferences, Raises, Wound, Repeated;
    if c.loops[l].vertex.None? && face.surface.kind in {Cone, Sphere} && HasVertexLoop(c, f) {
      RaisesWinding(d, f);
      assert !WindsWrongly(face, c.loops[face.loops[j]]);
      assert !Unbalanced(c, face);
    }
  }

  /** A band that winds once round a cone or sphere is reported exactly if no vertex loop closes it. */
  lemma BandNeedsPole(c: CellData, f: nat, j: nat)
    requires GoodReferences(c) && Regions(c) && f < |c.faces| && j < |c.faces[f].loops|
    requires c.faces[f].surface.kind in {Cone, Sphere}
    requires c.loops[c.faces[f].loops[j]].vertex.None? && c.loops[c.faces[f].loops[j]].winding in {-1, 1}
    requires forall k :: 0 <= k < |c.faces[f].loops| ==> Turn(c.loops[c.faces[f].loops[k]], true) == 0
    requires forall k :: 0 <= k < |c.faces[f].loops| && k != j ==> Turn(c.loops[c.faces[f].loops[k]], false) == 0
    ensures ReportsWinding(c, f) <==> !HasVertexLoop(c, f)
  {
    var loops := c.faces[f].loops;
    RaisesWinding(c, f);
    hide GoodReferences, Raises, Wound;
    WoundOnly(c, loops, false, j);
    WoundOnly(c, loops, true, |loops|);
  }

  // ------------------------------------------------------------------ open loops

  /** A loop of edges that all have vertices, one of whose fins is turned round. */
  lemma OpensWhenTurned(c: CellData, d: CellData, l: Loop, p: nat)
    requires !IsOpen(c, l) && l.vertex.None? && p < |l.fins|
    requires forall q :: 0 <= q < |l.fins| && q != p ==> l.fins[q] != l.fins[p]
    requires forall q :: 0 <= q < |l.fins| && q != p ==> FinEnds(d, l.fins[q]) == FinEnds(c, l.fins[q])
    requires FinEnds(d, l.fins[p]) == (FinEnds(c, l.fins[p]).1, FinEnds(c, l.fins[p]).0)
    requires FinEnds(c, l.fins[p]).0.None? <==> FinEnds(c, l.fins[p]).1.None?
    ensures IsOpen(d, l) <==> FinEnds(c, l.fins[p]).0 != FinEnds(c, l.fins[p]).1
  {
    hide FinEnds;
    var ends := FinEnds(c, l.fins[p]);
    if ends.0 == ends.1 {
      assert forall q :: 0 <= q < |l.fins| ==> FinEnds(d, l.fins[q]) == FinEnds(c, l.fins[q]);
      assert forall q :: 0 <= q < |l.fins| ==> (Breaks(d, l.fins, q) <==> Breaks(c, l.fins, q));
    } else {
      assert !Breaks(c, l.fins, p);
      assert Breaks(d, l.fins, p);
    }
  }

  lemma CleanFin(c: CellData, f: nat, j: nat, p: nat)
    requires Clean(c) && f < |c.faces| && j < |c.faces[f].loops|
    requires c.faces[f].loops[j] < |c.loops| && p < |c.loops[c.faces[f].loops[j]].fins|
    ensures var l := c.loops[c.faces[f].loops[j]];
      && !IsOpen(c, l) && l.fins[p] < |c.fins| && c.fins[l.fins[p]].edge < |c.edges|
      && forall q :: 0 <= q < |l.fins| && q != p ==> l.fins[q] != l.fins[p]
    ensures var l := c.loops[c.faces[f].loops[j]];
      var e := c.edges[c.fins[l.fins[p]].edge];
      e.start.None? <==> e.end.None?
  {
    CleanParts(c, OpenLoop(f, j));
    assert !LoopIssue(c, OpenLoop(f, j), f);
    Referred(c);
    OwnedOnce(c);
    var i := c.faces[f].loops[j];
    var l := c.loops[i];
    hide GoodReferences, Raises, IsOpen, FinCount, CountOf;
    FinCountHas(c.loops, i, l.fins[p]);
    CountsOf(l.fins, l.fins[p]);
    CleanParts(c, RingEdgeWithVertex(c.fins[l.fins[p]].edge));
  }

  /** A fin turned round opens its loop exactly if its edge has two different vertices. */
  lemma TurnedFinFound(c: CellData, f: nat, j: nat, p: nat)
    requires Clean(c) && f < |c.faces| && j < |c.faces[f].loops|
    requires c.faces[f].loops[j] < |c.loops| && p < |c.loops[c.faces[f].loops[j]].fins|
    requires c.loops[c.faces[f].loops[j]].vertex.None?
    ensures var k := c.loops[c.faces[f].loops[j]].fins[p];
      && k < |c.fins| && c.fins[k].edge < |c.edges|
      && (Raises(c.(fins := c.fins[k := c.fins[k].(forward := !c.fins[k].forward)]), OpenLoop(f, j)) <==>
          c.edges[c.fins[k].edge].start != c.edges[c.fins[k].edge].end)
  {
    CleanRefers(c);
    CleanFin(c, f, j, p);
    var l := c.loops[c.faces[f].loops[j]];
    var k := l.fins[p];
    var d := c.(fins := c.fins[k := c.fins[k].(forward := !c.fins[k].forward)]);
    StillRefers(c, d);
    RegionsOf(d);
    RaisesFace(d, f, OpenLoop(f, j));
    hide GoodReferences, Raises, IsOpen, Listing;
    OpensWhenTurned(c, d, l, p);
  }

  /** An edge that loses its vertices opens a loop exactly if it is not alone in it. */
  lemma RingInLoopFound(c: CellData, f: nat, j: nat, p: nat)
    requires Clean(c) && f < |c.faces| && j < |c.faces[f].loops|
    requires c.faces[f].loops[j] < |c.loops| && p < |c.loops[c.faces[f].loops[j]].fins|
    requires c.loops[c.faces[f].loops[j]].vertex.None?
    ensures var l := c.loops[c.faces[f].loops[j]];
      && l.fins[p] < |c.fins| && c.fins[l.fins[p]].edge < |c.edges|
    ensures var l := c.loops[c.faces[f].loops[j]];
      var i := c.fins[l.fins[p]].edge;
      Raises(c.(edges := c.edges[i := c.edges[i].(start := None, end := None)]), OpenLoop(f, j)) <==> |l.fins| > 1
  {
    CleanRefers(c);
    CleanFin(c, f, j, p);
    var l := c.loops[c.faces[f].loops[j]];
    var i := c.fins[l.fins[p]].edge;
    var d := c.(edges := c.edges[i := c.edges[i].(start := None, end := None)]);
    assert !BadReference(c, EdgeReference(i));
    StillRefers(c, d);
    RegionsOf(d);
    RaisesFace(d, f, OpenLoop(f, j));
    hide GoodReferences, Raises, Listing;
    assert FinEnds(d, l.fins[p]) == (None, None);
    assert Breaks(d, l.fins, p);
    if |l.fins| == 1 {
      assert l.fins == [l.fins[p]];
    }
  }

  // ------------------------------------------------------------------ seams

  lemma RaisesAround(c: CellData, x: Issue)
    requires GoodReferences(c) && (x.SeamEdge? || x.EdgeAccount?)
    ensures Raises(c, x) <==> AroundIssue(c, x)
  {
    hide GoodReferences, AroundIssue;
  }

  /** Some loop of the face has the fin. */
  ghost predicate InFace(c: CellData, f: nat, k: nat)
    requires f < |c.faces| && AllBelow(c.faces[f].loops, |c.loops|)
  {
    exists j :: 0 <= j < |c.faces[f].loops| && k in c.loops[c.faces[f].loops[j]].fins
  }

  lemma FaceHasIs(c: CellData, f: nat, k: nat)
    requires f < |c.faces| && AllBelow(c.faces[f].loops, |c.loops|)
    ensures FaceHas(c, c.faces[f], k) <==> InFace(c, f, k)
  {
  }

  /** Every fin and loop has one owner. */
  ghost predicate Owned(c: CellData) {
    && Regions(c)
    && (forall k :: 0 <= k < |c.fins| ==> FinCount(c.loops, k) == 1)
    && forall l :: 0 <= l < |c.loops| ==> LoopCount(c.faces, l) == 1
  }

  lemma {:induction false} SomeLoopHas(loops: seq<Loop>, k: nat) returns (l: nat)
    requires FinCount(loops, k) > 0
    ensures l < |loops| && k in loops[l].fins
  {
    hide CountOf;
    var n := |loops| - 1;
    CountsOf(loops[n].fins, k);
    if CountOf(loops[n].fins, k) > 0 {
      l := n;
    } else {
      l := SomeLoopHas(loops[..n], k);
    }
  }

  lemma {:induction false} SomeFaceHas(faces: seq<CFace>, l: nat) returns (f: nat)
    requires LoopCount(faces, l) > 0
    ensures f < |faces| && l in faces[f].loops
  {
    hide CountOf;
    var n := |faces| - 1;
    CountsOf(faces[n].loops, l);
    if CountOf(faces[n].loops, l) > 0 {
      f := n;
    } else {
      f := SomeFaceHas(faces[..n], l);
    }
  }

  lemma {:induction false} OneLoopHas(loops: seq<Loop>, k: nat, l: nat, m: nat)
    requires l < m < |loops| && k in loops[l].fins && k in loops[m].fins
    ensures FinCount(loops, k) > 1
  {
    hide CountOf;
    var n := |loops| - 1;
    if m < n {
      OneLoopHas(loops[..n], k, l, m);
    } else {
      FinCountHas(loops[..n], l, k);
      CountsOf(loops[l].fins, k);
      CountsOf(loops[m].fins, k);
    }
  }

  lemma {:induction false} OneFaceHas(faces: seq<CFace>, l: nat, f: nat, g: nat)
    requires f < g < |faces| && l in faces[f].loops && l in faces[g].loops
    ensures LoopCount(faces, l) > 1
  {
    hide CountOf;
    var n := |faces| - 1;
    if g < n {
      OneFaceHas(faces[..n], l, f, g);
    } else {
      LoopCountHas(faces[..n], f, l);
      CountsOf(faces[f].loops, l);
      CountsOf(faces[g].loops, l);
    }
  }

  /** A fin of an owned cell is in one face, and that is the one the search finds. */
  lemma FinFaceIs(c: CellData, k: nat, f: nat)
    requires Owned(c) && k < |c.fins| && f < |c.faces|
    ensures FinFace(c, k).Some? && FinFace(c, k).value < |c.faces|
    ensures InFace(c, f, k) <==> FinFace(c, k) == Some(f)
  {
    hide FaceHas, FinCount, LoopCount, FaceFrom, InFace;
    CellValidator.FaceFromIs(c, k, 0);
    var l := SomeLoopHas(c.loops, k);
    var g := SomeFaceHas(c.faces, l);
    InFaceFrom(c, g, k, l);
    FaceHasIs(c, g, k);
    FaceHasIs(c, f, k);
    var h := FinFace(c, k).value;
    FaceHasIs(c, h, k);
    if InFace(c, f, k) && f != h {
      SameFace(c, k, f, h);
    }
  }

  lemma InFaceFrom(c: CellData, g: nat, k: nat, l: nat)
    requires Regions(c) && g < |c.faces| && l in c.faces[g].loops && l < |c.loops| && k in c.loops[l].fins
    ensures InFace(c, g, k)
  {
    var j :| 0 <= j < |c.faces[g].loops| && c.faces[g].loops[j] == l;
  }

  lemma SameFace(c: CellData, k: nat, f: nat, g: nat)
    requires Owned(c) && k < |c.fins| && f < |c.faces| && g < |c.faces| && InFace(c, f, k) && InFace(c, g, k)
    ensures f == g
  {
    hide FinCount, LoopCount;
    var i :| 0 <= i < |c.faces[f].loops| && k in c.loops[c.faces[f].loops[i]].fins;
    var j :| 0 <= j < |c.faces[g].loops| && k in c.loops[c.faces[g].loops[j]].fins;
    var l, m := c.faces[f].loops[i], c.faces[g].loops[j];
    if l < m {
      OneLoopHas(c.loops, k, l, m);
    } else if m < l {
      OneLoopHas(c.loops, k, m, l);
    } else if f < g {
      OneFaceHas(c.faces, l, f, g);
    } else if g < f {
      OneFaceHas(c.faces, l, g, f);
    }
  }

  /** Two fins of edge i are in one face. */
  ghost predicate TwoInFace(c: CellData, i: nat)
    requires Regions(c)
  {
    exists f, k, l :: 0 <= f < |c.faces| && 0 <= k < l < |c.fins| && c.fins[k].edge == i && c.fins[l].edge == i &&
                      InFace(c, f, k) && InFace(c, f, l)
  }

  lemma {:induction false} FinsOnRise(fins: seq<Fin>, i: nat, a: nat, b: nat)
    requires a < b < |FinsOn(fins, i)|
    ensures FinsOn(fins, i)[a] < FinsOn(fins, i)[b] < |fins|
    decreases |fins|
  {
    if fins != [] {
      var n := |fins| - 1;
      var before := FinsOn(fins[..n], i);
      if b < |before| {
        FinsOnRise(fins[..n], i, a, b);
      } else {
        assert before[a] in before;
        FinsOnIs(fins[..n], i, before[a]);
      }
    }
  }

  lemma OwnedRegions(c: CellData)
    requires Owned(c)
    ensures Regions(c)
  {
  }

  lemma TwiceIsTwo(c: CellData, i: nat)
    requires Owned(c) && i < |c.edges| && Twice(FacesOn(c, i))
    ensures TwoInFace(c, i)
  {
    OwnedRegions(c);
    hide FinsOn, FinFace, InFace, Owned;
    var on := FinsOn(c.fins, i);
    var a, b :| 0 <= a < b < |on| && FacesOn(c, i)[a] == FacesOn(c, i)[b];
    FinsOnRise(c.fins, i, a, b);
    var k, l := on[a], on[b];
    assert k in on && l in on;
    FinsOnIs(c.fins, i, k);
    FinsOnIs(c.fins, i, l);
    assert FinFace(c, k) == FinFace(c, l);
    FaceOfFin(c, k);
    FaceOfFin(c, l);
  }

  lemma FaceOfFin(c: CellData, k: nat)
    requires Owned(c) && k < |c.fins|
    ensures FinFace(c, k).Some? && FinFace(c, k).value < |c.faces|
    ensures Regions(c) && InFace(c, FinFace(c, k).value, k)
  {
    hide FinFace, FaceHas, FinCount, LoopCount, FaceFrom, InFace;
    var l := SomeLoopHas(c.loops, k);
    var g := SomeFaceHas(c.faces, l);
    InFaceFrom(c, g, k, l);
    FinFaceIs(c, k, g);
  }

  lemma TwoAreTwice(c: CellData, i: nat, f: nat, k: nat, l: nat)
    requires Owned(c) && i < |c.edges| && f < |c.faces| && k < l < |c.fins|
    requires c.fins[k].edge == i && c.fins[l].edge == i && Regions(c) && InFace(c, f, k) && InFace(c, f, l)
    ensures Twice(FacesOn(c, i))
  {
    hide FinsOn, FinFace, InFace, Owned;
    var on := FinsOn(c.fins, i);
    FinsOnIs(c.fins, i, k);
    FinsOnIs(c.fins, i, l);
    FinFaceIs(c, k, f);
    FinFaceIs(c, l, f);
    var a :| 0 <= a < |on| && on[a] == k;
    var b :| 0 <= b < |on| && on[b] == l;
    var lo, hi := if a < b then a else b, if a < b then b else a;
    assert FacesOn(c, i)[lo] == Some(f) && FacesOn(c, i)[hi] == Some(f);
  }

  /** In a cell whose fins and loops have one owner each, a seam is reported exactly if two fins of the edge are in one
      face. */
  lemma SeamFound(c: CellData, i: nat)
    requires GoodReferences(c) && Owned(c) && i < |c.edges|
    ensures Regions(c)
    ensures Raises(c, SeamEdge(i)) <==> TwoInFace(c, i)
  {
    RaisesAround(c, SeamEdge(i));
    OwnedRegions(c);
    hide Raises, GoodReferences, FacesOn, InFace, Owned;
    if Twice(FacesOn(c, i)) {
      TwiceIsTwo(c, i);
    }
    if TwoInFace(c, i) {
      var f, k, l :| 0 <= f < |c.faces| && 0 <= k < l < |c.fins| && c.fins[k].edge == i && c.fins[l].edge == i &&
        InFace(c, f, k) && InFace(c, f, l);
      TwoAreTwice(c, i, f, k, l);
    }
  }

  /** A fin put on the edge of another fin of its face makes that edge a seam. */
  lemma SeamMade(c: CellData, f: nat, k: nat, l: nat)
    requires Clean(c) && Regions(c) && f < |c.faces| && k < |c.fins| && l < |c.fins| && k != l
    requires InFace(c, f, k) && InFace(c, f, l)
    ensures Raises(c.(fins := c.fins[k := c.fins[k].(edge := c.fins[l].edge)]), SeamEdge(c.fins[l].edge))
  {
    CleanRefers(c);
    OwnedOnce(c);
    Referred(c);
    var d := c.(fins := c.fins[k := c.fins[k].(edge := c.fins[l].edge)]);
    StillRefers(c, d);
    hide Raises, GoodReferences, FinCount, LoopCount;
    SeamFound(d, c.fins[l].edge);
    assert InFace(d, f, k) && InFace(d, f, l);
    var lo, hi := if k < l then k else l, if k < l then l else k;
    assert 0 <= lo < hi < |d.fins| && d.fins[lo].edge == d.fins[hi].edge && InFace(d, f, lo) && InFace(d, f, hi);
  }
}

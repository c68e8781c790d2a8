/** What the conversion promises the validator: the cell of a valid seamed solid raises no structural issue. */
module ConversionAccepted {
  import opened Basics
  import opened Reals
  import opened SeamRuns
  import opened CellModel
  import opened CellConversion
  import opened CellChecks

  // ------------------------------------------------------------------ valid seamed models

  /** The shells that list a face, with repetitions. */
  function Owners(shells: seq<seq<nat>>, f: nat): seq<nat> {
    if shells == [] then []
    else
      var k := |shells| - 1;
      Owners(shells[..k], f) + Copies(CountOf(shells[k], f), k)
  }

  ghost predicate EdgeInUse(m: Seamed, e: nat) {
    exists f :: 0 <= f < |m.faces| && UsedIn(m.faces[f], e)
  }

  ghost predicate VertexInUse(m: Seamed, v: nat) {
    exists e :: 0 <= e < |m.edges| && (m.edges[e].start == v || m.edges[e].end == v)
  }

  ghost predicate GoodFace(m: Seamed, face: SFace) {
    && face.loops != []
    && (forall l :: 0 <= l < |face.loops| ==> face.loops[l] != [])
    && forall l, u :: 0 <= l < |face.loops| && u in face.loops[l] ==> u.edge < |m.edges|
  }

  /** The seamed validator finds no bad reference, nothing unused, nothing empty, and each face in exactly one
      shell, once. */
  ghost predicate ValidSeamed(m: Seamed) {
    && (forall e :: 0 <= e < |m.edges| ==> m.edges[e].start < |m.vertices| && m.edges[e].end < |m.vertices|)
    && (forall f :: 0 <= f < |m.faces| ==> GoodFace(m, m.faces[f]))
    && (forall s :: 0 <= s < |m.shells| ==> m.shells[s] != [] && AllBelow(m.shells[s], |m.faces|))
    && (forall v :: 0 <= v < |m.vertices| ==> VertexInUse(m, v))
    && (forall e :: 0 <= e < |m.edges| ==> EdgeInUse(m, e))
    && forall f :: 0 <= f < |m.faces| ==> |Owners(m.shells, f)| == 1
  }

  // ------------------------------------------------------------------ fins, loops and faces

  ghost predicate RunShown(c: CellData, l: Loop, run: Run, edgeMap: map<nat, nat>) {
    && l.winding == run.winding && l.vertex == None && l.windingV == 0 && |l.fins| == |run.uses|
    && forall j :: 0 <= j < |l.fins| ==> l.fins[j] < |c.fins| && c.fins[l.fins[j]] == FinOf(run.uses[j], edgeMap)
  }

  ghost predicate FinsOnce(c: CellData) {
    forall k: nat :: FinCount(c.loops, k) == if k < |c.fins| then 1 else 0
  }

  lemma RunAdded(c: CellData, run: Run, edgeMap: map<nat, nat>)
    requires FinsOnce(c)
    ensures FinsOnce(WithRun(c, run, edgeMap))
  {
    var d := WithRun(c, run, edgeMap);
    forall k: nat
      ensures FinCount(d.loops, k) == if k < |d.fins| then 1 else 0
    {
      assert d.loops[..|c.loops|] == c.loops;
      CountInterval(|c.fins|, |run.uses|, k);
    }
  }

  lemma RunShownAdded(c: CellData, run: Run, edgeMap: map<nat, nat>)
    ensures var d := WithRun(c, run, edgeMap); RunShown(d, d.loops[|c.loops|], run, edgeMap)
  {
  }

  lemma StillShown(c: CellData, more: CellData, l: Loop, run: Run, edgeMap: map<nat, nat>)
    requires RunShown(c, l, run, edgeMap) && c.fins <= more.fins
    ensures RunShown(more, l, run, edgeMap)
  {
  }

  /** The runs from loop number `first` on. */
  ghost predicate RunsShown(c: CellData, first: nat, runs: seq<Run>, edgeMap: map<nat, nat>) {
    && first + |runs| <= |c.loops|
    && forall r :: 0 <= r < |runs| ==> RunShown(c, c.loops[first + r], runs[r], edgeMap)
  }

  lemma StillAllShown(c: CellData, more: CellData, first: nat, runs: seq<Run>, edgeMap: map<nat, nat>)
    requires RunsShown(c, first, runs, edgeMap) && c.fins <= more.fins && c.loops <= more.loops
    ensures RunsShown(more, first, runs, edgeMap)
  {
    hide RunShown;
    forall r | 0 <= r < |runs|
      ensures RunShown(more, more.loops[first + r], runs[r], edgeMap)
    {
      StillShown(c, more, c.loops[first + r], runs[r], edgeMap);
    }
  }

  lemma {:induction false} RunsAdded(c: CellData, runs: seq<Run>, edgeMap: map<nat, nat>)
    requires FinsOnce(c)
    ensures var d := WithRuns(c, runs, edgeMap);
      && FinsOnce(d) && c.fins <= d.fins && c.loops <= d.loops && |d.loops| == |c.loops| + |runs|
      && RunsShown(d, |c.loops|, runs, edgeMap)
  {
    hide FinsOnce, RunShown;
    if runs != [] {
      var k := |runs| - 1;
      RunsAdded(c, runs[..k], edgeMap);
      var b := WithRuns(c, runs[..k], edgeMap);
      var d := WithRun(b, runs[k], edgeMap);
      RunAdded(b, runs[k], edgeMap);
      RunShownAdded(b, runs[k], edgeMap);
      StillAllShown(b, d, |c.loops|, runs[..k], edgeMap);
    }
  }

  /** Each of the first n faces shows its runs, in loops of its own. */
  ghost predicate FaceShown(c: CellData, f: nat, face: SFace, runs: seq<Run>, edgeMap: map<nat, nat>, front: nat,
                            back: nat) {
    && f < |c.faces|
    && exists first: nat ::
      (RunsShown(c, first, runs, edgeMap) &&
       c.faces[f] == CFace(face.surface, face.forward, Interval(first, |runs|), front, back))
  }

  ghost predicate LoopsOnce(c: CellData) {
    forall l: nat :: LoopCount(c.faces, l) == if l < |c.loops| then 1 else 0
  }

  lemma {:induction false} LoopsOnceAdded(c: CellData, d: CellData, x: CFace, n: nat)
    requires LoopsOnce(c) && d.faces == c.faces + [x] && x.loops == Interval(|c.loops|, n) && |d.loops| == |c.loops| + n
    ensures LoopsOnce(d)
  {
    forall l: nat
      ensures LoopCount(d.faces, l) == if l < |d.loops| then 1 else 0
    {
      assert d.faces[..|c.faces|] == c.faces;
      CountInterval(|c.loops|, n, l);
    }
  }

  lemma FaceAdded(c: CellData, face: SFace, runs: seq<Run>, edgeMap: map<nat, nat>, front: nat, back: nat)
    requires FinsOnce(c) && LoopsOnce(c)
    ensures var d := WithFace(c, face, runs, edgeMap, front, back);
      && FinsOnce(d) && LoopsOnce(d) && c.fins <= d.fins && c.loops <= d.loops
      && |d.faces| == |c.faces| + 1 && d.faces[..|c.faces|] == c.faces
      && FaceShown(d, |c.faces|, face, runs, edgeMap, front, back)
  {
    hide RunShown;
    var b := WithRuns(c, runs, edgeMap);
    var d := WithFace(c, face, runs, edgeMap, front, back);
    RunsAdded(c, runs, edgeMap);
    WithRunsEdges(c, runs, edgeMap);
    assert d.loops == b.loops && d.fins == b.fins;
    StillAllShown(b, d, |c.loops|, runs, edgeMap);
    LoopsOnceAdded(c, d, d.faces[|c.faces|], |runs|);
  }

  lemma FaceStillShown(c: CellData, d: CellData, f: nat, face: SFace, runs: seq<Run>, edgeMap: map<nat, nat>,
                       front: nat, back: nat)
    requires FaceShown(c, f, face, runs, edgeMap, front, back) && c.fins <= d.fins && c.loops <= d.loops
    requires |c.faces| <= |d.faces| && d.faces[..|c.faces|] == c.faces
    ensures FaceShown(d, f, face, runs, edgeMap, front, back)
  {
    hide RunsShown;
    var first: nat :| RunsShown(c, first, runs, edgeMap) &&
      c.faces[f] == CFace(face.surface, face.forward, Interval(first, |runs|), front, back);
    StillAllShown(c, d, first, runs, edgeMap);
    assert d.faces[f] == c.faces[f];
  }

  ghost predicate AllShown(c: CellData, m: Seamed, plan: Plan, n: nat)
    requires n <= |m.faces| == |plan.runs|
  {
    forall f :: 0 <= f < n ==>
      FaceShown(c, f, m.faces[f], plan.runs[f], plan.edgeMap, Owner(m.shells, f), Twin(m.shells, Owner(m.shells, f)))
  }

  lemma {:induction false} FacesAdded(c: CellData, m: Seamed, plan: Plan, n: nat)
    requires n <= |m.faces| == |plan.runs| && FinsOnce(c) && LoopsOnce(c) && c.faces == []
    ensures var d := WithFaces(c, m, plan, n);
      FinsOnce(d) && LoopsOnce(d) && |d.faces| == n && AllShown(d, m, plan, n)
  {
    hide FinsOnce, LoopsOnce, FaceShown, Owner, Twin, WithFace;
    if n > 0 {
      FacesAdded(c, m, plan, n - 1);
      var b := WithFaces(c, m, plan, n - 1);
      var k := Owner(m.shells, n - 1);
      var d := WithFace(b, m.faces[n - 1], plan.runs[n - 1], plan.edgeMap, k, Twin(m.shells, k));
      FaceAdded(b, m.faces[n - 1], plan.runs[n - 1], plan.edgeMap, k, Twin(m.shells, k));
      forall f | 0 <= f < n
        ensures FaceShown(d, f, m.faces[f], plan.runs[f], plan.edgeMap, Owner(m.shells, f),
          Twin(m.shells, Owner(m.shells, f)))
      {
        if f < n - 1 {
          FaceStillShown(b, d, f, m.faces[f], plan.runs[f], plan.edgeMap, Owner(m.shells, f),
            Twin(m.shells, Owner(m.shells, f)));
        }
      }
    }
  }

  /** Every fin is some kept use's. */
  ghost predicate FinsFrom(c: CellData, runs: seq<seq<Run>>, edgeMap: map<nat, nat>) {
    forall k :: 0 <= k < |c.fins| ==> FinFrom(c.fins[k], runs, edgeMap)
  }

  ghost predicate FinFrom(x: Fin, runs: seq<seq<Run>>, edgeMap: map<nat, nat>) {
    exists f, u :: 0 <= f < |runs| && InRuns(runs[f], u) && x == FinOf(u, edgeMap)
  }

  lemma {:induction false} RunsFinsFrom(c: CellData, all: seq<seq<Run>>, f: nat, runs: seq<Run>, edgeMap: map<nat, nat>)
    requires FinsFrom(c, all, edgeMap) && f < |all| && runs <= all[f]
    ensures FinsFrom(WithRuns(c, runs, edgeMap), all, edgeMap)
  {
    if runs != [] {
      var k := |runs| - 1;
      RunsFinsFrom(c, all, f, runs[..k], edgeMap);
      var b := WithRuns(c, runs[..k], edgeMap);
      var d := WithRun(b, runs[k], edgeMap);
      forall i | 0 <= i < |d.fins|
        ensures FinFrom(d.fins[i], all, edgeMap)
      {
        if i >= |b.fins| {
          var u := runs[k].uses[i - |b.fins|];
          assert u in all[f][k].uses;
          assert InRuns(all[f], u);
        } else {
          assert FinFrom(b.fins[i], all, edgeMap);
        }
      }
    }
  }

  lemma {:induction false} FacesFinsFrom(c: CellData, m: Seamed, plan: Plan, n: nat)
    requires n <= |m.faces| == |plan.runs| && c.fins == []
    ensures FinsFrom(WithFaces(c, m, plan, n), plan.runs, plan.edgeMap)
  {
    hide FinFrom;
    if n > 0 {
      FacesFinsFrom(c, m, plan, n - 1);
      RunsFinsFrom(WithFaces(c, m, plan, n - 1), plan.runs, n - 1, plan.runs[n - 1], plan.edgeMap);
    }
  }

  /** A kept use has its fin. */
  lemma UseHasFin(c: CellData, f: nat, face: SFace, runs: seq<Run>, edgeMap: map<nat, nat>, front: nat, back: nat,
                  u: Use)
    returns (k: nat)
    requires FaceShown(c, f, face, runs, edgeMap, front, back) && InRuns(runs, u)
    ensures k < |c.fins| && c.fins[k] == FinOf(u, edgeMap)
  {
    var first: nat :| RunsShown(c, first, runs, edgeMap) &&
      c.faces[f] == CFace(face.surface, face.forward, Interval(first, |runs|), front, back);
    var r :| 0 <= r < |runs| && u in runs[r].uses;
    var j :| 0 <= j < |runs[r].uses| && runs[r].uses[j] == u;
    var l := c.loops[first + r];
    assert RunShown(c, l, runs[r], edgeMap);
    k := l.fins[j];
  }

  // ------------------------------------------------------------------ shells

  lemma {:induction false} CountSidesOf(s: seq<nat>, side: Side, f: nat, other: Side)
    ensures CountSides(SidesOf(s, side), (f, other)) == if side == other then CountOf(s, f) else 0
  {
    if s != [] {
      var k := |s| - 1;
      assert SidesOf(s, side)[..k] == SidesOf(s[..k], side);
      CountSidesOf(s[..k], side, f, other);
    }
  }

  lemma ListingAppend(shells: seq<Shell>, x: Shell, side: (nat, Side))
    ensures Listing(shells + [x], side) == Listing(shells, side) + Copies(CountSides(x.sides, side), |shells|)
  {
    assert (shells + [x])[..|shells|] == shells;
  }

  lemma {:induction false} FrontListing(shells: seq<seq<nat>>, f: nat)
    ensures Listing(FrontShells(shells), (f, Front)) == Owners(shells, f)
    ensures Listing(FrontShells(shells), (f, Back)) == []
  {
    if shells != [] {
      var k := |shells| - 1;
      var before, x := FrontShells(shells[..k]), Shell(1, SidesOf(shells[k], Front), [], []);
      FrontListing(shells[..k], f);
      assert FrontShells(shells) == before + [x];
      ListingAppend(before, x, (f, Front));
      ListingAppend(before, x, (f, Back));
      CountSidesOf(shells[k], Front, f, Front);
      CountSidesOf(shells[k], Front, f, Back);
    }
  }

  lemma {:induction false} AllInRange(s: seq<nat>, n: nat)
    requires AllBelow(s, n)
    ensures InRange(s, n) == s
  {
    if s != [] {
      AllInRange(s[..|s| - 1], n);
    }
  }

  lemma {:induction false} TwinsNumber(shells: seq<seq<nat>>, faces: nat, k: nat)
    requires k <= |shells|
    ensures |Twins(shells, faces, k).0| == TwinsBefore(shells, k)
  {
    if k > 0 {
      TwinsNumber(shells, faces, k - 1);
    }
  }

  function BackOf(shells: seq<seq<nat>>, faces: nat, k: nat): seq<(nat, Side)>
    requires k < |shells|
  {
    SidesOf(InRange(shells[k], faces), Back)
  }

  lemma TwinsStep(shells: seq<seq<nat>>, faces: nat, k: nat)
    requires k < |shells| && shells[k] != []
    ensures var (backs, voids) := Twins(shells, faces, k);
      |Twins(shells, faces, k + 1).0| == |backs| + 1 && Twins(shells, faces, k + 1).0[..|backs|] == backs
      && Twins(shells, faces, k + 1).0[|backs|].sides == BackOf(shells, faces, k)
  {
  }

  /** The back sides of face f listed among the twins of the first k shells, by the shells in o. */
  ghost predicate BackListed(shells: seq<seq<nat>>, all: seq<Shell>, f: nat, o: seq<nat>) {
    var back := Listing(all, (f, Back));
    && Listing(all, (f, Front)) == Owners(shells, f)
    && |back| == |o| && forall i :: 0 <= i < |back| ==> back[i] == Twin(shells, o[i])
  }

  lemma BackListedStep(shells: seq<seq<nat>>, all: seq<Shell>, x: Shell, k: nat, f: nat, o: seq<nat>)
    requires k < |shells| && shells[k] != [] && |all| == |shells| + TwinsBefore(shells, k)
    requires x.sides == SidesOf(shells[k], Back) && BackListed(shells, all, f, o)
    ensures BackListed(shells, all + [x], f, o + Copies(CountOf(shells[k], f), k))
  {
    hide Listing, Owners, TwinsBefore;
    CountSidesOf(shells[k], Back, f, Front);
    CountSidesOf(shells[k], Back, f, Back);
    ListingAppend(all, x, (f, Front));
    ListingAppend(all, x, (f, Back));
  }

  lemma OwnersStep(shells: seq<seq<nat>>, k: nat, f: nat)
    requires k < |shells|
    ensures Owners(shells[..k + 1], f) == Owners(shells[..k], f) + Copies(CountOf(shells[k], f), k)
  {
    assert shells[..k + 1][..k] == shells[..k];
  }

  lemma BackListingStep(shells: seq<seq<nat>>, faces: nat, k: nat, f: nat)
    requires k < |shells| && AllBelow(shells[k], faces)
    requires BackListed(shells, FrontShells(shells) + Twins(shells, faces, k).0, f, Owners(shells[..k], f))
    ensures BackListed(shells, FrontShells(shells) + Twins(shells, faces, k + 1).0, f, Owners(shells[..k + 1], f))
  {
    hide *;
    if shells[k] == [] {
      NoTwin(shells, faces, k);
      NoOwnerAdded(shells, k, f);
    } else {
      var all, backs := FrontShells(shells) + Twins(shells, faces, k).0, Twins(shells, faces, k + 1).0;
      TwinsStep(shells, faces, k);
      TwinsNumber(shells, faces, k);
      AllInRange(shells[k], faces);
      BackOfIs(shells, faces, k);
      OwnersStep(shells, k, f);
      BackListedStep(shells, all, backs[|backs| - 1], k, f, Owners(shells[..k], f));
      assert FrontShells(shells) + backs == all + [backs[|backs| - 1]];
    }
  }

  lemma BackOfIs(shells: seq<seq<nat>>, faces: nat, k: nat)
    requires k < |shells| && InRange(shells[k], faces) == shells[k]
    ensures BackOf(shells, faces, k) == SidesOf(shells[k], Back)
  {
  }

  lemma {:induction false} BackListing(shells: seq<seq<nat>>, faces: nat, k: nat, f: nat)
    requires k <= |shells| && forall s :: 0 <= s < |shells| ==> AllBelow(shells[s], faces)
    ensures BackListed(shells, FrontShells(shells) + Twins(shells, faces, k).0, f, Owners(shells[..k], f))
  {
    hide *;
    if k == 0 {
      NoTwins(shells, faces);
      FrontListed(shells, f);
      assert FrontShells(shells) + [] == FrontShells(shells);
    } else {
      BackListing(shells, faces, k - 1, f);
      BackListingStep(shells, faces, k - 1, f);
    }
  }

  lemma NoOwnerAdded(shells: seq<seq<nat>>, k: nat, f: nat)
    requires k < |shells| && shells[k] == []
    ensures Owners(shells[..k + 1], f) == Owners(shells[..k], f)
  {
    assert shells[..k + 1][..k] == shells[..k];
    assert CountOf(shells[..k + 1][k], f) == 0;
  }

  lemma FrontListed(shells: seq<seq<nat>>, f: nat)
    ensures BackListed(shells, FrontShells(shells), f, Owners(shells[..0], f))
  {
    FrontListing(shells, f);
  }

  lemma NoTwins(shells: seq<seq<nat>>, faces: nat)
    ensures Twins(shells, faces, 0) == ([], [])
  {
  }

  lemma NoTwin(shells: seq<seq<nat>>, faces: nat, k: nat)
    requires k < |shells| && shells[k] == []
    ensures Twins(shells, faces, k + 1) == Twins(shells, faces, k)
  {
  }

  lemma {:induction false} OwnersBelow(shells: seq<seq<nat>>, f: nat)
    ensures forall i :: 0 <= i < |Owners(shells, f)| ==>
      Owners(shells, f)[i] < |shells| && f in shells[Owners(shells, f)[i]]
    ensures forall k :: 0 <= k < |shells| && f in shells[k] ==> k in Owners(shells, f)
  {
    if shells != [] {
      var k := |shells| - 1;
      OwnersBelow(shells[..k], f);
      CountPositive(shells[k], f);
      var before, o := Owners(shells[..k], f), Owners(shells, f);
      forall i | 0 <= i < |o|
        ensures o[i] < |shells| && f in shells[o[i]]
      {
        if i < |before| {
          assert o[i] == before[i] && shells[..k][before[i]] == shells[before[i]];
        }
      }
      forall j | 0 <= j < |shells| && f in shells[j]
        ensures j in o
      {
        if j < k {
          assert shells[..k][j] == shells[j];
          assert j in before;
        } else {
          assert o[|before|] == k;
        }
      }
    }
  }

  lemma {:induction false} CountPositive(s: seq<nat>, x: nat)
    ensures CountOf(s, x) > 0 <==> x in s
  {
    if s != [] {
      CountPositive(s[..|s| - 1], x);
    }
  }

  /** The one shell that lists a face is its owner. */
  lemma OwnerListed(shells: seq<seq<nat>>, f: nat)
    requires |Owners(shells, f)| == 1
    ensures Owners(shells, f) == [Owner(shells, f)] && Owner(shells, f) < |shells|
  {
    var k := Owners(shells, f)[0];
    OwnersBelow(shells, f);
    assert Owners(shells, f) == [k];
    assert forall j :: 0 <= j < |shells| && f in shells[j] ==> j == k;
    OwnerIs(shells, f, k);
  }

  /** A face's two sides are listed once each, by its owner and by the owner's twin. */
  lemma SidesListed(m: Seamed, f: nat)
    requires ValidSeamed(m) && f < |m.faces|
    ensures var shells := FrontShells(m.shells) + Twins(m.shells, |m.faces|, |m.shells|).0;
      var k := Owner(m.shells, f);
      Listing(shells, (f, Front)) == [k] && Listing(shells, (f, Back)) == [Twin(m.shells, k)]
  {
    hide Twins, Owner, Twin, Listing, Owners, VertexInUse, EdgeInUse, GoodFace;
    OwnerListed(m.shells, f);
    BackListing(m.shells, |m.faces|, |m.shells|, f);
    assert m.shells[..|m.shells|] == m.shells;
  }

  /** The regions list the twins: the outer one's is region 0, the others' each their own. */
  ghost predicate TwinRegions(shells: seq<seq<nat>>, faces: nat, backs: seq<Shell>, voids: seq<Region>) {
    && (forall b :: 0 <= b < |backs| ==> TwinRegion(shells, faces, voids, b, backs[b]))
    && forall j :: 0 <= j < |voids| ==>
      voids[j].kind == Void && |voids[j].shells| == 1 && voids[j].shells[0] < |shells| + |backs|
  }

  ghost predicate TwinRegion(shells: seq<seq<nat>>, faces: nat, voids: seq<Region>, b: nat, x: Shell) {
    && x.sides != [] && x.wireEdges == [] && x.acorns == []
    && (forall i :: 0 <= i < |x.sides| ==> x.sides[i].0 < faces)
    && (if x.region == 0 then b == 0 && |shells| > 0 && shells[0] != []
        else 2 <= x.region < 2 + |voids| && voids[x.region - 2].shells == [|shells| + b])
  }

  lemma {:induction false} TwinRegionsHold(shells: seq<seq<nat>>, faces: nat, k: nat)
    requires k <= |shells| && forall s :: 0 <= s < |shells| ==> AllBelow(shells[s], faces)
    ensures TwinRegions(shells, faces, Twins(shells, faces, k).0, Twins(shells, faces, k).1)
  {
    if k > 0 {
      TwinRegionsHold(shells, faces, k - 1);
      AllInRange(shells[k - 1], faces);
      TwinsNumber(shells, faces, k - 1);
      TwinRegionsStep(shells, faces, k - 1);
    }
  }

  lemma TwinRegionsStep(shells: seq<seq<nat>>, faces: nat, k: nat)
    requires k < |shells| && InRange(shells[k], faces) == shells[k] && AllBelow(shells[k], faces)
    requires |Twins(shells, faces, k).0| == TwinsBefore(shells, k)
    requires TwinRegions(shells, faces, Twins(shells, faces, k).0, Twins(shells, faces, k).1)
    ensures TwinRegions(shells, faces, Twins(shells, faces, k + 1).0, Twins(shells, faces, k + 1).1)
  {
    hide InRange;
    var (backs, voids) := Twins(shells, faces, k);
    var (more, all) := Twins(shells, faces, k + 1);
    if shells[k] != [] {
      forall b | 0 <= b < |more|
        ensures TwinRegion(shells, faces, all, b, more[b])
      {
        if b < |backs| {
          assert TwinRegion(shells, faces, voids, b, backs[b]);
        }
      }
    }
  }

  // ------------------------------------------------------------------ plain loops

  ghost predicate PlainLoops(c: CellData) {
    forall l :: 0 <= l < |c.loops| ==> c.loops[l].vertex == None && c.loops[l].windingV == 0
  }

  lemma {:induction false} RunsPlain(c: CellData, runs: seq<Run>, edgeMap: map<nat, nat>)
    requires PlainLoops(c)
    ensures PlainLoops(WithRuns(c, runs, edgeMap))
  {
    if runs != [] {
      RunsPlain(c, runs[..|runs| - 1], edgeMap);
    }
  }

  lemma {:induction false} FacesPlain(c: CellData, m: Seamed, plan: Plan, n: nat)
    requires n <= |m.faces| == |plan.runs| && PlainLoops(c)
    ensures PlainLoops(WithFaces(c, m, plan, n))
  {
    if n > 0 {
      FacesPlain(c, m, plan, n - 1);
      RunsPlain(WithFaces(c, m, plan, n - 1), plan.runs[n - 1], plan.edgeMap);
    }
  }

  lemma {:induction false} InLoopCounted(loops: seq<Loop>, l: nat, k: nat)
    requires l < |loops| && k in loops[l].fins
    ensures FinCount(loops, k) > 0
  {
    var n := |loops| - 1;
    if l < n {
      InLoopCounted(loops[..n], l, k);
    } else {
      CountPositive(loops[n].fins, k);
    }
  }

  // ------------------------------------------------------------------ the parts of a converted cell

  /** What the conversion guarantees of a solid's or closed shell's cell, part by part. */
  ghost predicate Converted(c: CellData, m: Seamed, plan: Plan)
    requires PlanFits(m, plan)
  {
    && FinsOnce(c) && LoopsOnce(c) && PlainLoops(c) && FinsFrom(c, plan.runs, plan.edgeMap)
    && |c.faces| == |m.faces| && AllShown(c, m, plan, |m.faces|)
    && c.vertices == VerticesOf(m, plan)
    && |c.edges| == |plan.keptEdges|
    && (forall i :: 0 <= i < |c.edges| ==> c.edges[i] == EdgesOf(m, plan)[i].(fins := FinsOn(c.fins, i)))
    && ShellsBuilt(c, m)
  }

  ghost predicate ShellsBuilt(c: CellData, m: Seamed) {
    var (backs, voids) := Twins(m.shells, |m.faces|, |m.shells|);
    && c.shells == FrontShells(m.shells) + backs
    && c.regions == [Region(Void, if |m.shells| > 0 && m.shells[0] != [] then [Twin(m.shells, 0)] else []),
                     Region(if m.kind == ClosedShell then Void else SolidRegion, Interval(0, |m.shells|))] + voids
  }

  lemma SameLists(c: CellData, d: CellData, m: Seamed, plan: Plan)
    requires PlanFits(m, plan) && c.fins == d.fins && c.loops == d.loops && c.faces == d.faces
    requires FinsOnce(c) && LoopsOnce(c) && PlainLoops(c) && FinsFrom(c, plan.runs, plan.edgeMap)
    requires AllShown(c, m, plan, |m.faces|)
    ensures FinsOnce(d) && LoopsOnce(d) && PlainLoops(d) && FinsFrom(d, plan.runs, plan.edgeMap)
    ensures AllShown(d, m, plan, |m.faces|)
  {
    hide RunsShown, FinFrom, Owner, Twin;
    forall f | 0 <= f < |m.faces|
      ensures FaceShown(d, f, m.faces[f], plan.runs[f], plan.edgeMap, Owner(m.shells, f),
        Twin(m.shells, Owner(m.shells, f)))
    {
      assert c.faces[..|c.faces|] == c.faces && d.faces[..|c.faces|] == c.faces;
      FaceStillShown(c, d, f, m.faces[f], plan.runs[f], plan.edgeMap, Owner(m.shells, f),
        Twin(m.shells, Owner(m.shells, f)));
    }
  }

  lemma ShellsAreBuilt(w: CellData, m: Seamed, edgeMap: map<nat, nat>)
    requires m.kind == Solid || m.kind == ClosedShell
    ensures ShellsBuilt(WithShells(w, m, edgeMap), m)
    ensures var c := WithShells(w, m, edgeMap);
      c.vertices == w.vertices && c.edges == w.edges && c.fins == w.fins && c.loops == w.loops && c.faces == w.faces
  {
    hide Twins, Twin, FrontShells;
  }

  lemma CellIsConverted(m: Seamed, plan: Plan)
    requires PlanFits(m, plan) && (m.kind == Solid || m.kind == ClosedShell)
    ensures Converted(CellOf(m, plan), m, plan)
  {
    var f0 := Frame(m, plan);
    var w := WithFaces(f0, m, plan, |m.faces|);
    NothingYet(f0);
    hide Owner, Twin, Twins, AllShown, FinsFrom, EdgesOf, VerticesOf, WithFaces, FinsOnce, LoopsOnce, PlainLoops,
         ShellsBuilt, WithShells, FinsOn;
    FacesAdded(f0, m, plan, |m.faces|);
    FacesFinsFrom(f0, m, plan, |m.faces|);
    FacesPlain(f0, m, plan, |m.faces|);
    WithFacesEdges(f0, m, plan, |m.faces|);
    ShellsAreBuilt(Linked(w), m, plan.edgeMap);
    SameLists(w, CellOf(m, plan), m, plan);
    FreshEdges(m, plan);
  }

  lemma NothingYet(c: CellData)
    requires c.fins == [] && c.loops == [] && c.faces == []
    ensures FinsOnce(c) && LoopsOnce(c) && PlainLoops(c)
  {
  }

  // ------------------------------------------------------------------ kept edges and vertices

  lemma PlanFaces(m: Seamed, tau: real, plan: Plan, f: nat)
    requires tau > 0.0 && PlanOf(m, tau, plan) && f < |m.faces|
    ensures |plan.runs| == |plan.gone| == |m.faces|
    ensures FaceKeeps(m.faces[f], plan.runs[f], plan.gone[f]) && WindingSum(plan.runs[f]) == 0
    ensures m.faces[f].surface.kind != Cylinder ==>
      forall r :: 0 <= r < |plan.runs[f]| ==> plan.runs[f][r].winding == 0
    ensures m.faces[f].loops != [] ==> plan.runs[f] != []
  {
    hide FaceSplit, RemovedIs, DropIs, Renumbered, FaceKeeps, WindingSum;
    SplitKeepsFace(m.faces[f], tau, plan.runs[f], plan.gone[f]);
    SplitHasRuns(m.faces[f], tau, plan.runs[f], plan.gone[f]);
  }

  /** A kept use's edge is in the model and keeps a number. */
  lemma KeptUse(m: Seamed, tau: real, plan: Plan, f: nat, u: Use)
    requires tau > 0.0 && PlanOf(m, tau, plan) && ValidSeamed(m) && f < |m.faces| && f < |plan.runs|
    requires InRuns(plan.runs[f], u)
    ensures u.edge in plan.edgeMap && plan.edgeMap[u.edge] < |plan.keptEdges|
    ensures plan.keptEdges[plan.edgeMap[u.edge]] == u.edge < |m.edges|
  {
    PlanFaces(m, tau, plan, f);
    hide FacesSplit, DropIs, InRuns, WindingSum, VertexInUse, EdgeInUse, GoneFrom;
    var l :| 0 <= l < |m.faces[f].loops| && u in m.faces[f].loops[l];
    assert GoodFace(m, m.faces[f]);
    assert UsedBy(plan.runs, u.edge);
  }

  /** A kept edge has a fin. */
  lemma KeptEdgeHasFin(c: CellData, m: Seamed, tau: real, plan: Plan, i: nat) returns (k: nat)
    requires tau > 0.0 && PlanOf(m, tau, plan) && ValidSeamed(m) && PlanFits(m, plan) && Converted(c, m, plan)
    requires i < |plan.keptEdges|
    ensures k < |c.fins| && c.fins[k].edge == i
  {
    hide FinsOnce, LoopsOnce, PlainLoops, FinsFrom, ShellsBuilt, Owner, Twin, FaceShown, InRuns, GoneFrom, VertexInUse,
         GoodFace, FacesSplit, DropIs, EdgesOf, VerticesOf, FinsOn, WindingSum;
    var e := plan.keptEdges[i];
    var f, u := UseOfKept(m, tau, plan, e);
    k := UseHasFin(c, f, m.faces[f], plan.runs[f], plan.edgeMap, Owner(m.shells, f),
      Twin(m.shells, Owner(m.shells, f)), u);
  }

  lemma UseOfKept(m: Seamed, tau: real, plan: Plan, e: nat) returns (f: nat, u: Use)
    requires tau > 0.0 && PlanOf(m, tau, plan) && ValidSeamed(m) && e in plan.edgeMap
    ensures f < |m.faces| == |plan.runs| && InRuns(plan.runs[f], u) && u.edge == e
  {
    hide FacesSplit, DropIs, InRuns, VertexInUse, GoodFace, WindingSum, Owners;
    assert EdgeInUse(m, e);
    f :| 0 <= f < |m.faces| && UsedIn(m.faces[f], e);
    PlanFaces(m, tau, plan, f);
    var l, w :| 0 <= l < |m.faces[f].loops| && w in m.faces[f].loops[l] && w.edge == e;
    if InRuns(plan.runs[f], w) {
      u := w;
    } else {
      assert GoneFrom(plan.gone, e);
      assert UsedBy(plan.runs, e);
      f, u :| 0 <= f < |plan.runs| && InRuns(plan.runs[f], u) && u.edge == e;
    }
  }

  /** The remaining end of a kept edge keeps its vertex. */
  lemma KeptEnd(m: Seamed, tau: real, plan: Plan, e: nat, v: nat)
    requires tau > 0.0 && PlanOf(m, tau, plan) && ValidSeamed(m) && e in plan.edgeMap && !RingLike(m.edges[e])
    requires m.edges[e].start == v || m.edges[e].end == v
    ensures v !in plan.drop && v in plan.vertexMap
  {
    hide FacesSplit, RemovedIs, InRuns, VertexInUse, EdgeInUse, GoodFace, Owners, SeamVertex;
    assert OtherUse(m.edges, plan.removed, v);
  }

  /** What a kept edge becomes: a ring if it is a closed curve on a dropped vertex, else an edge between kept ones. */
  lemma KeptEdge(m: Seamed, tau: real, plan: Plan, e: nat)
    requires tau > 0.0 && PlanOf(m, tau, plan) && ValidSeamed(m) && e in plan.edgeMap
    ensures var x := EdgeOf(m.edges[e], plan.drop, plan.vertexMap);
      if RingLike(m.edges[e]) && m.edges[e].start in plan.drop then x.start == None && x.end == None && x.curve.closed
      else
        && m.edges[e].start in plan.vertexMap && m.edges[e].end in plan.vertexMap
        && x.start == Some(plan.vertexMap[m.edges[e].start]) && x.end == Some(plan.vertexMap[m.edges[e].end])
  {
    hide FacesSplit, RemovedIs, DropIs, InRuns, VertexInUse, EdgeInUse, GoodFace, Owners;
    if !RingLike(m.edges[e]) {
      KeptEnd(m, tau, plan, e, m.edges[e].start);
      KeptEnd(m, tau, plan, e, m.edges[e].end);
    }
  }

  /** A kept vertex ends some kept edge. */
  lemma KeptVertexUsed(m: Seamed, tau: real, plan: Plan, v: nat) returns (e: nat)
    requires tau > 0.0 && PlanOf(m, tau, plan) && ValidSeamed(m) && v in plan.vertexMap
    ensures e in plan.edgeMap && (m.edges[e].start == v || m.edges[e].end == v)
    ensures !(RingLike(m.edges[e]) && m.edges[e].start in plan.drop)
  {
    hide FacesSplit, RemovedIs, InRuns, EdgeInUse, GoodFace, Owners;
    assert VertexInUse(m, v);
    e :| 0 <= e < |m.edges| && (m.edges[e].start == v || m.edges[e].end == v);
    if e in plan.removed {
      assert SeamVertex(m.edges, plan.removed, v);
      assert OtherUse(m.edges, plan.removed, v);
      e :| 0 <= e < |m.edges| && e !in plan.removed && !RingLike(m.edges[e]) &&
        (m.edges[e].start == v || m.edges[e].end == v);
    }
  }

  // ------------------------------------------------------------------ no issue

  /** A converted cell of a valid model: what the lemmas below assume. */
  ghost predicate Good(c: CellData, m: Seamed, tau: real, plan: Plan)
    requires tau > 0.0
  {
    PlanOf(m, tau, plan) && ValidSeamed(m) && PlanFits(m, plan) && Converted(c, m, plan)
  }

  lemma GoodEdge(c: CellData, m: Seamed, tau: real, plan: Plan, i: nat)
    requires tau > 0.0 && Good(c, m, tau, plan) && i < |c.edges|
    ensures i < |plan.keptEdges| && |c.vertices| == |plan.keptVertices|
    ensures var e := plan.keptEdges[i];
      && e in plan.edgeMap && plan.edgeMap[e] == i && e < |m.edges|
      && c.edges[i] == EdgeOf(m.edges[e], plan.drop, plan.vertexMap).(fins := FinsOn(c.fins, i))
    ensures forall v :: v in plan.vertexMap ==> plan.vertexMap[v] < |plan.keptVertices|
  {
    hide FacesSplit, RemovedIs, DropIs, FinsOnce, LoopsOnce, PlainLoops, FinsFrom, AllShown, ShellsBuilt, ValidSeamed,
         FinsOn;
  }

  lemma FinsOnBelow(fins: seq<Fin>, i: nat)
    ensures AllBelow(FinsOn(fins, i), |fins|)
  {
    var on := FinsOn(fins, i);
    forall j | 0 <= j < |on|
      ensures on[j] < |fins|
    {
      FinsOnIs(fins, i, on[j]);
    }
  }

  lemma FinsOnSome(fins: seq<Fin>, i: nat, k: nat)
    requires k < |fins| && fins[k].edge == i
    ensures FinsOn(fins, i) != []
  {
    FinsOnIs(fins, i, k);
  }

  lemma GoodPlan(c: CellData, m: Seamed, tau: real, plan: Plan)
    requires tau > 0.0 && Good(c, m, tau, plan)
    ensures PlanOf(m, tau, plan) && ValidSeamed(m) && PlanFits(m, plan) && Converted(c, m, plan)
  {
    hide PlanOf, ValidSeamed, PlanFits, Converted;
  }

  /** A kept edge's ends refer to kept vertices, both or neither, and its fins are its users. */
  lemma EdgeReferenceGood(c: CellData, m: Seamed, tau: real, plan: Plan, i: nat)
    requires tau > 0.0 && Good(c, m, tau, plan) && i < |c.edges|
    ensures EdgeRefers(c, c.edges[i])
    ensures c.edges[i].start.None? == c.edges[i].end.None?
    ensures c.edges[i].start.None? ==> c.edges[i].curve.closed
    ensures c.edges[i].fins == FinsOn(c.fins, i) && FinsOn(c.fins, i) != []
  {
    hide *;
    GoodPlan(c, m, tau, plan);
    GoodEdge(c, m, tau, plan, i);
    KeptEdge(m, tau, plan, plan.keptEdges[i]);
    var k := KeptEdgeHasFin(c, m, tau, plan, i);
    FinsOnSome(c.fins, i, k);
    FinsOnBelow(c.fins, i);
    EndsRefer(c, c.edges[i]);
  }

  lemma EndsRefer(c: CellData, e: CEdge)
    requires e.start.Some? ==> e.start.value < |c.vertices|
    requires e.end.Some? ==> e.end.value < |c.vertices|
    requires AllBelow(e.fins, |c.fins|)
    ensures EdgeRefers(c, e)
  {
  }

  lemma FinReferenceGood(c: CellData, m: Seamed, tau: real, plan: Plan, k: nat)
    requires tau > 0.0 && Good(c, m, tau, plan) && k < |c.fins|
    ensures c.fins[k].edge < |c.edges|
  {
    hide PlanOf, ValidSeamed, FinsOnce, LoopsOnce, PlainLoops, AllShown, ShellsBuilt, FinsOn, InRuns;
    assert FinFrom(c.fins[k], plan.runs, plan.edgeMap);
    var f, u :| 0 <= f < |plan.runs| && InRuns(plan.runs[f], u) && c.fins[k] == FinOf(u, plan.edgeMap);
    KeptUse(m, tau, plan, f, u);
  }

  lemma LoopReferenceGood(c: CellData, l: nat)
    requires FinsOnce(c) && PlainLoops(c) && l < |c.loops|
    ensures LoopRefers(c, c.loops[l])
  {
    forall j | 0 <= j < |c.loops[l].fins|
      ensures c.loops[l].fins[j] < |c.fins|
    {
      InLoopCounted(c.loops, l, c.loops[l].fins[j]);
    }
  }

  lemma {:induction false} TwinsGrow(shells: seq<seq<nat>>, j: nat, k: nat)
    requires j < k <= |shells| && shells[j] != []
    ensures TwinsBefore(shells, j) < TwinsBefore(shells, k)
  {
    if j + 1 < k {
      TwinsGrow(shells, j, k - 1);
    }
  }

  /** A face shows its runs, its owner in front and the owner's twin behind. */
  lemma GoodFaceShown(c: CellData, m: Seamed, tau: real, plan: Plan, f: nat) returns (first: nat)
    requires tau > 0.0 && Good(c, m, tau, plan) && f < |c.faces|
    ensures f < |m.faces| && f < |plan.runs| && RunsShown(c, first, plan.runs[f], plan.edgeMap)
    ensures var k := Owner(m.shells, f);
      c.faces[f] == CFace(m.faces[f].surface, m.faces[f].forward, Interval(first, |plan.runs[f]|), k, Twin(m.shells, k))
    ensures Owner(m.shells, f) < |m.shells| && Twin(m.shells, Owner(m.shells, f)) < |c.shells|
  {
    hide PlanOf, FinsOnce, LoopsOnce, PlainLoops, FinsFrom, FinsOn, InRuns, RunsShown, Owner, Owners, Twins, GoodFace,
         VertexInUse, EdgeInUse;
    var k := Owner(m.shells, f);
    OwnerListed(m.shells, f);
    TwinsNumber(m.shells, |m.faces|, |m.shells|);
    TwinsGrow(m.shells, k, |m.shells|);
    assert FaceShown(c, f, m.faces[f], plan.runs[f], plan.edgeMap, k, Twin(m.shells, k));
    first :| RunsShown(c, first, plan.runs[f], plan.edgeMap) &&
      c.faces[f] == CFace(m.faces[f].surface, m.faces[f].forward, Interval(first, |plan.runs[f]|), k,
        Twin(m.shells, k));
  }

  lemma FaceReferenceGood(c: CellData, m: Seamed, tau: real, plan: Plan, f: nat)
    requires tau > 0.0 && Good(c, m, tau, plan) && f < |c.faces|
    ensures FaceRefers(c, c.faces[f])
  {
    var first := GoodFaceShown(c, m, tau, plan, f);
    hide Good, RunShown;
    MoreShells(c, m, tau, plan);
  }

  lemma MoreShells(c: CellData, m: Seamed, tau: real, plan: Plan)
    requires tau > 0.0 && Good(c, m, tau, plan)
    ensures |m.shells| <= |c.shells|
  {
    hide PlanOf, FinsOnce, LoopsOnce, PlainLoops, FinsFrom, AllShown, ValidSeamed, Twins;
  }

  /** The parts shells and regions are made of. */
  lemma GoodShells(c: CellData, m: Seamed, tau: real, plan: Plan) returns (backs: seq<Shell>, voids: seq<Region>)
    requires tau > 0.0 && Good(c, m, tau, plan)
    ensures TwinRegions(m.shells, |m.faces|, backs, voids) && |c.faces| == |m.faces|
    ensures c.shells == FrontShells(m.shells) + backs && |c.regions| == 2 + |voids| && c.regions[2..] == voids
    ensures c.regions[0].kind == Void && c.regions[1].shells == Interval(0, |m.shells|)
    ensures c.regions[0].shells == if |m.shells| > 0 then [|m.shells|] else []
    ensures |m.shells| > 0 ==> |backs| > 0
    ensures forall s :: 0 <= s < |m.shells| ==> m.shells[s] != [] && AllBelow(m.shells[s], |m.faces|)
  {
    hide PlanOf, FinsOnce, LoopsOnce, PlainLoops, FinsFrom, AllShown, Twins, TwinRegions, GoodFace, VertexInUse,
         EdgeInUse, Owners, FrontShells;
    TwinRegionsHold(m.shells, |m.faces|, |m.shells|);
    TwinsNumber(m.shells, |m.faces|, |m.shells|);
    if |m.shells| > 0 {
      TwinsGrow(m.shells, 0, |m.shells|);
    }
    backs, voids := Twins(m.shells, |m.faces|, |m.shells|).0, Twins(m.shells, |m.faces|, |m.shells|).1;
  }

  lemma ShellGood(c: CellData, m: Seamed, backs: seq<Shell>, voids: seq<Region>, s: nat)
    requires TwinRegions(m.shells, |m.faces|, backs, voids) && |c.faces| == |m.faces| && s < |c.shells|
    requires c.shells == FrontShells(m.shells) + backs && |c.regions| == 2 + |voids| && c.regions[2..] == voids
    requires c.regions[1].shells == Interval(0, |m.shells|)
    requires c.regions[0].shells == if |m.shells| > 0 then [|m.shells|] else []
    requires forall k :: 0 <= k < |m.shells| ==> m.shells[k] != [] && AllBelow(m.shells[k], |m.faces|)
    ensures ShellRefers(c, c.shells[s]) && !Bare(c.shells[s]) && s in c.regions[c.shells[s].region].shells
  {
    var n := |m.shells|;
    if s < n {
      assert c.shells[s] == Shell(1, SidesOf(m.shells[s], Front), [], []);
      assert Interval(0, n)[s] == s;
    } else {
      assert TwinRegion(m.shells, |m.faces|, voids, s - n, backs[s - n]);
      var x := c.shells[s];
      if x.region != 0 {
        assert c.regions[x.region] == voids[x.region - 2];
        assert c.regions[x.region].shells[0] == s;
      } else {
        assert c.regions[0].shells[0] == s;
      }
    }
  }

  lemma RegionGood(c: CellData, m: Seamed, backs: seq<Shell>, voids: seq<Region>, r: nat)
    requires TwinRegions(m.shells, |m.faces|, backs, voids) && r < |c.regions|
    requires c.shells == FrontShells(m.shells) + backs && |c.regions| == 2 + |voids| && c.regions[2..] == voids
    requires c.regions[1].shells == Interval(0, |m.shells|) && (|m.shells| > 0 ==> |backs| > 0)
    requires c.regions[0].shells == if |m.shells| > 0 then [|m.shells|] else []
    ensures AllBelow(c.regions[r].shells, |c.shells|) && !Repeats(c.regions[r].shells)
    ensures r > 0 ==> (c.regions[r].shells == [] <==> r == 1 && m.shells == [])
  {
    if r >= 2 {
      assert c.regions[r] == voids[r - 2];
    }
  }

  lemma ReferencesGood(c: CellData, m: Seamed, tau: real, plan: Plan)
    requires tau > 0.0 && Good(c, m, tau, plan)
    ensures GoodReferences(c)
  {
    var backs, voids := GoodShells(c, m, tau, plan);
    forall x: Issue
      ensures !BadReference(c, x)
    {
      ReferenceGood(c, m, tau, plan, backs, voids, x);
    }
  }

  lemma ReferenceGood(c: CellData, m: Seamed, tau: real, plan: Plan, backs: seq<Shell>, voids: seq<Region>, x: Issue)
    requires tau > 0.0 && Good(c, m, tau, plan)
    requires TwinRegions(m.shells, |m.faces|, backs, voids) && |c.faces| == |m.faces|
    requires c.shells == FrontShells(m.shells) + backs && |c.regions| == 2 + |voids| && c.regions[2..] == voids
    requires c.regions[1].shells == Interval(0, |m.shells|) && (|m.shells| > 0 ==> |backs| > 0)
    requires c.regions[0].shells == if |m.shells| > 0 then [|m.shells|] else []
    requires forall k :: 0 <= k < |m.shells| ==> m.shells[k] != [] && AllBelow(m.shells[k], |m.faces|)
    ensures !BadReference(c, x)
  {
    GoodLists(c, m, tau, plan);
    hide Good, EdgeRefers, LoopRefers, FaceRefers, ShellRefers, TwinRegions, FinsOnce, PlainLoops, FrontShells,
         Interval, AllBelow, BadReference;
    ReferenceNamed(c, x);
    if x.EdgeReference? && x.edge < |c.edges| {
      EdgeReferenceGood(c, m, tau, plan, x.edge);
    } else if x.FinReference? && x.fin < |c.fins| {
      FinReferenceGood(c, m, tau, plan, x.fin);
    } else if x.LoopReference? && x.loop < |c.loops| {
      LoopReferenceGood(c, x.loop);
    } else if x.FaceReference? && x.face < |c.faces| {
      FaceReferenceGood(c, m, tau, plan, x.face);
    } else if x.ShellReference? && x.shell < |c.shells| {
      ShellGood(c, m, backs, voids, x.shell);
    } else if x.RegionReference? && x.region < |c.regions| {
      RegionGood(c, m, backs, voids, x.region);
    }
  }

  /** What a bad reference is, kind by kind. */
  lemma ReferenceNamed(c: CellData, x: Issue)
    ensures BadReference(c, x) ==>
      || (x.EdgeReference? && x.edge < |c.edges| && !EdgeRefers(c, c.edges[x.edge]))
      || (x.FinReference? && x.fin < |c.fins| && c.fins[x.fin].edge >= |c.edges|)
      || (x.LoopReference? && x.loop < |c.loops| && !LoopRefers(c, c.loops[x.loop]))
      || (x.FaceReference? && x.face < |c.faces| && !FaceRefers(c, c.faces[x.face]))
      || (x.ShellReference? && x.shell < |c.shells| && !ShellRefers(c, c.shells[x.shell]))
      || (x.RegionReference? && x.region < |c.regions| && !AllBelow(c.regions[x.region].shells, |c.shells|))
  {
    hide EdgeRefers, LoopRefers, FaceRefers, ShellRefers, AllBelow;
  }

  lemma GoodLists(c: CellData, m: Seamed, tau: real, plan: Plan)
    requires tau > 0.0 && Good(c, m, tau, plan)
    ensures FinsOnce(c) && LoopsOnce(c) && PlainLoops(c)
  {
  }

  lemma VertexGood(c: CellData, m: Seamed, tau: real, plan: Plan, v: nat)
    requires tau > 0.0 && Good(c, m, tau, plan) && v < |c.vertices|
    ensures VertexUsed(c, v)
  {
    var w, e := GoodVertex(c, m, tau, plan, v);
    var i := plan.edgeMap[e];
    GoodEdge(c, m, tau, plan, i);
    KeptEdge(m, tau, plan, e);
    assert c.edges[i].start == Some(v) || c.edges[i].end == Some(v);
  }

  lemma GoodVertex(c: CellData, m: Seamed, tau: real, plan: Plan, v: nat) returns (w: nat, e: nat)
    requires tau > 0.0 && Good(c, m, tau, plan) && v < |c.vertices|
    ensures w in plan.vertexMap && plan.vertexMap[w] == v
    ensures e in plan.edgeMap && e < |m.edges| && (m.edges[e].start == w || m.edges[e].end == w)
    ensures plan.edgeMap[e] < |c.edges| && plan.keptEdges[plan.edgeMap[e]] == e
    ensures !(RingLike(m.edges[e]) && m.edges[e].start in plan.drop)
  {
    hide FacesSplit, RemovedIs, DropIs, FinsOnce, LoopsOnce, PlainLoops, FinsFrom, AllShown, ShellsBuilt, ValidSeamed,
         FinsOn;
    w := plan.keptVertices[v];
    e := KeptVertexUsed(m, tau, plan, w);
  }

  // ------------------------------------------------------------------ windings

  lemma {:induction false} WoundRuns(c: CellData, first: nat, runs: seq<Run>, edgeMap: map<nat, nat>)
    requires RunsShown(c, first, runs, edgeMap) && AllBelow(Interval(first, |runs|), |c.loops|)
    ensures Wound(c, Interval(first, |runs|), false) == WindingSum(runs) && Wound(c, Interval(first, |runs|), true) == 0
  {
    if runs != [] {
      var k := |runs| - 1;
      assert Interval(first, |runs|)[..k] == Interval(first, k);
      WoundRuns(c, first, runs[..k], edgeMap);
      assert RunShown(c, c.loops[first + k], runs[k], edgeMap);
    }
  }

  lemma RunsNotEmpty(m: Seamed, tau: real, plan: Plan, f: nat)
    requires tau > 0.0 && PlanOf(m, tau, plan) && ValidSeamed(m) && f < |m.faces|
    ensures f < |plan.runs| && plan.runs[f] != [] && forall r :: 0 <= r < |plan.runs[f]| ==> plan.runs[f][r].uses != []
  {
    PlanFaces(m, tau, plan, f);
    hide PlanOf, VertexInUse, EdgeInUse, UsedIn, InRuns;
    assert GoodFace(m, m.faces[f]);
  }

  /** The j-th loop of a face shows the j-th run. */
  lemma LoopShown(c: CellData, first: nat, runs: seq<Run>, edgeMap: map<nat, nat>, j: nat)
    requires RunsShown(c, first, runs, edgeMap) && j < |runs| && runs[j].uses != []
    ensures first + j < |c.loops|
    ensures var l := c.loops[first + j];
      l.vertex == None && l.fins != [] && l.windingV == 0 && l.winding == runs[j].winding
  {
    assert RunShown(c, c.loops[first + j], runs[j], edgeMap);
  }

  lemma LoopIssueNamed(c: CellData, x: Issue, f: nat)
    requires f < |c.faces| && AllBelow(c.faces[f].loops, |c.loops|)
    ensures var face := c.faces[f];
      LoopIssue(c, x, f) && !x.OpenLoop? ==>
        || face.loops == [] || Unbalanced(c, face)
        || exists j :: 0 <= j < |face.loops| && AtFault(face, c.loops[face.loops[j]])
  {
    hide Unbalanced, WindsWrongly, IsOpen;
  }

  predicate AtFault(f: CFace, l: Loop) {
    (l.vertex == None && l.fins == []) || WindsWrongly(f, l)
  }

  lemma BalancedFace(c: CellData, x: Issue, f: nat, first: nat, runs: seq<Run>, edgeMap: map<nat, nat>)
    requires f < |c.faces| && AllBelow(c.faces[f].loops, |c.loops|) && c.faces[f].loops == Interval(first, |runs|)
    requires RunsShown(c, first, runs, edgeMap) && runs != []
    requires forall r :: 0 <= r < |runs| ==> runs[r].uses != []
    requires WindingSum(runs) == 0 && !x.OpenLoop?
    requires c.faces[f].surface.kind != Cylinder ==> forall r :: 0 <= r < |runs| ==> runs[r].winding == 0
    ensures !LoopIssue(c, x, f)
  {
    WoundRuns(c, first, runs, edgeMap);
    hide RunsShown, Wound, WindingSum, Pole, LoopIssue, AllBelow;
    LoopIssueNamed(c, x, f);
    forall j | 0 <= j < |runs|
      ensures !AtFault(c.faces[f], c.loops[c.faces[f].loops[j]])
    {
      LoopShown(c, first, runs, edgeMap, j);
    }
  }

  /** A face's loops raise nothing: none is empty, and the windings balance. */
  lemma LoopsGood(c: CellData, m: Seamed, tau: real, plan: Plan, f: nat, x: Issue)
    requires tau > 0.0 && Good(c, m, tau, plan) && f < |c.faces| && AllBelow(c.faces[f].loops, |c.loops|)
    requires !x.OpenLoop?
    ensures !LoopIssue(c, x, f)
  {
    var first := GoodFaceShown(c, m, tau, plan, f);
    hide Converted, PlanOf, ValidSeamed, RunsShown, WindingSum, FaceKeeps, Owner, Twin, LoopIssue, InRuns, PlanFits;
    RunsNotEmpty(m, tau, plan, f);
    PlanFaces(m, tau, plan, f);
    BalancedFace(c, x, f, first, plan.runs[f], plan.edgeMap);
  }

  // ------------------------------------------------------------------ no issue of a kind

  lemma NoSideIssue(c: CellData, m: Seamed, tau: real, plan: Plan, f: nat, x: Issue)
    requires tau > 0.0 && Good(c, m, tau, plan) && f < |c.faces|
    ensures !SideIssue(c, x, f)
  {
    var first := GoodFaceShown(c, m, tau, plan, f);
    hide PlanOf, FinsOnce, LoopsOnce, PlainLoops, FinsFrom, AllShown, Owner, Twin, Twins, Owners, Listing, FrontShells;
    SidesListed(m, f);
  }

  lemma NoOwnerIssue(c: CellData, x: Issue)
    requires FinsOnce(c) && LoopsOnce(c)
    ensures !OwnerIssue(c, x)
  {
  }

  lemma EdgeIssueNamed(c: CellData, x: Issue)
    ensures EdgeIssue(c, x) ==>
      || (exists v: nat :: v < |c.vertices| && !VertexUsed(c, v))
      || exists i: nat :: i < |c.edges| && EdgeAtFault(c, i)
  {
    hide VertexUsed, WireEdge, FinsOn;
    if EdgeIssue(c, x) && !x.UnusedVertex? {
      assert EdgeAtFault(c, x.edge);
    }
  }

  ghost predicate EdgeAtFault(c: CellData, i: nat)
    requires i < |c.edges|
  {
    var e := c.edges[i];
    || e.fins != FinsOn(c.fins, i) || FinsOn(c.fins, i) == [] || e.start.None? != e.end.None?
    || (e.start.None? && !e.curve.closed)
  }

  lemma NoEdgeIssue(c: CellData, m: Seamed, tau: real, plan: Plan, x: Issue)
    requires tau > 0.0 && Good(c, m, tau, plan)
    ensures !EdgeIssue(c, x)
  {
    hide Good, VertexUsed, EdgeRefers, FinsOn, EdgeIssue;
    EdgeIssueNamed(c, x);
    forall v: nat | v < |c.vertices|
      ensures VertexUsed(c, v)
    {
      VertexGood(c, m, tau, plan, v);
    }
    forall i: nat | i < |c.edges|
      ensures !EdgeAtFault(c, i)
    {
      EdgeReferenceGood(c, m, tau, plan, i);
    }
  }

  lemma OneShellIssue(c: CellData, m: Seamed, tau: real, plan: Plan, x: Issue)
    requires tau > 0.0 && Good(c, m, tau, plan)
    requires forall s :: 0 <= s < |c.shells| ==> c.shells[s].region < |c.regions|
    ensures ShellIssue(c, x) <==> x == RegionWithoutShell(1) && m.shells == []
  {
    var backs, voids := GoodShells(c, m, tau, plan);
    hide Good, TwinRegions, FrontShells, Interval, AllBelow, ShellRefers, Repeats, Bare;
    if (x.EmptyShell? || x.RegionShellMismatch?) && x.shell < |c.shells| {
      ShellGood(c, m, backs, voids, x.shell);
    } else if (x.DoubleBounding? || x.RegionWithoutShell?) && x.region < |c.regions| {
      RegionGood(c, m, backs, voids, x.region);
    }
  }

  /** The conversion of a valid model does not fail: every lost seam is an edge of the model. */
  lemma NoLostEdgeOutside(m: Seamed, tau: real, runs: seq<seq<Run>>, gone: seq<set<nat>>, e: nat)
    requires tau > 0.0 && ValidSeamed(m) && FacesSplit(m, tau, runs, gone) && GoneFrom(gone, e)
    ensures e < |m.edges|
  {
    hide FaceSplit, VertexInUse, EdgeInUse, Owners, InRuns, WindingSum;
    var f :| 0 <= f < |gone| && e in gone[f];
    SplitKeepsFace(m.faces[f], tau, runs[f], gone[f]);
    assert GoodFace(m, m.faces[f]);
    assert UsedIn(m.faces[f], e);
  }
}

/** Splitting one seamed loop of a cylinder at its seam uses into runs with integer windings. */
module SeamRuns {
  import opened Basics
  import opened Reals

  datatype Point = Point(u: real, v: real)

  /** A pcurve by its end points; arcs carry the values their formulas give. */
  datatype PCurve = Line2(start: Point, end: Point) | Arc2(start: Point, end: Point)

  datatype Use = Use(edge: nat, forward: bool, pcurve: PCurve)

  datatype Run = Run(uses: seq<Use>, winding: int)

  datatype Merged = Merged(seams: seq<nat>, runs: seq<Run>)

  // ------------------------------------------------------------------ which edges are seams

  /** Where the edge is used. */
  function Where(loop: seq<Use>, e: nat): seq<nat> {
    if loop == [] then [] else Where(loop[..|loop| - 1], e) + if loop[|loop| - 1].edge == e then [|loop| - 1] else []
  }

  function Count(loop: seq<Use>, e: nat): nat {
    |Where(loop, e)|
  }

  ghost predicate AllUsesOf(loop: seq<Use>, e: nat, found: seq<nat>) {
    && (forall j, k :: 0 <= j < k < |found| ==> found[j] < found[k])
    && (forall j :: 0 <= j < |found| ==> found[j] < |loop| && loop[found[j]].edge == e)
    && forall k :: 0 <= k < |loop| && loop[k].edge == e ==> k in found
  }

  lemma OneMoreUse(loop: seq<Use>, e: nat, found: seq<nat>, u: Use)
    requires AllUsesOf(loop, e, found)
    ensures AllUsesOf(loop + [u], e, found + if u.edge == e then [|loop|] else [])
  {
  }

  lemma {:induction false} WhereIs(loop: seq<Use>, e: nat)
    ensures AllUsesOf(loop, e, Where(loop, e))
  {
    hide AllUsesOf;
    if loop == [] {
      NoUses(e);
    } else {
      var n := |loop| - 1;
      WhereIs(loop[..n], e);
      OneMoreUse(loop[..n], e, Where(loop[..n], e), loop[n]);
      assert loop == loop[..n] + [loop[n]];
    }
  }

  lemma NoUses(e: nat)
    ensures AllUsesOf([], e, [])
  {
  }

  /** An edge used exactly twice in the loop. */
  predicate IsSeam(loop: seq<Use>, e: nat) {
    Count(loop, e) == 2
  }

  ghost predicate SeamList(loop: seq<Use>, seams: seq<nat>) {
    && (forall e :: e in seams <==> IsSeam(loop, e))
    && forall j, k :: 0 <= j < k < |seams| ==> seams[j] != seams[k]
  }

  lemma CountStep(loop: seq<Use>, k: nat, e: nat)
    requires k < |loop|
    ensures Count(loop[..k + 1], e) == Count(loop[..k], e) + if loop[k].edge == e then 1 else 0
  {
    assert loop[..k + 1][..k] == loop[..k];
  }

  ghost predicate Counted(loop: seq<Use>, counts: map<nat, nat>) {
    forall e: nat :: Count(loop, e) == if e in counts then counts[e] else 0
  }

  lemma CountedStep(loop: seq<Use>, k: nat, counts: map<nat, nat>)
    requires k < |loop| && Counted(loop[..k], counts)
    ensures var e := loop[k].edge;
      Counted(loop[..k + 1], counts[e := (if e in counts then counts[e] else 0) + 1])
  {
    hide Count;
    forall e: nat
      ensures Count(loop[..k + 1], e) == Count(loop[..k], e) + if loop[k].edge == e then 1 else 0
    {
      CountStep(loop, k, e);
    }
  }

  /** The counts, and their keys in the order they came. */
  method CountEdges(loop: seq<Use>) returns (order: seq<nat>, counts: map<nat, nat>)
    ensures Counted(loop, counts) && forall e :: e in order <==> e in counts
    ensures forall i, j :: 0 <= i < j < |order| ==> order[i] != order[j]
  {
    hide Counted;
    counts, order := map[], [];
    assert Counted(loop[..0], counts) by { NothingCounted(); }
    for k := 0 to |loop|
      invariant forall e :: e in order <==> e in counts
      invariant forall i, j :: 0 <= i < j < |order| ==> order[i] != order[j]
      invariant Counted(loop[..k], counts)
    {
      var e := loop[k].edge;
      CountedStep(loop, k, counts);
      if e !in counts {
        order := order + [e];
      }
      counts := counts[e := (if e in counts then counts[e] else 0) + 1];
    }
    assert loop[..|loop|] == loop;
  }

  lemma NothingCounted()
    ensures Counted([], map[])
  {
  }

  /** The edges counted twice. */
  method FindSeams(loop: seq<Use>) returns (seams: seq<nat>)
    ensures SeamList(loop, seams)
  {
    hide Count;
    var order, counts := CountEdges(loop);
    seams := [];
    for k := 0 to |order|
      invariant forall e :: e in seams <==> e in order[..k] && IsSeam(loop, e)
      invariant forall i, j :: 0 <= i < j < |seams| ==> seams[i] != seams[j]
    {
      assert order[k] !in order[..k];
      if counts[order[k]] == 2 {
        seams := seams + [order[k]];
      }
    }
    assert order[..|order|] == order;
  }

  // ------------------------------------------------------------------ a consistent pair

  function Before(n: nat, k: nat): nat
    requires k < n
  {
    if k == 0 then n - 1 else k - 1
  }

  function After(n: nat, k: nat): nat
    requires k < n
  {
    if k + 1 == n then 0 else k + 1
  }

  /** The use continues both its neighbours. */
  predicate Continues(loop: seq<Use>, k: nat)
    requires k < |loop|
  {
    && loop[Before(|loop|, k)].pcurve.end == loop[k].pcurve.start
    && loop[k].pcurve.end == loop[After(|loop|, k)].pcurve.start
  }

  /** The two uses run along one another in opposite senses, a period apart. */
  predicate PeriodApart(a: Use, b: Use, tau: real) {
    var shift := a.pcurve.start.u - b.pcurve.end.u;
    && a.forward != b.forward && a.pcurve.Line2? && b.pcurve.Line2?
    && (shift == tau || shift == -tau) && a.pcurve.end.u - b.pcurve.start.u == shift
    && a.pcurve.start.v == b.pcurve.end.v && a.pcurve.end.v == b.pcurve.start.v
  }

  predicate Positions(loop: seq<Use>, e: nat, a: nat, b: nat) {
    a < b < |loop| && forall k :: 0 <= k < |loop| ==> (loop[k].edge == e <==> k == a || k == b)
  }

  ghost predicate PairAt(loop: seq<Use>, e: nat, tau: real, a: nat, b: nat) {
    Positions(loop, e, a, b) && PeriodApart(loop[a], loop[b], tau) && Continues(loop, a) && Continues(loop, b)
  }

  ghost predicate Consistent(loop: seq<Use>, e: nat, tau: real) {
    exists a: nat, b: nat :: PairAt(loop, e, tau, a, b)
  }

  /** The indices of an edge's uses, in loop order. */
  method Find(loop: seq<Use>, e: nat) returns (found: seq<nat>)
    ensures found == Where(loop, e)
  {
    found := [];
    for k := 0 to |loop|
      invariant found == Where(loop[..k], e)
    {
      assert loop[..k + 1][..k] == loop[..k];
      if loop[k].edge == e {
        found := found + [k];
      }
    }
    assert loop[..|loop|] == loop;
  }

  lemma PositionsUnique(loop: seq<Use>, e: nat, a: nat, b: nat, c: nat, d: nat)
    requires Positions(loop, e, a, b) && Positions(loop, e, c, d)
    ensures a == c && b == d
  {
    assert loop[a].edge == e && loop[b].edge == e && loop[c].edge == e && loop[d].edge == e;
  }

  /** The checks on one seam edge. */
  method CheckPair(loop: seq<Use>, e: nat, tau: real) returns (ok: bool)
    requires IsSeam(loop, e)
    ensures ok <==> Consistent(loop, e, tau)
  {
    var found := Find(loop, e);
    var a, b := found[0], found[1];
    WhereIs(loop, e);
    assert found == [a, b];
    assert Positions(loop, e, a, b);
    ok := PeriodApart(loop[a], loop[b], tau) && Continues(loop, a) && Continues(loop, b);
    if ok {
      assert PairAt(loop, e, tau, a, b);
    } else {
      forall c: nat, d: nat
        ensures !PairAt(loop, e, tau, c, d)
      {
        if Positions(loop, e, c, d) {
          PositionsUnique(loop, e, a, b, c, d);
        }
      }
    }
  }

  // ------------------------------------------------------------------ runs

  /** The loop read from just behind use `first` round to it. */
  function Rotated(loop: seq<Use>, first: nat): (r: seq<Use>)
    requires first < |loop|
    ensures |r| == |loop| && r[|r| - 1] == loop[first]
  {
    loop[first + 1..] + loop[..first + 1]
  }

  function Kept(loop: seq<Use>, seams: seq<nat>): seq<Use> {
    if loop == [] then []
    else
      var k := |loop| - 1;
      Kept(loop[..k], seams) + if loop[k].edge in seams then [] else [loop[k]]
  }

  /** The closed runs and the open one after reading r. */
  function Split(r: seq<Use>, seams: seq<nat>): (seq<seq<Use>>, seq<Use>) {
    if r == [] then ([], [])
    else
      var k := |r| - 1;
      var (runs, run) := Split(r[..k], seams);
      if r[k].edge in seams then (if run == [] then runs else runs + [run], []) else (runs, run + [r[k]])
  }

  function RunsOf(r: seq<Use>, seams: seq<nat>): seq<seq<Use>> {
    var (runs, run) := Split(r, seams);
    if run == [] then runs else runs + [run]
  }

  function Flatten(runs: seq<seq<Use>>): seq<Use> {
    if runs == [] then [] else Flatten(runs[..|runs| - 1]) + runs[|runs| - 1]
  }

  lemma FlattenAppend(runs: seq<seq<Use>>, run: seq<Use>)
    ensures Flatten(runs + [run]) == Flatten(runs) + run
  {
    assert (runs + [run])[..|runs|] == runs;
  }

  /** Runs read so far: closed ones that are not empty, and all uses kept. */
  ghost predicate Holds(runs: seq<seq<Use>>, run: seq<Use>, kept: seq<Use>) {
    Flatten(runs) + run == kept && forall k :: 0 <= k < |runs| ==> runs[k] != []
  }

  lemma HoldsClosed(runs: seq<seq<Use>>, run: seq<Use>, kept: seq<Use>)
    requires Holds(runs, run, kept)
    ensures Holds(if run == [] then runs else runs + [run], [], kept)
  {
    hide Flatten;
    FlattenAppend(runs, run);
  }

  lemma HoldsMore(runs: seq<seq<Use>>, run: seq<Use>, kept: seq<Use>, u: Use)
    requires Holds(runs, run, kept)
    ensures Holds(runs, run + [u], kept + [u])
  {
    hide Flatten;
    assert Flatten(runs) + (run + [u]) == (Flatten(runs) + run) + [u];
  }

  /** The runs are exactly the uses that are not seams, in order. */
  lemma {:induction false} SplitKeeps(r: seq<Use>, seams: seq<nat>)
    ensures Holds(Split(r, seams).0, Split(r, seams).1, Kept(r, seams))
  {
    if r == [] {
    } else {
      var k := |r| - 1;
      SplitKeeps(r[..k], seams);
      hide Holds;
      var (runs, run) := Split(r[..k], seams);
      if r[k].edge in seams {
        HoldsClosed(runs, run, Kept(r[..k], seams));
        assert Kept(r, seams) == Kept(r[..k], seams);
      } else {
        HoldsMore(runs, run, Kept(r[..k], seams), r[k]);
      }
    }
  }

  lemma RunsKeep(r: seq<Use>, seams: seq<nat>)
    ensures Flatten(RunsOf(r, seams)) == Kept(r, seams)
    ensures forall k :: 0 <= k < |RunsOf(r, seams)| ==> RunsOf(r, seams)[k] != []
  {
    SplitKeeps(r, seams);
    var (runs, run) := Split(r, seams);
    FlattenAppend(runs, run);
  }

  /** How far a run goes round. */
  function Turn(run: seq<Use>): real
    requires run != []
  {
    run[|run| - 1].pcurve.end.u - run[0].pcurve.start.u
  }

  /** A whole number of turns, and not zero. */
  predicate Winds(run: seq<Use>, tau: real)
    requires run != [] && tau > 0.0
  {
    var w := Turn(run) / tau;
    w == w.Floor as real && w.Floor != 0
  }

  ghost predicate AllWind(runs: seq<seq<Use>>, tau: real)
    requires tau > 0.0
  {
    forall k :: 0 <= k < |runs| ==> runs[k] != [] && Winds(runs[k], tau)
  }

  /** The loop's first seam use. */
  ghost predicate FirstSeam(loop: seq<Use>, seams: seq<nat>, first: nat) {
    first < |loop| && loop[first].edge in seams && forall k :: 0 <= k < first ==> loop[k].edge !in seams
  }

  /** When `seam_merge` has a result: a cylinder, at least one seam, every seam consistent, something kept, and every
      run winding. */
  ghost predicate Mergeable(cylinder: bool, loop: seq<Use>, tau: real)
    requires tau > 0.0
  {
    && cylinder
    && (exists e :: IsSeam(loop, e))
    && (forall e :: IsSeam(loop, e) ==> Consistent(loop, e, tau))
    && (exists k :: 0 <= k < |loop| && !IsSeam(loop, loop[k].edge))
    && forall seams, first :: SeamList(loop, seams) && FirstSeam(loop, seams, first) ==>
      AllWind(RunsOf(Rotated(loop, first), seams), tau)
  }

  /** The result belongs to the loop: its runs are the kept uses from the first seam on, with their windings. */
  ghost predicate MergeOf(loop: seq<Use>, tau: real, m: Merged)
    requires tau > 0.0
  {
    && SeamList(loop, m.seams)
    && exists first :: FirstSeam(loop, m.seams, first) && RunsAre(m.runs, RunsOf(Rotated(loop, first), m.seams), tau)
  }

  ghost predicate RunsAre(runs: seq<Run>, uses: seq<seq<Use>>, tau: real)
    requires tau > 0.0
  {
    && |runs| == |uses| && AllWind(uses, tau)
    && forall k :: 0 <= k < |runs| ==> runs[k].uses == uses[k] && runs[k].winding == (Turn(uses[k]) / tau).Floor
  }

  /** Two listings of the seams split alike. */
  lemma {:induction false} SameSplit(r: seq<Use>, s: seq<nat>, t: seq<nat>)
    requires forall e :: e in s <==> e in t
    ensures Split(r, s) == Split(r, t)
  {
    if r != [] {
      SameSplit(r[..|r| - 1], s, t);
    }
  }

  lemma Wrap(a: nat, n: nat)
    requires n >= 1 && a < 2 * n
    ensures a % n == if a < n then a else a - n
  {
    if a >= n {
      assert a / n == 1;
    }
  }

  lemma RotatedAt(loop: seq<Use>, first: nat, step: nat)
    requires first < |loop| && 1 <= step <= |loop|
    ensures (first + step) % |loop| == if first + step < |loop| then first + step else first + step - |loop|
    ensures Rotated(loop, first)[step - 1] == loop[(first + step) % |loop|]
  {
    Wrap(first + step, |loop|);
  }

  method SplitRuns(loop: seq<Use>, seams: seq<nat>, first: nat) returns (runs: seq<seq<Use>>)
    requires first < |loop|
    ensures runs == RunsOf(Rotated(loop, first), seams)
  {
    hide Rotated;
    var n := |loop|;
    var run: seq<Use>;
    runs, run := [], [];
    ghost var r := Rotated(loop, first);
    for step := 1 to n + 1
      invariant Split(r[..step - 1], seams) == (runs, run)
    {
      var k := (first + step) % n;
      RotatedAt(loop, first, step);
      assert r[..step][..step - 1] == r[..step - 1];
      if loop[k].edge in seams {
        if run != [] {
          runs := runs + [run];
        }
        run := [];
      } else {
        run := run + [loop[k]];
      }
    }
    assert r[..n] == r;
    if run != [] {
      runs := runs + [run];
    }
  }

  method Windings(uses: seq<seq<Use>>, tau: real) returns (r: Option<seq<Run>>)
    requires tau > 0.0 && forall k :: 0 <= k < |uses| ==> uses[k] != []
    ensures r.Some? <==> AllWind(uses, tau)
    ensures r.Some? ==> RunsAre(r.value, uses, tau)
  {
    var out := [];
    for i := 0 to |uses|
      invariant |out| == i
      invariant forall k :: 0 <= k < i ==>
        Winds(uses[k], tau) && out[k] == Run(uses[k], (Turn(uses[k]) / tau).Floor)
    {
      var run := uses[i];
      var du := run[|run| - 1].pcurve.end.u - run[0].pcurve.start.u;
      var w := du / tau;
      if w != w.Floor as real || w.Floor == 0 {
        assert !Winds(uses[i], tau);
        return None;
      }
      out := out + [Run(run, w.Floor)];
    }
    return Some(out);
  }

  /** The checks on all seams. */
  method CheckSeams(loop: seq<Use>, seams: seq<nat>, tau: real) returns (ok: bool)
    requires SeamList(loop, seams)
    ensures ok <==> forall e :: IsSeam(loop, e) ==> Consistent(loop, e, tau)
  {
    hide Consistent, Count;
    for i := 0 to |seams|
      invariant forall k :: 0 <= k < i ==> Consistent(loop, seams[k], tau)
    {
      var one := CheckPair(loop, seams[i], tau);
      if !one {
        return false;
      }
    }
    return true;
  }

  /** `keep` */
  method AnyKept(loop: seq<Use>, seams: seq<nat>) returns (kept: bool)
    requires SeamList(loop, seams)
    ensures kept <==> exists k :: 0 <= k < |loop| && !IsSeam(loop, loop[k].edge)
  {
    hide IsSeam;
    kept := false;
    for k := 0 to |loop|
      invariant kept ==> exists i :: 0 <= i < |loop| && !IsSeam(loop, loop[i].edge)
      invariant !kept ==> forall i :: 0 <= i < k ==> IsSeam(loop, loop[i].edge)
    {
      if loop[k].edge !in seams {
        kept := true;
      }
    }
  }

  method FindFirst(loop: seq<Use>, seams: seq<nat>) returns (first: nat)
    requires exists k :: 0 <= k < |loop| && loop[k].edge in seams
    ensures FirstSeam(loop, seams, first)
  {
    ghost var j :| 0 <= j < |loop| && loop[j].edge in seams;
    first := 0;
    while loop[first].edge !in seams
      invariant first <= j && forall k :: 0 <= k < first ==> loop[k].edge !in seams
      decreases j - first
    {
      first := first + 1;
    }
  }

  lemma FirstSeamUnique(loop: seq<Use>, s: seq<nat>, t: seq<nat>, a: nat, b: nat)
    requires SeamList(loop, s) && SeamList(loop, t) && FirstSeam(loop, s, a) && FirstSeam(loop, t, b)
    ensures a == b && RunsOf(Rotated(loop, a), s) == RunsOf(Rotated(loop, b), t)
  {
    SameSplit(Rotated(loop, a), s, t);
  }

  lemma ConsistentUsed(loop: seq<Use>, e: nat, tau: real)
    requires Consistent(loop, e, tau)
    ensures exists k :: 0 <= k < |loop| && loop[k].edge == e
  {
    var a: nat, b: nat :| PairAt(loop, e, tau, a, b);
    assert loop[a].edge == e;
  }

  /** `seam_merge` */
  method SeamMerge(cylinder: bool, loop: seq<Use>, tau: real) returns (r: Option<Merged>)
    requires tau > 0.0
    ensures r.Some? <==> Mergeable(cylinder, loop, tau)
    ensures r.Some? ==> MergeOf(loop, tau, r.value)
  {
    hide Count, Consistent, AllWind, RunsOf, RunsAre;
    if !cylinder {
      return None;
    }
    var seams := FindSeams(loop);
    if seams == [] {
      assert forall e :: IsSeam(loop, e) ==> e in seams;
      return None;
    }
    assert seams[0] in seams;
    var ok := CheckSeams(loop, seams, tau);
    if !ok {
      return None;
    }
    ConsistentUsed(loop, seams[0], tau);
    var kept := AnyKept(loop, seams);
    if !kept {
      return None;
    }
    var first := FindFirst(loop, seams);
    var uses := SplitRuns(loop, seams, first);
    RunsKeep(Rotated(loop, first), seams);
    var runs := Windings(uses, tau);
    forall s, f | SeamList(loop, s) && FirstSeam(loop, s, f)
      ensures RunsOf(Rotated(loop, f), s) == uses
    {
      FirstSeamUnique(loop, s, seams, f, first);
    }
    if runs.None? {
      return None;
    }
    return Some(Merged(seams, runs.value));
  }

  // ------------------------------------------------------------------ the runs turn back

  /** How far the uses of some edges go, taken backwards. */
  ghost function Back(r: seq<Use>, seams: set<nat>): real {
    if r == [] then 0.0
    else
      var k := |r| - 1;
      Back(r[..k], seams) + if r[k].edge in seams then r[k].pcurve.start.u - r[k].pcurve.end.u else 0.0
  }

  ghost function Turns(runs: seq<seq<Use>>): real
    requires forall k :: 0 <= k < |runs| ==> runs[k] != []
  {
    if runs == [] then 0.0 else Turns(runs[..|runs| - 1]) + Turn(runs[|runs| - 1])
  }

  lemma {:induction false} BackConcat(p: seq<Use>, q: seq<Use>, seams: set<nat>)
    ensures Back(p + q, seams) == Back(p, seams) + Back(q, seams)
  {
    if q == [] {
      assert p + q == p;
    } else {
      var k := |q| - 1;
      assert (p + q)[..|p| + k] == p + q[..k];
      BackConcat(p, q[..k], seams);
    }
  }

  lemma BackRotated(loop: seq<Use>, first: nat, seams: set<nat>)
    requires first < |loop|
    ensures Back(Rotated(loop, first), seams) == Back(loop, seams)
  {
    BackConcat(loop[first + 1..], loop[..first + 1], seams);
    BackConcat(loop[..first + 1], loop[first + 1..], seams);
    assert loop == loop[..first + 1] + loop[first + 1..];
  }

  lemma {:induction false} BackUnion(r: seq<Use>, s: set<nat>, e: nat)
    requires e !in s
    ensures Back(r, s + {e}) == Back(r, s) + Back(r, {e})
  {
    if r != [] {
      BackUnion(r[..|r| - 1], s, e);
    }
  }

  /** The two uses of an edge give their two parts. */
  lemma {:induction false} BackPair(r: seq<Use>, loop: seq<Use>, e: nat, a: nat, b: nat)
    requires Positions(loop, e, a, b) && |r| <= |loop| && r == loop[..|r|]
    ensures Back(r, {e}) ==
      (if a < |r| then loop[a].pcurve.start.u - loop[a].pcurve.end.u else 0.0) +
      (if b < |r| then loop[b].pcurve.start.u - loop[b].pcurve.end.u else 0.0)
  {
    if r != [] {
      var k := |r| - 1;
      assert r[..k] == loop[..k];
      BackPair(r[..k], loop, e, a, b);
    }
  }

  /** A consistent seam goes as far back as forth. */
  lemma SeamCancels(loop: seq<Use>, e: nat, tau: real)
    requires Consistent(loop, e, tau)
    ensures Back(loop, {e}) == 0.0
  {
    var a: nat, b: nat :| PairAt(loop, e, tau, a, b);
    assert loop == loop[..|loop|];
    BackPair(loop, loop, e, a, b);
  }

  lemma {:induction false} SeamsCancel(loop: seq<Use>, seams: set<nat>, tau: real)
    requires forall e :: e in seams ==> Consistent(loop, e, tau)
    ensures Back(loop, seams) == 0.0
    decreases |seams|
  {
    hide Consistent;
    if seams == {} {
      NoSeams(loop);
    } else {
      var e :| e in seams;
      SeamsCancel(loop, seams - {e}, tau);
      BackUnion(loop, seams - {e}, e);
      assert seams - {e} + {e} == seams;
      SeamCancels(loop, e, tau);
    }
  }

  lemma {:induction false} NoSeams(r: seq<Use>)
    ensures Back(r, {}) == 0.0
  {
    if r != [] {
      NoSeams(r[..|r| - 1]);
    }
  }

  /** Each seam use in the cyclic list r continues the use before it and is continued by the one behind. */
  ghost predicate Joins(r: seq<Use>, seams: seq<nat>) {
    forall k :: 0 <= k < |r| && r[k].edge in seams ==> Continues(r, k)
  }

  lemma RotatedJoins(loop: seq<Use>, first: nat, seams: seq<nat>)
    requires first < |loop| && Joins(loop, seams)
    ensures Joins(Rotated(loop, first), seams)
  {
    var r, n := Rotated(loop, first), |loop|;
    forall k | 0 <= k < |r| && r[k].edge in seams
      ensures Continues(r, k)
    {
      var j := if k < n - first - 1 then k + first + 1 else k - (n - first - 1);
      assert r[k] == loop[j];
      assert Continues(loop, j);
      assert r[Before(n, k)] == loop[Before(n, j)];
      assert r[After(n, k)] == loop[After(n, j)];
    }
  }

  /** Where the last seam use before position m ends. */
  ghost function LastEnd(r: seq<Use>, seams: seq<nat>, m: nat): real
    requires m <= |r| && r != []
  {
    if m == 0 then r[|r| - 1].pcurve.end.u
    else if r[m - 1].edge in seams then r[m - 1].pcurve.end.u
    else LastEnd(r, seams, m - 1)
  }

  ghost predicate OpenRun(r: seq<Use>, seams: seq<nat>, m: nat, run: seq<Use>)
    requires m <= |r| && r != []
  {
    if run == [] then m == 0 || r[m - 1].edge in seams
    else m > 0 && run[|run| - 1] == r[m - 1] && run[0].pcurve.start.u == LastEnd(r, seams, m)
  }

  lemma TurnsAppend(runs: seq<seq<Use>>, run: seq<Use>)
    requires run != [] && forall k :: 0 <= k < |runs| ==> runs[k] != []
    ensures Turns(runs + [run]) == Turns(runs) + Turn(run)
  {
    assert (runs + [run])[..|runs|] == runs;
  }

  lemma EmptyRunEnd(r: seq<Use>, seams: seq<nat>, m: nat)
    requires m < |r| && OpenRun(r, seams, m, [])
    ensures LastEnd(r, seams, m) == r[Before(|r|, m)].pcurve.end.u
  {
  }

  /** The closed runs of the first m uses turn as far as the seam uses among them go back, up to where the last
      one ends. */
  lemma {:induction false} SplitTurns(r: seq<Use>, seams: seq<nat>, m: nat)
    requires m <= |r| && r != [] && Joins(r, seams) && r[|r| - 1].edge in seams
    ensures var (runs, run) := Split(r[..m], seams);
      && (forall k :: 0 <= k < |runs| ==> runs[k] != [])
      && OpenRun(r, seams, m, run)
      && Turns(runs) == Back(r[..m], set e | e in seams) + LastEnd(r, seams, m) - LastEnd(r, seams, 0)
  {
    hide Continues;
    if m > 0 {
      SplitTurns(r, seams, m - 1);
      assert r[..m][..m - 1] == r[..m - 1];
      var (runs, run) := Split(r[..m - 1], seams);
      SplitTurnsStep(r, seams, m - 1, runs, run);
    }
  }

  lemma SplitTurnsStep(r: seq<Use>, seams: seq<nat>, m: nat, runs: seq<seq<Use>>, run: seq<Use>)
    requires m < |r| && Joins(r, seams) && r[|r| - 1].edge in seams
    requires (forall k :: 0 <= k < |runs| ==> runs[k] != []) && OpenRun(r, seams, m, run)
    ensures r[m].edge !in seams ==>
      OpenRun(r, seams, m + 1, run + [r[m]]) && LastEnd(r, seams, m + 1) == LastEnd(r, seams, m)
    ensures r[m].edge in seams ==>
      && OpenRun(r, seams, m + 1, [])
      && Turns(if run == [] then runs else runs + [run])
         == Turns(runs) + r[m].pcurve.start.u - LastEnd(r, seams, m)
      && LastEnd(r, seams, m + 1) == r[m].pcurve.end.u
  {
    hide Turns;
    if r[m].edge in seams {
      assert Continues(r, m);
      if run == [] {
        EmptyRunEnd(r, seams, m);
      } else {
        TurnsAppend(runs, run);
      }
    } else if run == [] {
      EmptyRunEnd(r, seams, m);
      var b := Before(|r|, m);
      assert r[b].edge in seams;
      assert Continues(r, b);
      assert After(|r|, b) == m;
    }
  }

  lemma RunsTurnBack(r: seq<Use>, seams: seq<nat>)
    requires r != [] && Joins(r, seams) && r[|r| - 1].edge in seams
    ensures forall k :: 0 <= k < |RunsOf(r, seams)| ==> RunsOf(r, seams)[k] != []
    ensures Turns(RunsOf(r, seams)) == Back(r, set e | e in seams)
  {
    hide Joins, Turns, Back;
    assert r[..|r|] == r;
    SplitTurns(r, seams, |r|);
  }

  // ------------------------------------------------------------------ what a merge promises

  ghost function WindingSum(runs: seq<Run>): int {
    if runs == [] then 0 else WindingSum(runs[..|runs| - 1]) + runs[|runs| - 1].winding
  }

  ghost function AllUses(runs: seq<Run>): seq<Use> {
    if runs == [] then [] else AllUses(runs[..|runs| - 1]) + runs[|runs| - 1].uses
  }

  lemma WholeTurns(t: real, tau: real, w: int)
    requires tau > 0.0 && t / tau == w as real
    ensures t == Times(w as real, tau)
  {
  }

  lemma {:induction false} WindingTurns(runs: seq<Run>, uses: seq<seq<Use>>, tau: real)
    requires tau > 0.0 && RunsAre(runs, uses, tau)
    ensures Turns(uses) == Times(WindingSum(runs) as real, tau)
    ensures AllUses(runs) == Flatten(uses)
  {
    hide Times;
    if runs == [] {
      TimesUnits(tau);
    } else {
      var k := |runs| - 1;
      WindingTurns(runs[..k], uses[..k], tau);
      assert Winds(uses[k], tau);
      WholeTurns(Turn(uses[k]), tau, runs[k].winding);
      TimesSum(tau, WindingSum(runs[..k]) as real, runs[k].winding as real);
    }
  }

  lemma NoTurnNoWinding(w: int, tau: real)
    requires tau > 0.0 && Times(w as real, tau) == 0.0
    ensures w == 0
  {
    TimesZero(w as real, tau);
  }

  lemma MergedFrom(loop: seq<Use>, tau: real, m: Merged) returns (first: nat)
    requires tau > 0.0 && MergeOf(loop, tau, m)
    ensures FirstSeam(loop, m.seams, first) && RunsAre(m.runs, RunsOf(Rotated(loop, first), m.seams), tau)
  {
    hide RunsAre, SeamList;
    first :| FirstSeam(loop, m.seams, first) && RunsAre(m.runs, RunsOf(Rotated(loop, first), m.seams), tau);
  }

  lemma ListedConsistent(loop: seq<Use>, seams: seq<nat>, tau: real)
    requires tau > 0.0 && Mergeable(true, loop, tau) && SeamList(loop, seams)
    ensures forall e :: e in seams ==> Consistent(loop, e, tau)
    ensures Joins(loop, seams)
  {
    hide Consistent, Count, Joins, AllWind, RunsOf;
    SeamsJoin(loop, seams, tau);
  }

  /** The runs turn by nothing in all. */
  lemma RunsTurnNowhere(loop: seq<Use>, seams: seq<nat>, first: nat, tau: real)
    requires tau > 0.0 && Mergeable(true, loop, tau) && SeamList(loop, seams)
    requires first < |loop| && loop[first].edge in seams
    ensures forall k :: 0 <= k < |RunsOf(Rotated(loop, first), seams)| ==> RunsOf(Rotated(loop, first), seams)[k] != []
    ensures Turns(RunsOf(Rotated(loop, first), seams)) == 0.0
  {
    hide Consistent, Mergeable, SeamList, RunsOf, Joins, Turns, Back;
    ListedConsistent(loop, seams, tau);
    RotatedJoins(loop, first, seams);
    RunsTurnBack(Rotated(loop, first), seams);
    var all := set e | e in seams;
    BackRotated(loop, first, all);
    SeamsCancel(loop, all, tau);
  }

  lemma RunsWind(runs: seq<Run>, uses: seq<seq<Use>>, tau: real)
    requires tau > 0.0 && RunsAre(runs, uses, tau)
    ensures |runs| == |uses| && forall k :: 0 <= k < |runs| ==> runs[k].uses != [] && runs[k].winding != 0
  {
  }

  /** The runs are a cyclic rearrangement of exactly the uses that are not seams. */
  ghost predicate KeepsUses(loop: seq<Use>, m: Merged) {
    exists first :: FirstSeam(loop, m.seams, first) && AllUses(m.runs) == Kept(Rotated(loop, first), m.seams)
  }

  /** A merge keeps the uses that are not seams, and its windings sum to zero, none of them zero. */
  lemma MergeBalances(loop: seq<Use>, tau: real, m: Merged)
    requires tau > 0.0 && Mergeable(true, loop, tau) && MergeOf(loop, tau, m)
    ensures KeepsUses(loop, m) && WindingSum(m.runs) == 0
    ensures forall k :: 0 <= k < |m.runs| ==> m.runs[k].uses != [] && m.runs[k].winding != 0
  {
    hide Mergeable, SeamList, RunsOf, Turns, RunsAre, Kept, AllUses, Rotated, WindingSum, Flatten, Times;
    var first := MergedFrom(loop, tau, m);
    var uses := RunsOf(Rotated(loop, first), m.seams);
    RunsTurnNowhere(loop, m.seams, first, tau);
    RunsKeep(Rotated(loop, first), m.seams);
    WindingTurns(m.runs, uses, tau);
    NoTurnNoWinding(WindingSum(m.runs), tau);
    RunsWind(m.runs, uses, tau);
  }

  // ------------------------------------------------------------------ one seam

  ghost function Hits(r: seq<Use>, seams: seq<nat>): nat {
    if r == [] then 0 else Hits(r[..|r| - 1], seams) + if r[|r| - 1].edge in seams then 1 else 0
  }

  lemma {:induction false} HitsConcat(p: seq<Use>, q: seq<Use>, seams: seq<nat>)
    ensures Hits(p + q, seams) == Hits(p, seams) + Hits(q, seams)
  {
    if q == [] {
      assert p + q == p;
    } else {
      var k := |q| - 1;
      assert (p + q)[..|p| + k] == p + q[..k];
      HitsConcat(p, q[..k], seams);
    }
  }

  lemma {:induction false} HitsOne(r: seq<Use>, e: nat)
    ensures Hits(r, [e]) == Count(r, e)
  {
    if r != [] {
      HitsOne(r[..|r| - 1], e);
    }
  }

  /** Each closed run has a seam use behind it. */
  lemma {:induction false} FewRuns(r: seq<Use>, seams: seq<nat>)
    ensures |Split(r, seams).0| <= Hits(r, seams)
  {
    if r != [] {
      FewRuns(r[..|r| - 1], seams);
    }
  }

  lemma OneSeamFewRuns(loop: seq<Use>, e: nat, first: nat)
    requires first < |loop| && loop[first].edge == e && IsSeam(loop, e)
    ensures |RunsOf(Rotated(loop, first), [e])| <= 2
  {
    var r, k := Rotated(loop, first), |loop| - 1;
    hide Split, Count;
    FewRuns(r, [e]);
    HitsConcat(loop[first + 1..], loop[..first + 1], [e]);
    HitsConcat(loop[..first + 1], loop[first + 1..], [e]);
    assert loop == loop[..first + 1] + loop[first + 1..];
    HitsOne(loop, e);
    LastClosed(r, [e]);
  }

  lemma LastClosed(r: seq<Use>, seams: seq<nat>)
    requires r != [] && r[|r| - 1].edge in seams
    ensures Split(r, seams).1 == []
  {
  }

  lemma {:induction false} KeptSome(r: seq<Use>, seams: seq<nat>, k: nat)
    requires k < |r| && r[k].edge !in seams
    ensures Kept(r, seams) != []
  {
    if k < |r| - 1 {
      KeptSome(r[..|r| - 1], seams, k);
    }
  }

  lemma RotatedKept(loop: seq<Use>, seams: seq<nat>, first: nat, k: nat)
    requires first < |loop| && k < |loop| && loop[k].edge !in seams
    ensures Kept(Rotated(loop, first), seams) != []
  {
    var r := Rotated(loop, first);
    var j := if k > first then k - first - 1 else k + |loop| - first - 1;
    assert r[j] == loop[k];
    KeptSome(r, seams, j);
  }

  lemma SomethingKept(loop: seq<Use>, tau: real, seams: seq<nat>) returns (k: nat)
    requires tau > 0.0 && Mergeable(true, loop, tau) && SeamList(loop, seams)
    ensures k < |loop| && loop[k].edge !in seams
  {
    hide Consistent, Count, AllWind, RunsOf;
    k :| 0 <= k < |loop| && !IsSeam(loop, loop[k].edge);
  }

  /** Something is kept, so there is a run. */
  lemma MergeHasRuns(loop: seq<Use>, tau: real, m: Merged)
    requires tau > 0.0 && Mergeable(true, loop, tau) && MergeOf(loop, tau, m)
    ensures m.runs != []
  {
    hide Mergeable, RunsOf, RunsAre, Kept, Rotated, Flatten, Count;
    var first := MergedFrom(loop, tau, m);
    var uses := RunsOf(Rotated(loop, first), m.seams);
    RunsWind(m.runs, uses, tau);
    RunsKeep(Rotated(loop, first), m.seams);
    var k := SomethingKept(loop, tau, m.seams);
    RotatedKept(loop, m.seams, first, k);
    NoRunsNoUses(uses);
  }

  lemma TwoOpposite(runs: seq<Run>)
    requires 1 <= |runs| <= 2 && WindingSum(runs) == 0 && forall k :: 0 <= k < |runs| ==> runs[k].winding != 0
    ensures |runs| == 2 && runs[0].winding == -runs[1].winding
  {
    assert WindingSum(runs[..0]) == 0;
    if |runs| == 2 {
      assert runs[..1][..0] == runs[..0];
    }
  }

  /** One seam edge leaves exactly two runs, winding in opposite senses. */
  lemma OneSeamTwoRuns(loop: seq<Use>, tau: real, m: Merged)
    requires tau > 0.0 && Mergeable(true, loop, tau) && MergeOf(loop, tau, m) && |m.seams| == 1
    ensures |m.runs| == 2 && m.runs[0].winding == -m.runs[1].winding
  {
    hide Mergeable, RunsOf, Turns, RunsAre, Kept, Rotated, WindingSum, Flatten, Count;
    MergeBalances(loop, tau, m);
    var first := MergedFrom(loop, tau, m);
    var e := m.seams[0];
    assert m.seams == [e];
    OneSeamFewRuns(loop, e, first);
    RunsWind(m.runs, RunsOf(Rotated(loop, first), m.seams), tau);
    MergeHasRuns(loop, tau, m);
    TwoOpposite(m.runs);
  }

  lemma NoRunsNoUses(uses: seq<seq<Use>>)
    ensures uses == [] ==> Flatten(uses) == []
  {
  }

  lemma SeamsJoin(loop: seq<Use>, seams: seq<nat>, tau: real)
    requires SeamList(loop, seams) && forall e :: IsSeam(loop, e) ==> Consistent(loop, e, tau)
    ensures Joins(loop, seams)
  {
    hide Continues, Count;
    forall k | 0 <= k < |loop| && loop[k].edge in seams
      ensures Continues(loop, k)
    {
      var e := loop[k].edge;
      var a: nat, b: nat :| PairAt(loop, e, tau, a, b);
    }
  }
}

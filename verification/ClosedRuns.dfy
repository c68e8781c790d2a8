/** Runs as paths of vertices: merging a closed loop at one seam leaves two closed runs, one at each of its ends. */
module ClosedRuns {
  import opened SeamRuns
  import opened CellModel
  import opened CellConversion

  // ------------------------------------------------------------------ closed paths

  /** The vertex a use starts from. */
  function From(m: Seamed, u: Use): nat {
    if u.edge >= |m.edges| then 0 else if u.forward then m.edges[u.edge].start else m.edges[u.edge].end
  }

  function To(m: Seamed, u: Use): nat {
    if u.edge >= |m.edges| then 0 else if u.forward then m.edges[u.edge].end else m.edges[u.edge].start
  }

  /** Each use starts where the one before it ends. */
  predicate Chained(m: Seamed, uses: seq<Use>) {
    forall k :: 0 <= k < |uses| - 1 ==> To(m, uses[k]) == From(m, uses[k + 1])
  }

  /** And the first where the last ends. */
  predicate Closed(m: Seamed, uses: seq<Use>) {
    Chained(m, uses) && (uses != [] ==> To(m, uses[|uses| - 1]) == From(m, uses[0]))
  }

  /** The seamed validator finds no open loop. */
  ghost predicate ClosedLoops(m: Seamed) {
    forall f, l :: 0 <= f < |m.faces| && 0 <= l < |m.faces[f].loops| ==> Closed(m, m.faces[f].loops[l])
  }

  // ------------------------------------------------------------------ the two runs of one seam

  lemma {:induction false} SplitPlain(p: seq<Use>, q: seq<Use>, seams: seq<nat>)
    requires forall k :: 0 <= k < |q| ==> q[k].edge !in seams
    ensures Split(p + q, seams) == (Split(p, seams).0, Split(p, seams).1 + q)
  {
    if q == [] {
      assert p + q == p && Split(p, seams).1 + q == Split(p, seams).1;
    } else {
      var k := |q| - 1;
      SplitPlain(p, q[..k], seams);
      assert (p + q)[..|p| + k] == p + q[..k] && (p + q)[|p| + k] == q[k];
      var run := Split(p, seams).1;
      assert (run + q[..k]) + [q[k]] == run + q;
    }
  }

  lemma SplitSeam(p: seq<Use>, u: Use, seams: seq<nat>)
    requires u.edge in seams
    ensures var (runs, run) := Split(p, seams);
      Split(p + [u], seams) == (if run == [] then runs else runs + [run], [])
  {
    assert (p + [u])[..|p|] == p;
  }

  function Nonempty(run: seq<Use>): seq<seq<Use>> {
    if run == [] then [] else [run]
  }

  /** Two seam uses, one of them last, leave what is between them. */
  lemma SplitTwo(x: seq<Use>, b: Use, y: seq<Use>, a: Use, seams: seq<nat>)
    requires a.edge in seams && b.edge in seams
    requires forall k :: 0 <= k < |x| ==> x[k].edge !in seams
    requires forall k :: 0 <= k < |y| ==> y[k].edge !in seams
    ensures RunsOf(x + [b] + y + [a], seams) == Nonempty(x) + Nonempty(y)
  {
    var none: seq<Use> := [];
    assert none + x == x && none + y == y;
    assert Split(none, seams) == ([], []);
    hide Split;
    SplitPlain(none, x, seams);
    SplitSeam(x, b, seams);
    SplitPlain(x + [b], y, seams);
    SplitSeam(x + [b] + y, a, seams);
  }

  /** The loop read from behind its first seam use: past one part to the other seam use, and past the other part. */
  lemma RotatedTwo(loop: seq<Use>, a: nat, b: nat)
    requires a < b < |loop|
    ensures Rotated(loop, a) == loop[a + 1..b] + [loop[b]] + (loop[b + 1..] + loop[..a]) + [loop[a]]
  {
  }

  /** What a seam with uses at a and b leaves of a loop. */
  ghost predicate TwoParts(loop: seq<Use>, e: nat, a: nat, b: nat, merged: Merged) {
    && Positions(loop, e, a, b) && loop[a].forward != loop[b].forward && |merged.runs| == 2
    && merged.runs[0].uses == loop[a + 1..b] != []
    && merged.runs[1].uses == loop[b + 1..] + loop[..a] != []
  }

  lemma OneSeamPositions(loop: seq<Use>, tau: real, merged: Merged) returns (a: nat, b: nat)
    requires tau > 0.0 && Mergeable(true, loop, tau) && MergeOf(loop, tau, merged) && |merged.seams| == 1
    ensures Positions(loop, merged.seams[0], a, b) && loop[a].forward != loop[b].forward
    ensures FirstSeam(loop, merged.seams, a)
    ensures RunsAre(merged.runs, RunsOf(Rotated(loop, a), merged.seams), tau)
  {
    hide RunsAre, RunsOf, Mergeable, SeamList;
    ListedConsistent(loop, merged.seams, tau);
    var e := merged.seams[0];
    assert merged.seams == [e];
    var p: nat, q: nat :| PairAt(loop, e, tau, p, q);
    a, b := p, q;
    var first := MergedFrom(loop, tau, merged);
    assert loop[first].edge == e && loop[a].edge == e;
  }

  lemma OneSeamParts(loop: seq<Use>, tau: real, merged: Merged) returns (a: nat, b: nat)
    requires tau > 0.0 && Mergeable(true, loop, tau) && MergeOf(loop, tau, merged) && |merged.seams| == 1
    ensures TwoParts(loop, merged.seams[0], a, b, merged)
  {
    hide Mergeable, MergeOf, RunsOf, Rotated, AllWind;
    a, b := OneSeamPositions(loop, tau, merged);
    OneSeamTwoRuns(loop, tau, merged);
    var e := merged.seams[0];
    assert merged.seams == [e];
    var x, y := loop[a + 1..b], loop[b + 1..] + loop[..a];
    RotatedTwo(loop, a, b);
    SplitTwo(x, loop[b], y, loop[a], merged.seams);
    assert Nonempty(x) == [x] && Nonempty(y) == [y];
  }

  lemma PartsClosed(m: Seamed, loop: seq<Use>, e: nat, a: nat, b: nat, merged: Merged)
    requires TwoParts(loop, e, a, b, merged) && Closed(m, loop)
    ensures Closed(m, merged.runs[0].uses) && Closed(m, merged.runs[1].uses)
    ensures From(m, merged.runs[0].uses[0]) == To(m, loop[a]) && From(m, merged.runs[1].uses[0]) == To(m, loop[b])
  {
    var x, y := merged.runs[0].uses, merged.runs[1].uses;
    var n := |loop|;
    assert From(m, loop[a]) == To(m, loop[b]) && From(m, loop[b]) == To(m, loop[a]);
    hide From, To;
    assert x[0] == loop[a + 1] && x[|x| - 1] == loop[b - 1];
    forall k | 0 <= k < |x| - 1
      ensures To(m, x[k]) == From(m, x[k + 1])
    {
      assert x[k] == loop[a + 1 + k] && x[k + 1] == loop[a + 1 + k + 1];
    }
    forall k | 0 <= k < |y| - 1
      ensures To(m, y[k]) == From(m, y[k + 1])
    {
      var j := b + 1 + k;
      if j + 1 < n {
        assert y[k] == loop[j] && y[k + 1] == loop[j + 1];
      } else if j + 1 == n {
        assert y[k] == loop[n - 1] && y[k + 1] == loop[0];
      } else {
        assert y[k] == loop[j - n] && y[k + 1] == loop[j - n + 1];
      }
    }
    assert y[0] == if b + 1 < n then loop[b + 1] else loop[0];
    assert y[|y| - 1] == if a > 0 then loop[a - 1] else loop[n - 1];
  }

  /** One seam edge of a closed loop leaves two closed runs, and each end of the seam starts one of them. */
  lemma OneSeamClosed(m: Seamed, loop: seq<Use>, tau: real, merged: Merged)
    requires tau > 0.0 && Mergeable(true, loop, tau) && MergeOf(loop, tau, merged) && |merged.seams| == 1
    requires Closed(m, loop)
    ensures |merged.runs| == 2 && merged.runs[0].uses != [] && merged.runs[1].uses != []
    ensures Closed(m, merged.runs[0].uses) && Closed(m, merged.runs[1].uses)
    ensures var e, v, w := merged.seams[0], From(m, merged.runs[0].uses[0]), From(m, merged.runs[1].uses[0]);
      e < |m.edges| ==> {m.edges[e].start, m.edges[e].end} == {v, w}
  {
    hide Mergeable, MergeOf, Closed;
    var a, b := OneSeamParts(loop, tau, merged);
    PartsClosed(m, loop, merged.seams[0], a, b, merged);
    assert loop[a].edge == merged.seams[0] && loop[b].edge == merged.seams[0];
  }
}

/** Merging does not depend on where a loop is read from, nor on where the period begins. */
module SeamRotations {
  import opened Basics
  import opened SeamRuns

  // ------------------------------------------------------------------ what a pair is

  /** The segment moved along u. */
  function Moved(p: PCurve, shift: real): PCurve
    requires p.Line2?
  {
    Line2(Point(p.start.u + shift, p.start.v), Point(p.end.u + shift, p.end.v))
  }

  /** An accepted pair is one segment, run along in the two senses, a period to one side or the other. */
  lemma PairIsMoved(a: Use, b: Use, tau: real)
    ensures PeriodApart(a, b, tau) <==>
      && a.forward != b.forward && a.pcurve.Line2? && b.pcurve.Line2?
      && (a.pcurve == Moved(Line2(b.pcurve.end, b.pcurve.start), tau) ||
          a.pcurve == Moved(Line2(b.pcurve.end, b.pcurve.start), -tau))
  {
  }

  // ------------------------------------------------------------------ positions round a loop

  /** Where use k of the loop is when it is read from behind use f. */
  function Turned(n: nat, f: nat, k: nat): (j: nat)
    requires f < n && k < n
    ensures j < n
  {
    if k > f then k - f - 1 else n - f - 1 + k
  }

  lemma TurnedAt(loop: seq<Use>, f: nat, k: nat)
    requires f < |loop| && k < |loop|
    ensures Rotated(loop, f)[Turned(|loop|, f, k)] == loop[k]
    ensures Before(|loop|, Turned(|loop|, f, k)) == Turned(|loop|, f, Before(|loop|, k))
    ensures After(|loop|, Turned(|loop|, f, k)) == Turned(|loop|, f, After(|loop|, k))
  {
  }

  /** And the other way: use j of the rotated loop. */
  function Unturned(n: nat, f: nat, j: nat): (k: nat)
    requires f < n && j < n
    ensures k < n && Turned(n, f, k) == j
  {
    if j + f + 1 < n then j + f + 1 else j + f + 1 - n
  }

  lemma TurnedContinues(loop: seq<Use>, f: nat, k: nat)
    requires f < |loop| && k < |loop|
    ensures Continues(Rotated(loop, f), Turned(|loop|, f, k)) <==> Continues(loop, k)
  {
    var n := |loop|;
    TurnedAt(loop, f, k);
    TurnedAt(loop, f, Before(n, k));
    TurnedAt(loop, f, After(n, k));
  }

  /** A rotation can be undone by one. */
  lemma TurnedBack(loop: seq<Use>, f: nat)
    requires f < |loop|
    ensures var g := if f + 1 == |loop| then f else |loop| - f - 2; g < |loop| && Rotated(Rotated(loop, f), g) == loop
  {
    var n := |loop|;
    assert loop == loop[..f + 1] + loop[f + 1..];
    if f + 1 == n {
      assert loop[n..] == [] && loop[..n] == loop;
    } else {
      var r := Rotated(loop, f);
      assert r[n - f - 1..] == loop[..f + 1] && r[..n - f - 1] == loop[f + 1..];
    }
  }

  // ------------------------------------------------------------------ seams

  lemma {:induction false} CountConcat(p: seq<Use>, q: seq<Use>, e: nat)
    ensures Count(p + q, e) == Count(p, e) + Count(q, e)
  {
    if q == [] {
      assert p + q == p;
    } else {
      var k := |q| - 1;
      assert (p + q)[..|p| + k] == p + q[..k];
      CountConcat(p, q[..k], e);
    }
  }

  lemma SameSeams(loop: seq<Use>, f: nat, e: nat)
    requires f < |loop|
    ensures IsSeam(Rotated(loop, f), e) <==> IsSeam(loop, e)
  {
    hide Count;
    CountConcat(loop[f + 1..], loop[..f + 1], e);
    CountConcat(loop[..f + 1], loop[f + 1..], e);
    assert loop == loop[..f + 1] + loop[f + 1..];
  }

  lemma ApartEitherWay(a: Use, b: Use, tau: real)
    ensures PeriodApart(a, b, tau) <==> PeriodApart(b, a, tau)
  {
  }

  lemma TurnedPositions(loop: seq<Use>, e: nat, a: nat, b: nat, f: nat)
    requires f < |loop| && Positions(loop, e, a, b)
    ensures var p, q := Turned(|loop|, f, a), Turned(|loop|, f, b);
      Positions(Rotated(loop, f), e, if p < q then p else q, if p < q then q else p)
  {
    var n, r := |loop|, Rotated(loop, f);
    forall j | 0 <= j < n
      ensures r[j] == loop[Unturned(n, f, j)]
    {
      TurnedAt(loop, f, Unturned(n, f, j));
    }
    hide Rotated;
  }

  /** A consistent seam is consistent wherever the loop begins. */
  lemma TurnedConsistent(loop: seq<Use>, e: nat, tau: real, f: nat)
    requires f < |loop| && Consistent(loop, e, tau)
    ensures Consistent(Rotated(loop, f), e, tau)
  {
    var a: nat, b: nat :| PairAt(loop, e, tau, a, b);
    var n, r := |loop|, Rotated(loop, f);
    var p, q := Turned(n, f, a), Turned(n, f, b);
    TurnedPositions(loop, e, a, b, f);
    TurnedAt(loop, f, a);
    TurnedAt(loop, f, b);
    TurnedContinues(loop, f, a);
    TurnedContinues(loop, f, b);
    ApartEitherWay(loop[a], loop[b], tau);
    hide PeriodApart, Continues, Positions, Rotated;
    if p < q {
      assert PairAt(r, e, tau, p, q);
    } else {
      assert PairAt(r, e, tau, q, p);
    }
  }

  // ------------------------------------------------------------------ runs

  /** Reading on behind a seam use starts a new run. */
  lemma {:induction false} SplitConcat(p: seq<Use>, q: seq<Use>, seams: seq<nat>)
    requires Split(p, seams).1 == []
    ensures Split(p + q, seams) == (Split(p, seams).0 + Split(q, seams).0, Split(q, seams).1)
  {
    if q == [] {
      assert p + q == p && Split(p, seams).0 + [] == Split(p, seams).0;
    } else {
      var k := |q| - 1;
      assert (p + q)[..|p| + k] == p + q[..k] && (p + q)[|p| + k] == q[k];
      SplitConcat(p, q[..k], seams);
      var (before, (runs, run)) := (Split(p, seams).0, Split(q[..k], seams));
      assert before + (runs + [run]) == before + runs + [run];
    }
  }

  lemma EndsInSeam(p: seq<Use>, seams: seq<nat>)
    requires p != [] && p[|p| - 1].edge in seams
    ensures Split(p, seams).1 == [] && RunsOf(p, seams) == Split(p, seams).0
  {
  }

  /** The loop read from two places, in the two parts between them. */
  lemma Halves(loop: seq<Use>, l: nat, h: nat)
    requires l < h < |loop|
    ensures var x, y := loop[l + 1..h + 1], loop[h + 1..] + loop[..l + 1];
      && Rotated(loop, l) == x + y && Rotated(loop, h) == y + x && x != [] && y != []
      && x[|x| - 1] == loop[h] && y[|y| - 1] == loop[l]
      && (x + y)[|x + y| - 1] == loop[l] && (y + x)[|y + x| - 1] == loop[h]
  {
    var x, b, c := loop[l + 1..h + 1], loop[h + 1..], loop[..l + 1];
    assert loop[l + 1..] == x + b;
    assert loop[..h + 1] == c + x;
    assert (x + b) + c == x + (b + c) && b + (c + x) == (b + c) + x;
  }

  /** Two seam uses: the runs behind the one are those behind the other, turned. */
  lemma RunsTurned(loop: seq<Use>, f: nat, g: nat, seams: seq<nat>) returns (p: seq<seq<Use>>, q: seq<seq<Use>>)
    requires f < |loop| && g < |loop| && loop[f].edge in seams && loop[g].edge in seams
    ensures RunsOf(Rotated(loop, f), seams) == p + q && RunsOf(Rotated(loop, g), seams) == q + p
  {
    if f == g {
      p, q := RunsOf(Rotated(loop, f), seams), [];
      assert p + q == p == q + p;
    } else {
      var l, h := if f < g then f else g, if f < g then g else f;
      var x, y := loop[l + 1..h + 1], loop[h + 1..] + loop[..l + 1];
      Halves(loop, l, h);
      EndsInSeam(x, seams);
      EndsInSeam(y, seams);
      EndsInSeam(x + y, seams);
      EndsInSeam(y + x, seams);
      SplitConcat(x, y, seams);
      SplitConcat(y, x, seams);
      hide Split, RunsOf;
      p := if f < g then RunsOf(x, seams) else RunsOf(y, seams);
      q := if f < g then RunsOf(y, seams) else RunsOf(x, seams);
    }
  }

  lemma WindEitherWay(p: seq<seq<Use>>, q: seq<seq<Use>>, tau: real)
    requires tau > 0.0 && AllWind(p + q, tau)
    ensures AllWind(q + p, tau)
  {
    var a, b := p + q, q + p;
    hide Winds;
    forall k | 0 <= k < |b|
      ensures b[k] != [] && Winds(b[k], tau)
    {
      assert b[k] == a[if k < |q| then |p| + k else k - |q|];
    }
  }

  /** A rotation of a rotation. */
  lemma TurnedTwice(loop: seq<Use>, f: nat, j: nat)
    requires f < |loop| && j < |loop|
    ensures Rotated(Rotated(loop, f), j) == Rotated(loop, Unturned(|loop|, f, j))
    ensures Rotated(loop, f)[j] == loop[Unturned(|loop|, f, j)]
  {
    var n, r, k := |loop|, Rotated(loop, f), Unturned(|loop|, f, j);
    assert r == loop[f + 1..] + loop[..f + 1];
    if j + f + 1 < n {
      assert r[j + 1..] == loop[k + 1..] + loop[..f + 1] && r[..j + 1] == loop[f + 1..k + 1];
      assert loop[..k + 1] == loop[..f + 1] + loop[f + 1..k + 1];
    } else {
      assert r[j + 1..] == loop[k + 1..f + 1] && r[..j + 1] == loop[f + 1..] + loop[..k + 1];
      assert loop[k + 1..] == loop[k + 1..f + 1] + loop[f + 1..];
    }
  }

  lemma SameSeamList(loop: seq<Use>, f: nat, seams: seq<nat>)
    requires f < |loop|
    ensures SeamList(Rotated(loop, f), seams) <==> SeamList(loop, seams)
  {
    hide IsSeam;
    forall e
      ensures IsSeam(Rotated(loop, f), e) <==> IsSeam(loop, e)
    {
      SameSeams(loop, f, e);
    }
  }

  /** The runs of the rotated loop are those of the loop, turned. */
  lemma RotatedRuns(loop: seq<Use>, f: nat, seams: seq<nat>, first: nat, other: nat)
    returns (p: seq<seq<Use>>, q: seq<seq<Use>>)
    requires f < |loop| && FirstSeam(loop, seams, first) && FirstSeam(Rotated(loop, f), seams, other)
    ensures RunsOf(Rotated(loop, first), seams) == p + q
    ensures RunsOf(Rotated(Rotated(loop, f), other), seams) == q + p
  {
    TurnedTwice(loop, f, other);
    hide RunsOf, Rotated;
    p, q := RunsTurned(loop, first, Unturned(|loop|, f, other), seams);
  }

  lemma {:induction false} FirstFrom(loop: seq<Use>, seams: seq<nat>, k: nat, j: nat) returns (first: nat)
    requires k <= j < |loop| && loop[j].edge in seams && forall i :: 0 <= i < k ==> loop[i].edge !in seams
    ensures FirstSeam(loop, seams, first)
    decreases j - k
  {
    if loop[k].edge in seams {
      first := k;
    } else {
      first := FirstFrom(loop, seams, k + 1, j);
    }
  }

  lemma SomeFirst(loop: seq<Use>, e: nat, tau: real, seams: seq<nat>) returns (first: nat)
    requires Consistent(loop, e, tau) && e in seams
    ensures FirstSeam(loop, seams, first)
  {
    ConsistentUsed(loop, e, tau);
    var j :| 0 <= j < |loop| && loop[j].edge == e;
    first := FirstFrom(loop, seams, 0, j);
  }

  lemma MergeableTurned(loop: seq<Use>, f: nat, tau: real)
    requires tau > 0.0 && f < |loop| && Mergeable(true, loop, tau)
    ensures Mergeable(true, Rotated(loop, f), tau)
  {
    var r, n := Rotated(loop, f), |loop|;
    hide IsSeam, Consistent, Rotated, RunsOf, AllWind, FirstSeam;
    forall e
      ensures IsSeam(r, e) <==> IsSeam(loop, e)
      ensures IsSeam(r, e) ==> Consistent(r, e, tau)
    {
      SameSeams(loop, f, e);
      if IsSeam(loop, e) {
        TurnedConsistent(loop, e, tau, f);
      }
    }
    var e :| IsSeam(loop, e);
    var k :| 0 <= k < n && !IsSeam(loop, loop[k].edge);
    TurnedAt(loop, f, k);
    assert !IsSeam(r, r[Turned(n, f, k)].edge);
    forall seams, other | SeamList(r, seams) && FirstSeam(r, seams, other)
      ensures AllWind(RunsOf(Rotated(r, other), seams), tau)
    {
      SameSeamList(loop, f, seams);
      var first := SomeFirst(loop, e, tau, seams);
      var p, q := RotatedRuns(loop, f, seams, first, other);
      WindEitherWay(p, q, tau);
    }
  }

  /** A loop merges wherever it is read from. */
  lemma MergeableAnywhere(loop: seq<Use>, f: nat, tau: real)
    requires tau > 0.0 && f < |loop|
    ensures Mergeable(true, Rotated(loop, f), tau) <==> Mergeable(true, loop, tau)
  {
    hide Mergeable, Rotated;
    if Mergeable(true, loop, tau) {
      MergeableTurned(loop, f, tau);
    }
    if Mergeable(true, Rotated(loop, f), tau) {
      TurnedBack(loop, f);
      MergeableTurned(Rotated(loop, f), if f + 1 == |loop| then f else |loop| - f - 2, tau);
    }
  }

  /** Into the same runs with the same windings, the later ones first. */
  lemma MergedAnywhere(loop: seq<Use>, f: nat, tau: real, merged: Merged, other: Merged)
    returns (p: seq<Run>, q: seq<Run>)
    requires tau > 0.0 && f < |loop|
    requires MergeOf(loop, tau, merged) && MergeOf(Rotated(loop, f), tau, other)
    ensures merged.runs == p + q && other.runs == q + p
    ensures forall e :: e in merged.seams <==> e in other.seams
  {
    hide IsSeam, Rotated, RunsOf, AllWind, Turn;
    var first :| FirstSeam(loop, merged.seams, first) &&
      RunsAre(merged.runs, RunsOf(Rotated(loop, first), merged.seams), tau);
    var r := Rotated(loop, f);
    var second :| FirstSeam(r, other.seams, second) &&
      RunsAre(other.runs, RunsOf(Rotated(r, second), other.seams), tau);
    SameSeamList(loop, f, other.seams);
    assert FirstSeam(r, merged.seams, second);
    SameRuns(Rotated(r, second), merged.seams, other.seams);
    var x, y := RotatedRuns(loop, f, merged.seams, first, second);
    p, q := merged.runs[..|x|], merged.runs[|x|..];
    hide FirstSeam, SeamList;
    TurnedRuns(merged.runs, other.runs, x, y, tau);
  }

  lemma SameRuns(r: seq<Use>, s: seq<nat>, t: seq<nat>)
    requires forall e :: e in s <==> e in t
    ensures RunsOf(r, s) == RunsOf(r, t)
  {
    SameSplit(r, s, t);
  }

  lemma TurnedRuns(runs: seq<Run>, others: seq<Run>, x: seq<seq<Use>>, y: seq<seq<Use>>, tau: real)
    requires tau > 0.0 && RunsAre(runs, x + y, tau) && RunsAre(others, y + x, tau)
    ensures |x| <= |runs| && others == runs[|x|..] + runs[..|x|]
  {
    hide Turn, Winds;
    var a, b := x + y, y + x;
    forall k | 0 <= k < |others|
      ensures others[k] == (runs[|x|..] + runs[..|x|])[k]
    {
      var j := if k < |y| then |x| + k else k - |y|;
      assert b[k] == a[j];
      assert others[k].uses == runs[j].uses && others[k].winding == runs[j].winding;
    }
  }
}

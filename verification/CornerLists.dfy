/** Corner lists in general: what dropping repeated corners and turning the list round keeps. */
module CornerLists {
  import opened ConvexPolygons

  /** Twice the area between the origin and the path along the corners. */
  ghost function Path(q: seq<Point>): real {
    if |q| < 2 then 0.0 else Path(q[..|q| - 1]) + Cross(q[|q| - 2], q[|q| - 1])
  }

  /** And back to the first corner. */
  ghost function Closed(q: seq<Point>): real
    requires q != []
  {
    Path(q) + Cross(q[|q| - 1], q[0])
  }

  lemma {:induction false} ShoelacePath(q: seq<Point>, m: nat)
    requires m < |q|
    ensures Shoelace(q, m) == Path(q[..m + 1])
    decreases m
  {
    hide Cross;
    if m == 0 {
      assert |q[..1]| == 1;
    } else {
      ShoelacePath(q, m - 1);
      assert q[..m + 1][..m] == q[..m];
    }
  }

  lemma ShoelaceClosed(q: seq<Point>)
    requires q != []
    ensures Shoelace(q, |q|) == Closed(q)
  {
    hide Cross, Path;
    ShoelacePath(q, |q| - 1);
    assert q[..|q|] == q;
  }

  /** No corner repeats the one before it. */
  ghost predicate Steps(q: seq<Point>) {
    forall k :: 0 < k < |q| ==> q[k - 1] != q[k]
  }

  ghost predicate SameCorners(q: seq<Point>, r: seq<Point>) {
    forall p :: p in q <==> p in r
  }

  lemma StandStill(p: Point)
    ensures Cross(p, p) == 0.0
  {
  }

  lemma {:induction false} DedupedKeeps(q: seq<Point>)
    requires q != []
    ensures var d := Deduped(q);
      && d != [] && d[0] == q[0] && d[|d| - 1] == q[|q| - 1] && Path(d) == Path(q) && Steps(d) && SameCorners(d, q)
  {
    hide Cross;
    var k := |q| - 1;
    assert q == q[..k] + [q[k]];
    if k > 0 {
      DedupedKeeps(q[..k]);
      StandStill(q[k]);
      var b := Deduped(q[..k]);
      assert (b + [q[k]])[..|b|] == b;
    } else {
      assert Deduped(q[..0]) == [];
    }
  }

  lemma {:induction false} PoppedKeeps(d: seq<Point>)
    requires d != [] && Steps(d)
    ensures var r := Popped(d);
      && r != [] && r[0] == d[0] && Closed(r) == Closed(d) && Steps(r) && SameCorners(r, d)
      && (|r| > 1 ==> r[0] != r[|r| - 1])
    decreases |d|
  {
    hide Cross;
    var k := |d| - 1;
    if k > 0 && d[0] == d[k] {
      PoppedKeeps(d[..k]);
      StandStill(d[0]);
      assert d == d[..k] + [d[k]];
      assert d[0] in d[..k];
    }
  }

  lemma {:induction false} PathCons(p: Point, q: seq<Point>)
    requires q != []
    ensures Path([p] + q) == Cross(p, q[0]) + Path(q)
  {
    hide Cross;
    var k := |q| - 1;
    assert ([p] + q)[..k + 1] == [p] + q[..k];
    if k > 0 {
      PathCons(p, q[..k]);
    } else {
      assert Path([p]) == 0.0;
    }
  }

  lemma CrossTurns(a: Point, b: Point)
    ensures Cross(a, b) == -Cross(b, a)
  {
  }

  lemma {:induction false} BackwardsPath(q: seq<Point>)
    ensures Path(Backwards(q)) == -Path(q)
  {
    hide Cross;
    if |q| >= 2 {
      var k := |q| - 1;
      BackwardsPath(q[..k]);
      assert Backwards(q) == [q[k]] + Backwards(q[..k]);
      PathCons(q[k], Backwards(q[..k]));
      CrossTurns(q[k], q[k - 1]);
    }
  }

  lemma BackwardsKeeps(q: seq<Point>)
    requires q != [] && Steps(q) && (|q| > 1 ==> q[0] != q[|q| - 1])
    ensures var r := Backwards(q);
      && r != [] && r[|r| - 1] == q[0] && Closed(r) == -Closed(q) && Steps(r) && SameCorners(r, q)
      && (|r| > 1 ==> r[0] != r[|r| - 1])
  {
    hide Cross, Path;
    var r := Backwards(q);
    BackwardsPath(q);
    CrossTurns(q[|q| - 1], q[0]);
    forall p
      ensures p in r <==> p in q
    {
      if p in q {
        var k :| 0 <= k < |q| && q[k] == p;
        assert r[|q| - 1 - k] == p;
      }
    }
  }

  /** `ccw` gives nothing or a list of at least three corners, the given ones, none like the next round, whose area is
      the given list's, taken positively; it starts with the given list's first corner unless it turned the list. */
  lemma CcwKeeps(q: seq<Point>)
    ensures var r := CounterClockwise(q);
      r == [] ||
      (q != [] && |r| >= 3 && SameCorners(r, q) && Steps(r) && r[0] != r[|r| - 1]
       && (if Closed(q) < 0.0 then r[|r| - 1] == q[0] else r[0] == q[0])
       && Closed(r) == if Closed(q) < 0.0 then -Closed(q) else Closed(q))
  {
    hide Cross, Path, Deduped, Popped, Backwards, Shoelace, Closed;
    if q != [] {
      DedupedKeeps(q);
      var d := Popped(Deduped(q));
      PoppedKeeps(Deduped(q));
      ShoelaceClosed(d);
      DedupedArea(q);
      BackwardsKeeps(d);
    } else {
      NoCorners();
    }
  }

  lemma DedupedArea(q: seq<Point>)
    requires q != []
    ensures Deduped(q) != [] && Deduped(q)[0] == q[0] && Closed(Deduped(q)) == Closed(q)
  {
    hide Cross, Path, Deduped;
    DedupedKeeps(q);
  }

  lemma NoCorners()
    ensures CounterClockwise([]) == []
  {
    assert Deduped([]) == [];
  }
}

/** A band's sweep: the crossings of two profiles along a line cut it into pieces of the atoms AB, A and B. */
module ParitySweep {
  import opened Basics

  datatype Atom = AB | A | B

  /** A boundary element's crossing with the line: where, and which element. */
  datatype Crossing = Crossing(x: real, key: nat)

  datatype Piece = Piece(left: real, leftKey: nat, right: real, rightKey: nat, atom: Atom)

  // ------------------------------------------------------------------ sorted by x

  ghost predicate Sorted(xs: seq<Crossing>) {
    forall j, k :: 0 <= j < k < |xs| ==> xs[j].x <= xs[k].x
  }

  /** c put behind the crossings that do not exceed it, as a stable sort does. */
  function Placed(xs: seq<Crossing>, c: Crossing): (r: seq<Crossing>)
    ensures multiset(r) == multiset(xs) + multiset{c}
  {
    if xs == [] then [c]
    else
      var k := |xs| - 1;
      assert xs == xs[..k] + [xs[k]];
      if xs[k].x <= c.x then xs + [c] else Placed(xs[..k], c) + [xs[k]]
  }

  function SortedByX(xs: seq<Crossing>): (r: seq<Crossing>)
    ensures multiset(r) == multiset(xs)
  {
    if xs == [] then []
    else
      var k := |xs| - 1;
      assert xs == xs[..k] + [xs[k]];
      Placed(SortedByX(xs[..k]), xs[k])
  }

  lemma SortedAppend(xs: seq<Crossing>, c: Crossing)
    requires Sorted(xs) && forall e :: e in multiset(xs) ==> e.x <= c.x
    ensures Sorted(xs + [c])
  {
    forall k | 0 <= k < |xs|
      ensures xs[k].x <= c.x
    {
      assert xs[k] in multiset(xs);
    }
  }

  lemma {:induction false} PlacedSorted(xs: seq<Crossing>, c: Crossing)
    requires Sorted(xs)
    ensures Sorted(Placed(xs, c))
  {
    if xs != [] {
      var k := |xs| - 1;
      if xs[k].x <= c.x {
        forall e | e in multiset(xs)
          ensures e.x <= c.x
        {
          var j :| 0 <= j < |xs| && xs[j] == e;
        }
        SortedAppend(xs, c);
      } else {
        PlacedSorted(xs[..k], c);
        forall e | e in multiset(Placed(xs[..k], c))
          ensures e.x <= xs[k].x
        {
          if e != c {
            assert e in xs[..k];
            var j :| 0 <= j < k && xs[j] == e;
          }
        }
        SortedAppend(Placed(xs[..k], c), xs[k]);
      }
    }
  }

  lemma {:induction false} SortSorts(xs: seq<Crossing>)
    ensures Sorted(SortedByX(xs))
  {
    if xs != [] {
      SortSorts(xs[..|xs| - 1]);
      PlacedSorted(SortedByX(xs[..|xs| - 1]), xs[|xs| - 1]);
    }
  }

  // ------------------------------------------------------------------ parity

  function Below(xs: seq<Crossing>, u: real): nat {
    if xs == [] then 0 else Below(xs[..|xs| - 1], u) + if xs[|xs| - 1].x < u then 1 else 0
  }

  /** u lies inside the profile: an odd number of crossings on its left. */
  predicate Inside(xs: seq<Crossing>, u: real) {
    Below(xs, u) % 2 == 1
  }

  /** The atom u lies in. */
  function AtomAt(xa: seq<Crossing>, xb: seq<Crossing>, u: real): Option<Atom> {
    if Inside(xa, u) && Inside(xb, u) then Some(AB)
    else if Inside(xa, u) then Some(A)
    else if Inside(xb, u) then Some(B)
    else None
  }

  ghost predicate On(xs: seq<Crossing>, u: real) {
    exists k :: 0 <= k < |xs| && xs[k].x == u
  }

  lemma {:induction false} SameBelow(xs: seq<Crossing>, u: real, v: real)
    requires forall k :: 0 <= k < |xs| ==> (xs[k].x < u <==> xs[k].x < v)
    ensures Below(xs, u) == Below(xs, v)
  {
    if xs != [] {
      SameBelow(xs[..|xs| - 1], u, v);
    }
  }

  lemma {:induction false} AllBelow(xs: seq<Crossing>, u: real)
    ensures (forall k :: 0 <= k < |xs| ==> xs[k].x < u) ==> Below(xs, u) == |xs|
    ensures (forall k :: 0 <= k < |xs| ==> !(xs[k].x < u)) ==> Below(xs, u) == 0
  {
    if xs != [] {
      AllBelow(xs[..|xs| - 1], u);
    }
  }

  method CountBelow(xs: seq<Crossing>, u: real) returns (n: nat)
    ensures n == Below(xs, u)
  {
    n := 0;
    for k := 0 to |xs|
      invariant n == Below(xs[..k], u)
    {
      assert xs[..k + 1][..k] == xs[..k];
      if xs[k].x < u {
        n := n + 1;
      }
    }
    assert xs[..|xs|] == xs;
  }

  // ------------------------------------------------------------------ the sweep

  ghost predicate Covers(p: Piece, u: real) {
    p.left < u < p.right
  }

  /** Pieces from left to right. */
  ghost predicate Ordered(pieces: seq<Piece>) {
    && (forall k :: 0 <= k < |pieces| ==> pieces[k].left < pieces[k].right)
    && forall j, k :: 0 <= j < k < |pieces| ==> pieces[j].right <= pieces[k].left
  }

  ghost predicate InPiece(pieces: seq<Piece>, u: real, atom: Atom) {
    exists k :: 0 <= k < |pieces| && Covers(pieces[k], u) && pieces[k].atom == atom
  }

  /** The two lists' crossings are those of the merged one. */
  lemma MergedCrossings(xa: seq<Crossing>, xb: seq<Crossing>, xs: seq<Crossing>)
    requires multiset(xs) == multiset(xa + xb)
    ensures forall u: real :: On(xs, u) <==> On(xa, u) || On(xb, u)
  {
    forall u: real
      ensures On(xs, u) <==> On(xa, u) || On(xb, u)
    {
      if k :| 0 <= k < |xs| && xs[k].x == u {
        assert xs[k] in multiset(xa + xb);
        assert xs[k] in xa || xs[k] in xb;
      }
      if k :| 0 <= k < |xa| && xa[k].x == u {
        assert xa[k] in xa + xb && xa[k] in multiset(xs);
        assert xa[k] in xs;
      }
      if k :| 0 <= k < |xb| && xb[k].x == u {
        assert xb[k] in xa + xb && xb[k] in multiset(xs);
        assert xb[k] in xs;
      }
    }
  }

  /** Between two neighbours of the merged list nothing changes. */
  lemma GapIsUniform(xa: seq<Crossing>, xb: seq<Crossing>, xs: seq<Crossing>, k: nat, u: real, v: real)
    requires Sorted(xs) && k + 1 < |xs| && (forall w: real :: On(xs, w) <==> On(xa, w) || On(xb, w))
    requires xs[k].x < u < xs[k + 1].x && xs[k].x < v < xs[k + 1].x
    ensures Below(xa, u) == Below(xa, v) && Below(xb, u) == Below(xb, v)
  {
    forall j | 0 <= j < |xa|
      ensures xa[j].x < u <==> xa[j].x < v
    {
      assert On(xa, xa[j].x);
      Beside(xs, k, xa[j].x, u, v);
    }
    forall j | 0 <= j < |xb|
      ensures xb[j].x < u <==> xb[j].x < v
    {
      assert On(xb, xb[j].x);
      Beside(xs, k, xb[j].x, u, v);
    }
    SameBelow(xa, u, v);
    SameBelow(xb, u, v);
  }

  lemma Beside(xs: seq<Crossing>, k: nat, x: real, u: real, v: real)
    requires Sorted(xs) && k + 1 < |xs| && On(xs, x)
    requires xs[k].x < u < xs[k + 1].x && xs[k].x < v < xs[k + 1].x
    ensures x < u <==> x < v
  {
    var j :| 0 <= j < |xs| && xs[j].x == x;
  }

  /** The pieces say the atom of every point off the crossings and left of the first m gaps' end. */
  ghost predicate SweptTo(pieces: seq<Piece>, xa: seq<Crossing>, xb: seq<Crossing>, xs: seq<Crossing>, m: nat)
    requires m < |xs|
  {
    && Ordered(pieces)
    && (forall k :: 0 <= k < |pieces| ==> xs[0].x <= pieces[k].left && pieces[k].right <= xs[m].x)
    && forall u: real, atom: Atom :: xs[0].x < u < xs[m].x && !On(xs, u) ==>
      (InPiece(pieces, u, atom) <==> AtomAt(xa, xb, u) == Some(atom))
  }

  lemma InPieceAppend(pieces: seq<Piece>, p: Piece, u: real, atom: Atom)
    ensures InPiece(pieces + [p], u, atom) <==> InPiece(pieces, u, atom) || (Covers(p, u) && p.atom == atom)
  {
    var all := pieces + [p];
    if InPiece(pieces, u, atom) {
      var k :| 0 <= k < |pieces| && Covers(pieces[k], u) && pieces[k].atom == atom;
      assert all[k] == pieces[k];
    }
    assert all[|pieces|] == p;
  }

  lemma NotBeyond(pieces: seq<Piece>, x: real, u: real, atom: Atom)
    requires x <= u && forall k :: 0 <= k < |pieces| ==> pieces[k].right <= x
    ensures !InPiece(pieces, u, atom)
  {
  }

  lemma OneGap(pieces: seq<Piece>, more: seq<Piece>, xa: seq<Crossing>, xb: seq<Crossing>, xs: seq<Crossing>, m: nat,
               mid: real)
    requires Sorted(xs) && m + 1 < |xs| && (forall w: real :: On(xs, w) <==> On(xa, w) || On(xb, w))
    requires SweptTo(pieces, xa, xb, xs, m)
    requires xs[m].x < xs[m + 1].x && xs[m].x < mid < xs[m + 1].x
    requires var atom := AtomAt(xa, xb, mid);
      more == if atom == None then pieces
              else pieces + [Piece(xs[m].x, xs[m].key, xs[m + 1].x, xs[m + 1].key, atom.value)]
    ensures SweptTo(more, xa, xb, xs, m + 1)
  {
    hide InPiece, AtomAt, On, Sorted;
    SortedAt(xs, 0, m);
    forall u: real, atom: Atom | xs[0].x < u < xs[m + 1].x && !On(xs, u)
      ensures InPiece(more, u, atom) <==> AtomAt(xa, xb, u) == Some(atom)
    {
      if AtomAt(xa, xb, mid) != None {
        InPieceAppend(pieces, more[|pieces|], u, atom);
      }
      if u > xs[m].x {
        NotBeyond(pieces, xs[m].x, u, atom);
        SameAtom(xa, xb, xs, m, u, mid);
      } else {
        NotOn(xs, m, u);
      }
    }
  }

  lemma SortedAt(xs: seq<Crossing>, j: nat, k: nat)
    requires Sorted(xs) && j <= k < |xs|
    ensures xs[j].x <= xs[k].x
  {
  }

  lemma NotOn(xs: seq<Crossing>, m: nat, u: real)
    requires m < |xs| && !On(xs, u)
    ensures u != xs[m].x
  {
  }

  lemma SameAtom(xa: seq<Crossing>, xb: seq<Crossing>, xs: seq<Crossing>, k: nat, u: real, v: real)
    requires Sorted(xs) && k + 1 < |xs| && (forall w: real :: On(xs, w) <==> On(xa, w) || On(xb, w))
    requires xs[k].x < u < xs[k + 1].x && xs[k].x < v < xs[k + 1].x
    ensures AtomAt(xa, xb, u) == AtomAt(xa, xb, v)
  {
    GapIsUniform(xa, xb, xs, k, u, v);
  }

  /** Every point off the crossings lies in a piece of the atom its two parities say, and in no other. */
  ghost predicate Swept(pieces: seq<Piece>, xa: seq<Crossing>, xb: seq<Crossing>) {
    && Ordered(pieces)
    && forall u: real, atom: Atom :: !On(xa, u) && !On(xb, u) ==>
      (InPiece(pieces, u, atom) <==> AtomAt(xa, xb, u) == Some(atom))
  }

  lemma Beyond(pieces: seq<Piece>, xa: seq<Crossing>, xb: seq<Crossing>, xs: seq<Crossing>, u: real, atom: Atom)
    requires |xa| % 2 == 0 && |xb| % 2 == 0 && |xs| >= 1 && Sorted(xs)
    requires forall w: real :: On(xs, w) <==> On(xa, w) || On(xb, w)
    requires SweptTo(pieces, xa, xb, xs, |xs| - 1) && !On(xs, u)
    ensures InPiece(pieces, u, atom) <==> AtomAt(xa, xb, u) == Some(atom)
  {
    NotOn(xs, 0, u);
    NotOn(xs, |xs| - 1, u);
    if u < xs[0].x || u > xs[|xs| - 1].x {
      forall j | 0 <= j < |xa|
        ensures xa[j].x < u <==> u > xs[|xs| - 1].x
      {
        assert On(xa, xa[j].x);
        Ends(xs, xa[j].x);
      }
      forall j | 0 <= j < |xb|
        ensures xb[j].x < u <==> u > xs[|xs| - 1].x
      {
        assert On(xb, xb[j].x);
        Ends(xs, xb[j].x);
      }
      AllBelow(xa, u);
      AllBelow(xb, u);
    }
  }

  lemma Ends(xs: seq<Crossing>, x: real)
    requires |xs| >= 1 && Sorted(xs) && On(xs, x)
    ensures xs[0].x <= x <= xs[|xs| - 1].x
  {
  }

  lemma NoCrossings(xa: seq<Crossing>, xb: seq<Crossing>)
    requires xa == [] && xb == []
    ensures Swept([], xa, xb)
  {
  }

  /** One gap of the merged crossings, classified at its middle. */
  method SweepGap(xa: seq<Crossing>, xb: seq<Crossing>, l: Crossing, r: Crossing) returns (more: seq<Piece>)
    ensures more == Gap(xa, xb, l, r)
  {
    more := [];
    if r.x != l.x {
      var mid := (l.x + r.x) / 2.0;
      var na := CountBelow(xa, mid);
      var nb := CountBelow(xb, mid);
      var inA, inB := na % 2 == 1, nb % 2 == 1;
      if inA || inB {
        var atom := if inA && inB then AB else if inA then A else B;
        more := [Piece(l.x, l.key, r.x, r.key, atom)];
      }
    }
  }

  lemma GapStep(pieces: seq<Piece>, xa: seq<Crossing>, xb: seq<Crossing>, xs: seq<Crossing>, m: nat)
    requires Sorted(xs) && m + 1 < |xs| && (forall w: real :: On(xs, w) <==> On(xa, w) || On(xb, w))
    requires SweptTo(pieces, xa, xb, xs, m)
    ensures SweptTo(pieces + Gap(xa, xb, xs[m], xs[m + 1]), xa, xb, xs, m + 1)
  {
    hide SweptTo, AtomAt, On;
    SortedAt(xs, m, m + 1);
    if xs[m].x == xs[m + 1].x {
      assert pieces + [] == pieces;
      EmptyGap(pieces, xa, xb, xs, m);
    } else {
      assert pieces + [] == pieces;
      OneGap(pieces, pieces + Gap(xa, xb, xs[m], xs[m + 1]), xa, xb, xs, m, (xs[m].x + xs[m + 1].x) / 2.0);
    }
  }

  /** One band of `Pair._bands`. None is its assertion on an odd number of crossings. */
  method Sweep(xa: seq<Crossing>, xb: seq<Crossing>) returns (r: Option<seq<Piece>>)
    ensures r.None? <==> |xa| % 2 != 0 || |xb| % 2 != 0
    ensures r.Some? ==> Swept(r.value, xa, xb) && r.value == PiecesOf(xa, xb)
  {
    hide *;
    if |xa| % 2 != 0 || |xb| % 2 != 0 {
      return None;
    }
    var xs := SortedByX(xa + xb);
    SortSorts(xa + xb);
    SortLength(xa, xb);
    MergedCrossings(xa, xb, xs);
    NoGaps(xa, xb, xs);
    var pieces := [];
    if xs == [] {
      NoCrossings(xa, xb);
    } else {
      NothingSwept(xa, xb, xs);
      for m := 0 to |xs| - 1
        invariant SweptTo(pieces, xa, xb, xs, m)
        invariant pieces == Gaps(xa, xb, xs, m)
      {
        var more := SweepGap(xa, xb, xs[m], xs[m + 1]);
        GapsMore(xa, xb, xs, m);
        GapStep(pieces, xa, xb, xs, m);
        pieces := pieces + more;
      }
      SweptAll(pieces, xa, xb, xs);
    }
    PiecesAre(xa, xb);
    return Some(pieces);
  }

  lemma PiecesAre(xa: seq<Crossing>, xb: seq<Crossing>)
    ensures PiecesOf(xa, xb) == Gaps(xa, xb, SortedByX(xa + xb), Last(|SortedByX(xa + xb)|))
    ensures SortedByX(xa + xb) == [] ==> Last(|SortedByX(xa + xb)|) == 0
    ensures SortedByX(xa + xb) != [] ==> Last(|SortedByX(xa + xb)|) == |SortedByX(xa + xb)| - 1
  {
  }

  function Last(n: nat): nat {
    if n == 0 then 0 else n - 1
  }

  lemma SortLength(xa: seq<Crossing>, xb: seq<Crossing>)
    ensures |SortedByX(xa + xb)| == |xa| + |xb|
  {
    assert |multiset(SortedByX(xa + xb))| == |multiset(xa + xb)|;
  }

  lemma NothingSwept(xa: seq<Crossing>, xb: seq<Crossing>, xs: seq<Crossing>)
    requires |xs| >= 1
    ensures SweptTo([], xa, xb, xs, 0)
  {
  }

  lemma EmptyGap(pieces: seq<Piece>, xa: seq<Crossing>, xb: seq<Crossing>, xs: seq<Crossing>, m: nat)
    requires m + 1 < |xs| && xs[m].x == xs[m + 1].x && SweptTo(pieces, xa, xb, xs, m)
    ensures SweptTo(pieces, xa, xb, xs, m + 1)
  {
  }

  lemma SweptAll(pieces: seq<Piece>, xa: seq<Crossing>, xb: seq<Crossing>, xs: seq<Crossing>)
    requires |xa| % 2 == 0 && |xb| % 2 == 0 && |xs| >= 1 && Sorted(xs)
    requires forall w: real :: On(xs, w) <==> On(xa, w) || On(xb, w)
    requires SweptTo(pieces, xa, xb, xs, |xs| - 1)
    ensures Swept(pieces, xa, xb)
  {
    hide InPiece, AtomAt, On, Sorted;
    forall u: real, atom: Atom | !On(xa, u) && !On(xb, u)
      ensures InPiece(pieces, u, atom) <==> AtomAt(xa, xb, u) == Some(atom)
    {
      Beyond(pieces, xa, xb, xs, u, atom);
    }
  }

  // ------------------------------------------------------------------ the pieces as a function of the crossings

  /** The pieces of the first m gaps. */
  function Gaps(xa: seq<Crossing>, xb: seq<Crossing>, xs: seq<Crossing>, m: nat): seq<Piece>
  {
    if m == 0 || m >= |xs| then [] else Gaps(xa, xb, xs, m - 1) + Gap(xa, xb, xs[m - 1], xs[m])
  }

  function Gap(xa: seq<Crossing>, xb: seq<Crossing>, l: Crossing, r: Crossing): seq<Piece> {
    var atom := AtomAt(xa, xb, (l.x + r.x) / 2.0);
    if l.x == r.x || atom == None then [] else [Piece(l.x, l.key, r.x, r.key, atom.value)]
  }

  function PiecesOf(xa: seq<Crossing>, xb: seq<Crossing>): seq<Piece> {
    var xs := SortedByX(xa + xb);
    Gaps(xa, xb, xs, Last(|xs|))
  }

  lemma NoGaps(xa: seq<Crossing>, xb: seq<Crossing>, xs: seq<Crossing>)
    ensures Gaps(xa, xb, xs, 0) == []
  {
  }

  lemma GapsMore(xa: seq<Crossing>, xb: seq<Crossing>, xs: seq<Crossing>, m: nat)
    requires m + 1 < |xs|
    ensures Gaps(xa, xb, xs, m + 1) == Gaps(xa, xb, xs, m) + Gap(xa, xb, xs[m], xs[m + 1])
  {
  }

  // ------------------------------------------------------------------ the atoms' integrals

  /** The integral over the pieces of some atoms: right end less left end, piece by piece. f is an element's own
      integral over the band. */
  function AtomSum(pieces: seq<Piece>, atoms: set<Atom>, f: nat -> real): real {
    if pieces == [] then 0.0
    else
      var k := |pieces| - 1;
      AtomSum(pieces[..k], atoms, f) +
      if pieces[k].atom in atoms then f(pieces[k].rightKey) - f(pieces[k].leftKey) else 0.0
  }

  /** The accumulation loop of `_bands`. */
  method Accumulate(pieces: seq<Piece>, before: map<Atom, real>, f: nat -> real) returns (after: map<Atom, real>)
    requires before.Keys == {AB, A, B}
    ensures after.Keys == {AB, A, B}
    ensures forall atom :: atom in before ==> after[atom] == before[atom] + AtomSum(pieces, {atom}, f)
  {
    after := before;
    for k := 0 to |pieces|
      invariant after.Keys == {AB, A, B}
      invariant forall atom :: atom in before ==> after[atom] == before[atom] + AtomSum(pieces[..k], {atom}, f)
    {
      var p := pieces[k];
      assert pieces[..k + 1][..k] == pieces[..k];
      assert p.atom.AB? || p.atom.A? || p.atom.B?;
      after := after[p.atom := after[p.atom] + (f(p.rightKey) - f(p.leftKey))];
    }
    assert pieces[..|pieces|] == pieces;
  }

  /** A profile's own integral: its crossings from left to right, taken in turn with minus and plus. */
  function Alternating(s: seq<Crossing>, f: nat -> real, k: nat): real
    requires k <= |s|
  {
    if k == 0 then 0.0
    else Alternating(s, f, k - 1) + if k % 2 == 0 then f(s[k - 1].key) else -f(s[k - 1].key)
  }

  /** Elements that cross the line at one point run together through the band. */
  ghost predicate Together(xs: seq<Crossing>, f: nat -> real) {
    forall j, k :: 0 <= j < |xs| && 0 <= k < |xs| && xs[j].x == xs[k].x ==> f(xs[j].key) == f(xs[k].key)
  }

  lemma {:induction false} BelowPrefix(s: seq<Crossing>, u: real)
    requires Sorted(s)
    ensures Below(s, u) <= |s|
    ensures forall k :: 0 <= k < |s| ==> (s[k].x < u <==> k < Below(s, u))
  {
    if s != [] {
      BelowPrefix(s[..|s| - 1], u);
    }
  }

  lemma {:induction false} SameAlternating(s: seq<Crossing>, f: nat -> real, j: nat, k: nat, v: real)
    requires j <= k <= |s| && forall i :: j <= i < k ==> f(s[i].key) == v
    ensures Alternating(s, f, k) == Alternating(s, f, j)
      + if (k - j) % 2 == 0 then 0.0 else if j % 2 == 0 then -v else v
    decreases k
  {
    if j < k {
      SameAlternating(s, f, j, k - 1, v);
    }
  }

  /** What the gaps left of the line's point x, where elements have the integral v, sum to. */
  function UpTo(s: seq<Crossing>, f: nat -> real, x: real, v: real): real
    requires Below(s, x) <= |s|
  {
    Alternating(s, f, Below(s, x)) + if Below(s, x) % 2 == 1 then v else 0.0
  }

  /** The gaps inside one profile, the first m. */
  ghost function GapSum(own: seq<Crossing>, xs: seq<Crossing>, f: nat -> real, m: nat): real
    requires m == 0 || m < |xs|
  {
    if m == 0 then 0.0
    else
      GapSum(own, xs, f, m - 1) +
      if xs[m - 1].x != xs[m].x && Inside(own, (xs[m - 1].x + xs[m].x) / 2.0)
      then f(xs[m].key) - f(xs[m - 1].key) else 0.0
  }

  /** s is own sorted, and all its crossings are among xs. */
  ghost predicate Among(own: seq<Crossing>, s: seq<Crossing>, xs: seq<Crossing>) {
    && Sorted(s) && Sorted(xs)
    && (forall u :: Below(own, u) == Below(s, u))
    && forall k :: 0 <= k < |s| ==> s[k] in xs
  }

  /** Between two different neighbours of the line, only crossings at the left one are passed. */
  lemma Passed(s: seq<Crossing>, xs: seq<Crossing>, f: nat -> real, m: nat)
    requires Sorted(s) && Sorted(xs) && Together(xs, f) && m + 1 < |xs| && xs[m].x < xs[m + 1].x
    requires forall k :: 0 <= k < |s| ==> s[k] in xs
    ensures var j, k := Below(s, xs[m].x), Below(s, xs[m + 1].x);
      && j <= k <= |s| && Below(s, (xs[m].x + xs[m + 1].x) / 2.0) == k
      && forall i :: j <= i < k ==> f(s[i].key) == f(xs[m].key)
  {
    var x, y := xs[m].x, xs[m + 1].x;
    BelowPrefix(s, x);
    BelowPrefix(s, y);
    forall i | 0 <= i < |s|
      ensures s[i].x <= x || y <= s[i].x
      ensures s[i].x == x ==> f(s[i].key) == f(xs[m].key)
    {
      NoneBetween(s, xs, f, m, i);
    }
    SameBelow(s, (x + y) / 2.0, y);
    BelowMonotone(s, x, y);
  }

  lemma {:induction false} BelowMonotone(s: seq<Crossing>, u: real, v: real)
    requires u <= v
    ensures Below(s, u) <= Below(s, v)
  {
    if s != [] {
      BelowMonotone(s[..|s| - 1], u, v);
    }
  }

  lemma PassedSum(s: seq<Crossing>, f: nat -> real, j: nat, k: nat, v: real, w: real)
    requires j <= k <= |s| && forall i :: j <= i < k ==> f(s[i].key) == v
    ensures Alternating(s, f, k) + (if k % 2 == 1 then w else 0.0)
         == Alternating(s, f, j) + (if j % 2 == 1 then v else 0.0) + if k % 2 == 1 then w - v else 0.0
  {
    SameAlternating(s, f, j, k, v);
  }

  lemma UpToStep(own: seq<Crossing>, s: seq<Crossing>, xs: seq<Crossing>, f: nat -> real, m: nat)
    requires Among(own, s, xs) && Together(xs, f) && m + 1 < |xs|
    ensures Below(s, xs[m].x) <= |s| && Below(s, xs[m + 1].x) <= |s|
    ensures UpTo(s, f, xs[m + 1].x, f(xs[m + 1].key)) == UpTo(s, f, xs[m].x, f(xs[m].key))
      + if xs[m].x != xs[m + 1].x && Inside(own, (xs[m].x + xs[m + 1].x) / 2.0)
        then f(xs[m + 1].key) - f(xs[m].key) else 0.0
  {
    var x, y, v := xs[m].x, xs[m + 1].x, f(xs[m].key);
    BelowPrefix(s, x);
    hide Below, Alternating, Together;
    if x == y {
      TogetherAt(xs, f, m, m + 1);
    } else {
      SortedAt(xs, m, m + 1);
      Passed(s, xs, f, m);
      PassedSum(s, f, Below(s, x), Below(s, y), v, f(xs[m + 1].key));
      assert Below(own, (x + y) / 2.0) == Below(s, (x + y) / 2.0);
    }
  }

  lemma TogetherAt(xs: seq<Crossing>, f: nat -> real, j: nat, k: nat)
    requires Together(xs, f) && j < |xs| && k < |xs| && xs[j].x == xs[k].x
    ensures f(xs[j].key) == f(xs[k].key)
  {
  }

  lemma NoneBetween(s: seq<Crossing>, xs: seq<Crossing>, f: nat -> real, m: nat, i: nat)
    requires Sorted(xs) && Together(xs, f) && m + 1 < |xs| && i < |s| && s[i] in xs
    ensures s[i].x <= xs[m].x || xs[m + 1].x <= s[i].x
    ensures s[i].x == xs[m].x ==> f(s[i].key) == f(xs[m].key)
  {
    var h :| 0 <= h < |xs| && xs[h] == s[i];
  }

  lemma {:induction false} GapSumIs(own: seq<Crossing>, s: seq<Crossing>, xs: seq<Crossing>, f: nat -> real, m: nat)
    requires Among(own, s, xs) && Together(xs, f) && m < |xs|
    ensures Below(s, xs[m].x) <= |s|
    ensures GapSum(own, xs, f, m) == UpTo(s, f, xs[m].x, f(xs[m].key))
  {
    hide Below, Together, UpTo, Inside;
    if m == 0 {
      FirstPoint(own, s, xs, f);
    } else {
      GapSumIs(own, s, xs, f, m - 1);
      UpToStep(own, s, xs, f, m - 1);
    }
  }

  lemma FirstPoint(own: seq<Crossing>, s: seq<Crossing>, xs: seq<Crossing>, f: nat -> real)
    requires Among(own, s, xs) && |xs| >= 1
    ensures Below(s, xs[0].x) <= |s| && UpTo(s, f, xs[0].x, f(xs[0].key)) == 0.0
  {
    forall k | 0 <= k < |s|
      ensures !(s[k].x < xs[0].x)
    {
      var h :| 0 <= h < |xs| && xs[h] == s[k];
    }
    AllBelow(s, xs[0].x);
  }

  lemma LastPoint(own: seq<Crossing>, s: seq<Crossing>, xs: seq<Crossing>, f: nat -> real)
    requires Among(own, s, xs) && Together(xs, f) && |xs| >= 1 && |s| % 2 == 0
    ensures var e := xs[|xs| - 1];
      Below(s, e.x) <= |s| && UpTo(s, f, e.x, f(e.key)) == Alternating(s, f, |s|)
  {
    var n := |xs| - 1;
    var j, v := Below(s, xs[n].x), f(xs[n].key);
    BelowPrefix(s, xs[n].x);
    forall i | j <= i < |s|
      ensures f(s[i].key) == v
    {
      var h :| 0 <= h < |xs| && xs[h] == s[i];
      SortedAt(xs, h, n);
    }
    hide Below, Together, Among;
    SameAlternating(s, f, j, |s|, v);
  }

  lemma {:induction false} BelowPlaced(xs: seq<Crossing>, c: Crossing, u: real)
    ensures Below(Placed(xs, c), u) == Below(xs, u) + if c.x < u then 1 else 0
  {
    if xs != [] {
      var k := |xs| - 1;
      if xs[k].x <= c.x {
        assert (xs + [c])[..|xs|] == xs;
      } else {
        var p := Placed(xs[..k], c);
        BelowPlaced(xs[..k], c, u);
        assert (p + [xs[k]])[..|p|] == p;
      }
    }
  }

  lemma {:induction false} BelowSorted(own: seq<Crossing>, u: real)
    ensures Below(SortedByX(own), u) == Below(own, u)
  {
    if own != [] {
      var k := |own| - 1;
      BelowSorted(own[..k], u);
      BelowPlaced(SortedByX(own[..k]), own[k], u);
    }
  }

  lemma SortedIsAmong(own: seq<Crossing>, other: seq<Crossing>)
    ensures Among(own, SortedByX(own), SortedByX(own + other)) && Among(own, SortedByX(own), SortedByX(other + own))
  {
    var s := SortedByX(own);
    SortSorts(own);
    SortSorts(own + other);
    SortSorts(other + own);
    forall u
      ensures Below(own, u) == Below(s, u)
    {
      BelowSorted(own, u);
    }
    forall k | 0 <= k < |s|
      ensures s[k] in SortedByX(own + other) && s[k] in SortedByX(other + own)
    {
      assert s[k] in multiset(own);
      assert s[k] in own;
      assert s[k] in own + other && s[k] in other + own;
      assert s[k] in multiset(SortedByX(own + other)) && s[k] in multiset(SortedByX(other + own));
    }
  }

  lemma {:induction false} AtomSumAppend(pieces: seq<Piece>, more: seq<Piece>, atoms: set<Atom>, f: nat -> real)
    requires |more| <= 1
    ensures AtomSum(pieces + more, atoms, f) == AtomSum(pieces, atoms, f)
      + if more != [] && more[0].atom in atoms then f(more[0].rightKey) - f(more[0].leftKey) else 0.0
  {
    if more == [] {
      assert pieces + more == pieces;
    } else {
      assert (pieces + more)[..|pieces|] == pieces;
    }
  }

  lemma {:induction false} GapsSum(xa: seq<Crossing>, xb: seq<Crossing>, xs: seq<Crossing>, f: nat -> real, m: nat)
    requires m == 0 || m < |xs|
    ensures AtomSum(Gaps(xa, xb, xs, m), {AB, A}, f) == GapSum(xa, xs, f, m)
    ensures AtomSum(Gaps(xa, xb, xs, m), {AB, B}, f) == GapSum(xb, xs, f, m)
  {
    hide AtomSum, Inside;
    if m == 0 {
      NoSum({AB, A}, f);
      NoSum({AB, B}, f);
    } else {
      GapsSum(xa, xb, xs, f, m - 1);
      AtomSumAppend(Gaps(xa, xb, xs, m - 1), Gap(xa, xb, xs[m - 1], xs[m]), {AB, A}, f);
      AtomSumAppend(Gaps(xa, xb, xs, m - 1), Gap(xa, xb, xs[m - 1], xs[m]), {AB, B}, f);
    }
  }

  lemma NoSum(atoms: set<Atom>, f: nat -> real)
    ensures AtomSum([], atoms, f) == 0.0
  {
  }

  /** The atoms keep both profiles: AB and A together are the whole of A's integral over the band, AB and B the
      whole of B's, however the two lists of crossings interleave and coincide. */
  lemma SweepConserves(xa: seq<Crossing>, xb: seq<Crossing>, f: nat -> real)
    requires |xa| % 2 == 0 && |xb| % 2 == 0 && Together(SortedByX(xa + xb), f)
    ensures AtomSum(PiecesOf(xa, xb), {AB, A}, f) == Alternating(SortedByX(xa), f, |SortedByX(xa)|)
    ensures AtomSum(PiecesOf(xa, xb), {AB, B}, f) == Alternating(SortedByX(xb), f, |SortedByX(xb)|)
  {
    hide *;
    PiecesAre(xa, xb);
    SortLengths(xa, xb);
    SortedIsAmong(xa, xb);
    SortedIsAmong(xb, xa);
    var xs := SortedByX(xa + xb);
    if xs == [] {
      GapsSum(xa, xb, xs, f, 0);
      NoAlternating(SortedByX(xa), SortedByX(xb), xa, xb, xs, f);
    } else {
      var n := |xs| - 1;
      GapsSum(xa, xb, xs, f, n);
      GapSumIs(xa, SortedByX(xa), xs, f, n);
      GapSumIs(xb, SortedByX(xb), xs, f, n);
      LastPoint(xa, SortedByX(xa), xs, f);
      LastPoint(xb, SortedByX(xb), xs, f);
    }
  }

  lemma SortLengths(xa: seq<Crossing>, xb: seq<Crossing>)
    ensures |SortedByX(xa)| == |xa| && |SortedByX(xb)| == |xb| && |SortedByX(xa + xb)| == |xa| + |xb|
  {
    SortLength(xa, xb);
    SortLength(xa, []);
    SortLength(xb, []);
    assert xa + [] == xa && xb + [] == xb;
  }

  lemma NoAlternating(s: seq<Crossing>, t: seq<Crossing>, xa: seq<Crossing>, xb: seq<Crossing>, xs: seq<Crossing>,
                      f: nat -> real)
    requires |s| == |t| == 0
    ensures Alternating(s, f, |s|) == 0.0 == Alternating(t, f, |t|)
    ensures GapSum(xa, xs, f, 0) == 0.0 == GapSum(xb, xs, f, 0)
  {
  }

  // ------------------------------------------------------------------ maximal intervals

  datatype Interval = Interval(leftKey: nat, rightKey: nat, left: real, right: real)

  ghost predicate InUnion(pieces: seq<Piece>, atoms: set<Atom>, u: real) {
    exists k :: 0 <= k < |pieces| && pieces[k].atom in atoms && Covers(pieces[k], u)
  }

  ghost predicate InInterval(intervals: seq<Interval>, u: real) {
    exists k :: 0 <= k < |intervals| && intervals[k].left < u < intervals[k].right
  }

  ghost predicate AtEnd(pieces: seq<Piece>, u: real) {
    exists k :: 0 <= k < |pieces| && (pieces[k].left == u || pieces[k].right == u)
  }

  /** From left to right, each two with a gap between. */
  ghost predicate Separate(intervals: seq<Interval>) {
    && (forall k :: 0 <= k < |intervals| ==> intervals[k].left < intervals[k].right)
    && forall j, k :: 0 <= j < k < |intervals| ==> intervals[j].right < intervals[k].left
  }

  ghost predicate Union(intervals: seq<Interval>, pieces: seq<Piece>, atoms: set<Atom>) {
    && Separate(intervals)
    && (forall k :: 0 <= k < |intervals| ==> AtEnd(pieces, intervals[k].left) && AtEnd(pieces, intervals[k].right))
    && forall u: real :: !AtEnd(pieces, u) ==> (InInterval(intervals, u) <==> InUnion(pieces, atoms, u))
  }

  /** The interval list after one more piece of the union. */
  function Joined(out: seq<Interval>, p: Piece): seq<Interval> {
    if out != [] && out[|out| - 1].right == p.left
    then out[..|out| - 1] + [Interval(out[|out| - 1].leftKey, p.rightKey, out[|out| - 1].left, p.right)]
    else out + [Interval(p.leftKey, p.rightKey, p.left, p.right)]
  }

  function IntervalsOf(pieces: seq<Piece>, atoms: set<Atom>): seq<Interval> {
    if pieces == [] then []
    else
      var k := |pieces| - 1;
      var before := IntervalsOf(pieces[..k], atoms);
      if pieces[k].atom in atoms then Joined(before, pieces[k]) else before
  }

  ghost predicate LeftOf(out: seq<Interval>, x: real) {
    forall k :: 0 <= k < |out| ==> out[k].right <= x
  }

  lemma JoinedSeparate(out: seq<Interval>, p: Piece)
    requires Separate(out) && LeftOf(out, p.left) && p.left < p.right
    ensures Separate(Joined(out, p)) && LeftOf(Joined(out, p), p.right)
  {
  }

  lemma JoinedCovers(out: seq<Interval>, p: Piece, u: real)
    requires Separate(out) && LeftOf(out, p.left) && p.left < p.right && u != p.left && u != p.right
    ensures InInterval(Joined(out, p), u) <==> InInterval(out, u) || Covers(p, u)
  {
    var r := Joined(out, p);
    var n := |out|;
    if n > 0 && out[n - 1].right == p.left {
      assert r[n - 1].left == out[n - 1].left;
      if k :| 0 <= k < |out| && out[k].left < u < out[k].right {
        assert r[k].left < u < r[k].right;
      }
    } else {
      assert r[n].left == p.left;
      if k :| 0 <= k < |out| && out[k].left < u < out[k].right {
        assert r[k] == out[k];
      }
    }
  }

  lemma UnionMore(pieces: seq<Piece>, p: Piece, atoms: set<Atom>, u: real)
    ensures InUnion(pieces + [p], atoms, u) <==> InUnion(pieces, atoms, u) || (p.atom in atoms && Covers(p, u))
    ensures AtEnd(pieces + [p], u) <==> AtEnd(pieces, u) || u == p.left || u == p.right
  {
    var all := pieces + [p];
    assert all[|pieces|] == p;
    if k :| 0 <= k < |pieces| && pieces[k].atom in atoms && Covers(pieces[k], u) {
      assert all[k] == pieces[k];
    }
    if k :| 0 <= k < |pieces| && (pieces[k].left == u || pieces[k].right == u) {
      assert all[k] == pieces[k];
    }
  }

  lemma UnionStep(out: seq<Interval>, pieces: seq<Piece>, p: Piece, atoms: set<Atom>)
    requires Union(out, pieces, atoms) && LeftOf(out, p.left) && p.left < p.right
    ensures var r := if p.atom in atoms then Joined(out, p) else out;
      Union(r, pieces + [p], atoms) && LeftOf(r, p.right)
  {
    hide InInterval, InUnion, AtEnd, Covers, Separate, LeftOf;
    var r := if p.atom in atoms then Joined(out, p) else out;
    if p.atom in atoms {
      JoinedSeparate(out, p);
    }
    forall u: real | !AtEnd(pieces + [p], u)
      ensures InInterval(r, u) <==> InUnion(pieces + [p], atoms, u)
    {
      UnionMore(pieces, p, atoms, u);
      if p.atom in atoms {
        JoinedCovers(out, p, u);
      }
    }
    forall k | 0 <= k < |r|
      ensures AtEnd(pieces + [p], r[k].left) && AtEnd(pieces + [p], r[k].right)
    {
      UnionMore(pieces, p, atoms, r[k].left);
      UnionMore(pieces, p, atoms, r[k].right);
    }
    LeftOfMore(out, p.left, p.right);
  }

  lemma LeftOfMore(out: seq<Interval>, x: real, y: real)
    requires LeftOf(out, x) && x <= y
    ensures LeftOf(out, y)
  {
  }

  /** Each interval begins with the left end of a piece of the union and ends with the right end of one, keys too. */
  ghost predicate Keyed(out: seq<Interval>, pieces: seq<Piece>, atoms: set<Atom>) {
    forall v :: v in out ==> BeginsAt(v, pieces, atoms) && EndsAt(v, pieces, atoms)
  }

  ghost predicate BeginsAt(v: Interval, pieces: seq<Piece>, atoms: set<Atom>) {
    exists p :: p in pieces && p.atom in atoms && p.left == v.left && p.leftKey == v.leftKey
  }

  ghost predicate EndsAt(v: Interval, pieces: seq<Piece>, atoms: set<Atom>) {
    exists p :: p in pieces && p.atom in atoms && p.right == v.right && p.rightKey == v.rightKey
  }

  lemma MorePieces(v: Interval, some: seq<Piece>, pieces: seq<Piece>, atoms: set<Atom>)
    requires forall p :: p in some ==> p in pieces
    ensures BeginsAt(v, some, atoms) ==> BeginsAt(v, pieces, atoms)
    ensures EndsAt(v, some, atoms) ==> EndsAt(v, pieces, atoms)
  {
  }

  lemma KeyedStep(was: seq<Interval>, pieces: seq<Piece>, p: Piece, atoms: set<Atom>)
    requires Keyed(was, pieces, atoms)
    ensures Keyed(if p.atom in atoms then Joined(was, p) else was, pieces + [p], atoms)
  {
    var more := pieces + [p];
    assert p in more;
    forall v | v in was
      ensures BeginsAt(v, more, atoms) && EndsAt(v, more, atoms)
    {
      MorePieces(v, pieces, more, atoms);
    }
    if p.atom in atoms && was != [] && was[|was| - 1].right == p.left {
      var v := Interval(was[|was| - 1].leftKey, p.rightKey, was[|was| - 1].left, p.right);
      assert was[|was| - 1] in was;
      assert BeginsAt(v, more, atoms) && EndsAt(v, more, atoms);
    }
  }

  lemma {:induction false} KeysKept(pieces: seq<Piece>, atoms: set<Atom>)
    ensures Keyed(IntervalsOf(pieces, atoms), pieces, atoms)
  {
    hide Keyed, Joined;
    if pieces == [] {
      NoneKeyed(atoms);
    } else {
      var k := |pieces| - 1;
      KeysKept(pieces[..k], atoms);
      KeyedStep(IntervalsOf(pieces[..k], atoms), pieces[..k], pieces[k], atoms);
      assert pieces == pieces[..k] + [pieces[k]];
    }
  }

  lemma NoneKeyed(atoms: set<Atom>)
    ensures Keyed([], [], atoms)
  {
  }

  /** `Pair.intervals`: the union of a band's pieces as separate intervals. */
  method Intervals(pieces: seq<Piece>, atoms: set<Atom>) returns (out: seq<Interval>)
    requires Ordered(pieces)
    ensures Union(out, pieces, atoms) && Keyed(out, pieces, atoms) && out == IntervalsOf(pieces, atoms)
  {
    hide Union, LeftOf, Ordered, Keyed;
    KeysKept(pieces, atoms);
    out := [];
    NoUnion(pieces, atoms);
    for k := 0 to |pieces|
      invariant out == IntervalsOf(pieces[..k], atoms)
      invariant Union(out, pieces[..k], atoms)
      invariant k < |pieces| ==> LeftOf(out, pieces[k].left)
    {
      var p := pieces[k];
      OrderedAt(pieces, k);
      UnionStep(out, pieces[..k], p, atoms);
      assert pieces[..k + 1] == pieces[..k] + [p];
      assert pieces[..k + 1][..k] == pieces[..k];
      if p.atom in atoms {
        if out != [] && out[|out| - 1].right == p.left {
          var last := out[|out| - 1];
          out := out[..|out| - 1] + [Interval(last.leftKey, p.rightKey, last.left, p.right)];
        } else {
          out := out + [Interval(p.leftKey, p.rightKey, p.left, p.right)];
        }
      }
      if k + 1 < |pieces| {
        LeftOfMore(out, p.right, pieces[k + 1].left);
      }
    }
    assert pieces[..|pieces|] == pieces;
  }

  lemma OrderedAt(pieces: seq<Piece>, k: nat)
    requires Ordered(pieces) && k < |pieces|
    ensures pieces[k].left < pieces[k].right && (k + 1 < |pieces| ==> pieces[k].right <= pieces[k + 1].left)
  {
  }

  lemma NoUnion(pieces: seq<Piece>, atoms: set<Atom>)
    ensures Union([], pieces[..0], atoms) && (|pieces| > 0 ==> LeftOf([], pieces[0].left))
  {
  }
}

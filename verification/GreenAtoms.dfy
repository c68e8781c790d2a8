/** The atoms of two profiles by Green's theorem: classified boundary pieces, summed by a table of signs. */
module GreenAtoms {
  import opened Basics
  import opened ParitySweep

  // ------------------------------------------------------------------ cuts

  ghost predicate Increasing(ts: seq<real>) {
    forall j, k :: 0 <= j < k < |ts| ==> ts[j] <= ts[k]
  }

  ghost predicate Rising(cuts: seq<real>) {
    forall k :: 0 <= k < |cuts| - 1 ==> cuts[k] < cuts[k + 1]
  }

  /** From 0 to 1 in rising steps. */
  ghost predicate CutsUnit(cuts: seq<real>) {
    |cuts| >= 2 && cuts[0] == 0.0 && cuts[|cuts| - 1] == 1.0 && Rising(cuts)
  }

  /** Steps longer than the tolerance. */
  ghost predicate Spaced(cuts: seq<real>, tol: real) {
    forall k :: 0 <= k < |cuts| - 1 ==> cuts[k + 1] - cuts[k] > tol
  }

  ghost predicate Near(cuts: seq<real>, t: real, tol: real) {
    exists k :: 0 <= k < |cuts| && -tol <= t - cuts[k] <= tol
  }

  ghost predicate Reached(cuts: seq<real>, t: real, tol: real) {
    exists k :: 0 <= k < |cuts| && cuts[k] <= t <= cuts[k] + tol
  }

  /** The first parameter, and each that lies more than the tolerance beyond the last one kept. */
  function Thinned(ts: seq<real>, tol: real): (cuts: seq<real>)
    requires ts != []
    ensures cuts != []
  {
    var n := |ts| - 1;
    if n == 0 then ts
    else
      var cuts := Thinned(ts[..n], tol);
      if ts[n] - cuts[|cuts| - 1] > tol then cuts + [ts[n]] else cuts
  }

  function Clamped(t: real): real {
    Min(Max(t, 0.0), 1.0)
  }

  function Placed(ts: seq<real>, t: real): (r: seq<real>)
    ensures |r| == |ts| + 1 && forall x :: x in r <==> x in ts || x == t
  {
    if ts == [] then [t]
    else
      var n := |ts| - 1;
      assert ts == ts[..n] + [ts[n]];
      if ts[n] <= t then ts + [t] else Placed(ts[..n], t) + [ts[n]]
  }

  /** 0, 1 and the clamped parameters, sorted. */
  function Ordered(meets: seq<real>): (r: seq<real>)
    ensures |r| == |meets| + 2
  {
    if meets == [] then [0.0, 1.0] else Placed(Ordered(meets[..|meets| - 1]), Clamped(meets[|meets| - 1]))
  }

  lemma {:induction false} PlacedIncreasing(ts: seq<real>, t: real)
    requires Increasing(ts)
    ensures Increasing(Placed(ts, t))
  {
    if ts != [] {
      var n := |ts| - 1;
      if ts[n] > t {
        PlacedIncreasing(ts[..n], t);
        var r := Placed(ts[..n], t);
        forall k | 0 <= k < |r|
          ensures r[k] <= ts[n]
        {
          assert r[k] in r;
        }
      }
    }
  }

  lemma {:induction false} OrderedIs(meets: seq<real>)
    ensures Increasing(Ordered(meets))
    ensures forall t :: t in Ordered(meets) <==>
      t == 0.0 || t == 1.0 || exists k :: 0 <= k < |meets| && t == Clamped(meets[k])
  {
    if meets != [] {
      OrderedIs(meets[..|meets| - 1]);
      PlacedIncreasing(Ordered(meets[..|meets| - 1]), Clamped(meets[|meets| - 1]));
    }
  }

  lemma OrderedEnds(meets: seq<real>)
    ensures var ts := Ordered(meets); Increasing(ts) && ts[0] == 0.0 && ts[|ts| - 1] == 1.0
  {
    OrderedIs(meets);
    var ts := Ordered(meets);
    assert ts[0] in ts && ts[|ts| - 1] in ts && 0.0 in ts && 1.0 in ts;
  }

  /** The cut parameters: the ordered ones thinned, the last moved to 1. */
  function CutsOf(meets: seq<real>, tol: real): seq<real> {
    var cuts := Thinned(Ordered(meets), tol);
    cuts[|cuts| - 1 := 1.0]
  }

  ghost predicate ThinnedOf(cuts: seq<real>, ts: seq<real>, tol: real)
    requires cuts != [] && ts != []
  {
    && cuts[0] == ts[0] && cuts[|cuts| - 1] <= ts[|ts| - 1] <= cuts[|cuts| - 1] + tol && Spaced(cuts, tol)
    && forall t :: t in ts ==> Reached(cuts, t, tol)
  }

  lemma ReachedMore(cuts: seq<real>, u: real, t: real, tol: real)
    requires Reached(cuts, t, tol)
    ensures Reached(cuts + [u], t, tol)
  {
    var k :| 0 <= k < |cuts| && cuts[k] <= t <= cuts[k] + tol;
    assert (cuts + [u])[k] == cuts[k];
  }

  lemma {:induction false} ThinnedIs(ts: seq<real>, tol: real)
    requires Increasing(ts) && ts != [] && tol >= 0.0
    ensures ThinnedOf(Thinned(ts, tol), ts, tol)
  {
    var n, cuts := |ts| - 1, Thinned(ts, tol);
    if n == 0 {
      assert forall t :: t in ts ==> cuts[0] <= t <= cuts[0] + tol;
    } else {
      var was := Thinned(ts[..n], tol);
      ThinnedIs(ts[..n], tol);
      assert ts[n - 1] <= ts[n];
      assert cuts[|cuts| - 1] <= ts[n] <= cuts[|cuts| - 1] + tol;
      forall t | t in ts
        ensures Reached(cuts, t, tol)
      {
        var j :| 0 <= j <= n && ts[j] == t;
        if j < n {
          assert ts[..n][j] == t;
          ReachedMore(was, ts[n], t, tol);
        }
      }
    }
  }

  lemma LastMoved(cuts: seq<real>, t: real, tol: real)
    requires cuts != [] && Reached(cuts, t, tol) && t <= 1.0 <= cuts[|cuts| - 1] + tol
    ensures Near(cuts[|cuts| - 1 := 1.0], t, tol)
  {
    var n := |cuts| - 1;
    var k :| 0 <= k <= n && cuts[k] <= t <= cuts[k] + tol;
    var moved := cuts[n := 1.0];
    assert -tol <= t - moved[k] <= tol;
  }

  /** The cuts rise from 0 to 1 in steps longer than the tolerance, and each meeting is within it of a cut. */
  lemma CutsAre(meets: seq<real>, tol: real)
    requires 0.0 <= tol < 1.0
    ensures CutsUnit(CutsOf(meets, tol)) && Spaced(CutsOf(meets, tol), tol)
    ensures forall k :: 0 <= k < |meets| ==> Near(CutsOf(meets, tol), Clamped(meets[k]), tol)
    ensures forall k :: 0 <= k < |meets| && 0.0 <= meets[k] <= 1.0 ==> Near(CutsOf(meets, tol), meets[k], tol)
  {
    var ts := Ordered(meets);
    OrderedEnds(meets);
    ThinnedIs(ts, tol);
    forall k | 0 <= k < |meets|
      ensures Near(CutsOf(meets, tol), Clamped(meets[k]), tol)
    {
      OrderedIs(meets);
      LastMoved(Thinned(ts, tol), Clamped(meets[k]), tol);
    }
  }

  lemma {:induction false} ThinnedFrom(ts: seq<real>, tol: real)
    requires ts != []
    ensures forall t :: t in Thinned(ts, tol) ==> t in ts
  {
    var n := |ts| - 1;
    if n > 0 {
      ThinnedFrom(ts[..n], tol);
      assert ts == ts[..n] + [ts[n]];
    }
  }

  /** A cut between 0 and 1 is a meeting. */
  lemma CutsFrom(meets: seq<real>, tol: real)
    ensures forall t :: t in CutsOf(meets, tol) && 0.0 < t < 1.0 ==> t in meets
  {
    var cuts := Thinned(Ordered(meets), tol);
    ThinnedFrom(Ordered(meets), tol);
    OrderedIs(meets);
    forall t | t in CutsOf(meets, tol) && 0.0 < t < 1.0
      ensures t in meets
    {
      assert t in cuts;
      var k :| 0 <= k < |meets| && t == Clamped(meets[k]);
    }
  }

  /** The cut parameters of an element: those of its sorted ones more than the tolerance beyond the last kept, and the
      last moved to 1. */
  method Cuts(meets: seq<real>, tol: real) returns (cuts: seq<real>)
    requires 0.0 <= tol < 1.0
    ensures cuts == CutsOf(meets, tol) && CutsUnit(cuts) && Spaced(cuts, tol)
    ensures forall k :: 0 <= k < |meets| ==> Near(cuts, Clamped(meets[k]), tol)
    ensures forall k :: 0 <= k < |meets| && 0.0 <= meets[k] <= 1.0 ==> Near(cuts, meets[k], tol)
    ensures forall t :: t in cuts && 0.0 < t < 1.0 ==> t in meets
  {
    hide Ordered, Near, CutsUnit, Spaced;
    var ts := Ordered(meets);
    cuts := [ts[0]];
    for i := 1 to |ts|
      invariant cuts == Thinned(ts[..i], tol)
    {
      assert ts[..i + 1][..i] == ts[..i];
      if ts[i] - cuts[|cuts| - 1] > tol {
        cuts := cuts + [ts[i]];
      }
    }
    assert ts[..|ts|] == ts;
    cuts := cuts[|cuts| - 1 := 1.0];
    CutsAre(meets, tol);
    CutsFrom(meets, tol);
  }

  // ------------------------------------------------------------------ one spline's integral

  /** The parameter on span i of n of the spline's parameter t, moved onto the span. */
  function OnSpan(i: nat, n: nat, t: real): real
    requires i < n
  {
    if t <= Joint(i, n) then 0.0 else if t >= Joint(i + 1, n) then 1.0 else Local(t, Joint(i, n), n)
  }

  function Local(t: real, a: real, n: nat): real {
    (t - a) * n as real
  }

  function Joint(i: nat, n: nat): real
    requires n > 0
  {
    i as real / n as real
  }

  lemma JointsRise(i: nat, n: nat)
    requires i < n
    ensures Joint(i, n) < Joint(i + 1, n)
  {
    var w := n as real;
    assert (i + 1) as real == i as real + 1.0;
    assert Joint(i + 1, n) == Joint(i, n) + 1.0 / w;
    assert 1.0 / w > 0.0;
  }

  /** The first m spans' antiderivatives up to the parameter t. */
  function UpTo(antis: seq<real -> real>, t: real, m: nat): real
    requires m <= |antis|
  {
    if m == 0 then 0.0 else UpTo(antis, t, m - 1) + antis[m - 1](OnSpan(m - 1, |antis|, t))
  }

  /** The spans' antiderivatives are pieces of one, up to constants: span i runs over it from i / n to (i + 1) / n. */
  ghost predicate PiecesOfOne(antis: seq<real -> real>, whole: real -> real) {
    var n := |antis| as real;
    forall i, s: real :: 0 <= i < |antis| && 0.0 <= s <= 1.0 ==>
      antis[i](s) - antis[i](0.0) == whole((i as real + s) / n) - whole(i as real / n)
  }

  lemma LocalWithin(i: nat, n: nat, t: real)
    requires i < n && i as real / n as real <= t <= (i as real + 1.0) / n as real
    ensures Joint(i, n) == i as real / n as real && Joint(i + 1, n) == (i as real + 1.0) / n as real
    ensures 0.0 <= OnSpan(i, n, t) <= 1.0 && (i as real + OnSpan(i, n, t)) / n as real == t
  {
    var a, w := i as real, n as real;
    assert (i + 1) as real == a + 1.0;
    LocalArithmetic(a, w, t);
  }

  lemma LocalArithmetic(a: real, w: real, t: real)
    requires w > 0.0 && a / w <= t <= (a + 1.0) / w
    ensures 0.0 <= (t - a / w) * w <= 1.0 && (a + (t - a / w) * w) / w == t
  {
    var q := a / w;
    assert q * w == a && (a + 1.0) / w == q + 1.0 / w;
    assert (t - q) * w == t * w - a;
    assert (1.0 / w) * w == 1.0;
    WidthBounds(t - q, 1.0 / w, w);
    assert (t * w) / w == t;
  }

  lemma WidthBounds(x: real, y: real, w: real)
    requires w > 0.0 && 0.0 <= x <= y
    ensures 0.0 <= x * w <= y * w
  {
  }

  /** t, or joint i if that comes first. */
  function UpToJoint(t: real, i: nat, n: nat): real
    requires n > 0
  {
    if t <= Joint(i, n) then t else Joint(i, n)
  }

  lemma SpanAdds(antis: seq<real -> real>, whole: real -> real, t: real, i: nat)
    requires i < |antis| && PiecesOfOne(antis, whole) && 0.0 <= t <= 1.0
    ensures antis[i](OnSpan(i, |antis|, t)) - antis[i](OnSpan(i, |antis|, 0.0))
         == whole(UpToJoint(t, i + 1, |antis|)) - whole(UpToJoint(t, i, |antis|))
  {
    var n := |antis|;
    SpanStart(i, n);
    JointsRise(i, n);
    if t > Joint(i, n) {
      var end := UpToJoint(t, i + 1, n);
      EndWithin(i, n, end);
      assert OnSpan(i, n, t) == OnSpan(i, n, end);
      hide Joint, OnSpan;
    } else {
      hide Joint;
    }
  }

  lemma EndWithin(i: nat, n: nat, t: real)
    requires i < n && Joint(i, n) <= t <= Joint(i + 1, n)
    ensures Joint(i, n) == i as real / n as real
    ensures 0.0 <= OnSpan(i, n, t) <= 1.0 && (i as real + OnSpan(i, n, t)) / n as real == t
  {
    assert (i + 1) as real == i as real + 1.0;
    LocalWithin(i, n, t);
  }

  /** What the first m spans add from parameter 0 to t is the one integral up to t or to their end. */
  lemma {:induction false} SpansAdd(antis: seq<real -> real>, whole: real -> real, t: real, m: nat)
    requires |antis| > 0 && m <= |antis| && PiecesOfOne(antis, whole) && 0.0 <= t <= 1.0
    ensures UpTo(antis, t, m) - UpTo(antis, 0.0, m) == whole(UpToJoint(t, m, |antis|)) - whole(0.0)
  {
    hide Joint, OnSpan, PiecesOfOne, UpToJoint;
    if m == 0 {
      NoSpan(t, |antis|);
    } else {
      SpansAdd(antis, whole, t, m - 1);
      SpanAdds(antis, whole, t, m - 1);
    }
  }

  lemma NoSpan(t: real, n: nat)
    requires n > 0 && t >= 0.0
    ensures UpToJoint(t, 0, n) == 0.0
  {
    assert 0.0 / n as real == 0.0;
  }

  lemma SpanStart(i: nat, n: nat)
    requires i < n
    ensures OnSpan(i, n, 0.0) == 0.0
  {
    assert i as real / n as real >= 0.0;
  }

  /** Cutting a curve into spans changes no integral. */
  lemma SpansWhole(antis: seq<real -> real>, whole: real -> real, t0: real, t1: real)
    requires |antis| > 0 && PiecesOfOne(antis, whole) && 0.0 <= t0 <= t1 <= 1.0
    ensures UpTo(antis, t1, |antis|) - UpTo(antis, t0, |antis|) == whole(t1) - whole(t0)
  {
    hide UpTo, PiecesOfOne;
    SpansUpTo(antis, whole, t0);
    SpansUpTo(antis, whole, t1);
  }

  lemma SpansUpTo(antis: seq<real -> real>, whole: real -> real, t: real)
    requires |antis| > 0 && PiecesOfOne(antis, whole) && 0.0 <= t <= 1.0
    ensures UpTo(antis, t, |antis|) - UpTo(antis, 0.0, |antis|) == whole(t) - whole(0.0)
  {
    hide UpTo, PiecesOfOne, UpToJoint;
    SpansAdd(antis, whole, t, |antis|);
    AllOfIt(t, |antis|);
  }

  lemma AllOfIt(t: real, n: nat)
    requires n > 0 && t <= 1.0
    ensures UpToJoint(t, n, n) == t
  {
    assert n as real / n as real == 1.0;
  }

  lemma OneSpan(i: nat, n: nat, t0: real, t1: real)
    requires i < n && t0 <= t1
    ensures var a, b := Joint(i, n), Joint(i + 1, n);
      var lo, hi := Max(t0, a), Min(t1, b);
      if hi > lo then
        && OnSpan(i, n, t0) == (if lo == a then 0.0 else Local(lo, a, n))
        && OnSpan(i, n, t1) == (if hi == b then 1.0 else Local(hi, a, n))
      else OnSpan(i, n, t0) == OnSpan(i, n, t1)
  {
    JointsRise(i, n);
    hide Joint, Local;
  }

  /** `SplineSeg.green` with its `sub`: the spans' antiderivatives over the overlapping parts. Only the joints' exact
      ends decide which parts; nothing is lost or counted twice between two calls that share an end, and where the spans
      are pieces of one curve, the sum is that curve's integral. */
  method SplineGreen(antis: seq<real -> real>, t0: real, t1: real) returns (g: real)
    requires |antis| > 0 && t0 <= t1
    ensures g == UpTo(antis, t1, |antis|) - UpTo(antis, t0, |antis|)
    ensures forall whole :: PiecesOfOne(antis, whole) && 0.0 <= t0 && t1 <= 1.0 ==> g == whole(t1) - whole(t0)
  {
    forall whole | PiecesOfOne(antis, whole) && 0.0 <= t0 && t1 <= 1.0
      ensures UpTo(antis, t1, |antis|) - UpTo(antis, t0, |antis|) == whole(t1) - whole(t0)
    {
      SpansWhole(antis, whole, t0, t1);
    }
    hide OnSpan, Joint, Local, PiecesOfOne;
    g := 0.0;
    var n := |antis|;
    for i := 0 to n
      invariant g == UpTo(antis, t1, i) - UpTo(antis, t0, i)
    {
      var a, b := Joint(i, n), Joint(i + 1, n);
      var lo, hi := Max(t0, a), Min(t1, b);
      OneSpan(i, n, t0, t1);
      if hi > lo {
        var s0 := if lo == a then 0.0 else Local(lo, a, n);
        var s1 := if hi == b then 1.0 else Local(hi, a, n);
        g := g + (antis[i](s1) - antis[i](s0));
      }
    }
  }

  /** An element's integral between two parameters: its antiderivative's, or its spans'. */
  datatype Element = Plain(anti: real -> real) | Spline(antis: seq<real -> real>)

  function Upto(e: Element, t: real): real {
    match e
    case Plain(anti) => anti(t)
    case Spline(antis) => UpTo(antis, t, |antis|)
  }

  method PieceGreen(e: Element, t0: real, t1: real) returns (g: real)
    requires t0 <= t1 && (e.Spline? ==> |e.antis| > 0)
    ensures g == Upto(e, t1) - Upto(e, t0)
    ensures e.Spline? ==> forall whole ::
      PiecesOfOne(e.antis, whole) && 0.0 <= t0 && t1 <= 1.0 ==> g == whole(t1) - whole(t0)
    ensures e.Plain? ==> g == e.anti(t1) - e.anti(t0)
  {
    hide PiecesOfOne;
    match e
    case Plain(anti) => g := anti(t1) - anti(t0);
    case Spline(antis) => g := SplineGreen(antis, t0, t1);
  }

  // ------------------------------------------------------------------ the table

  datatype Class = Outside | Inside | OnSame | OnOpposite

  datatype Profile = First | Second

  /** A classified piece and one of its three integrals. */
  datatype BoundaryPiece = BoundaryPiece(class_: Class, g: real)

  /** The sign table of `_green`. */
  function Sign(name: Profile, c: Class, atom: Atom): int {
    match (name, c)
    case (First, Outside) => if atom == A then 1 else 0
    case (First, Inside) => if atom == AB then 1 else if atom == B then -1 else 0
    case (First, OnSame) => if atom == AB then 1 else 0
    case (First, OnOpposite) => if atom == A then 1 else 0
    case (Second, Outside) => if atom == B then 1 else 0
    case (Second, Inside) => if atom == AB then 1 else if atom == A then -1 else 0
    case (Second, OnSame) => 0
    case (Second, OnOpposite) => if atom == B then 1 else 0
  }

  function Signed(s: int, g: real): real {
    if s == 1 then g else if s == -1 then -g else 0.0
  }

  /** What pieces of one profile add to an atom. */
  function Share(name: Profile, pieces: seq<BoundaryPiece>, atom: Atom): real {
    if pieces == [] then 0.0
    else
      var p := pieces[|pieces| - 1];
      Share(name, pieces[..|pieces| - 1], atom) + Signed(Sign(name, p.class_, atom), p.g)
  }

  /** The plain integral over pieces of one class. */
  function ClassSum(pieces: seq<BoundaryPiece>, c: Class): real {
    if pieces == [] then 0.0
    else
      var p := pieces[|pieces| - 1];
      ClassSum(pieces[..|pieces| - 1], c) + if p.class_ == c then p.g else 0.0
  }

  // ------------------------------------------------------------------ a profile's pieces

  /** A boundary element of a profile with what geometry says of it: the parameters where it meets the other profile,
      the class of each of its points, and its pieces' lengths. */
  datatype Stretch = Stretch(e: Element, meets: seq<real>, class_: real -> Class, length: (real, real) -> real)

  predicate WellMade(x: Stretch) {
    x.e.Spline? ==> |x.e.antis| > 0
  }

  datatype ProfilePiece = ProfilePiece(e: Element, t0: real, t1: real, length: real, class_: Class)

  /** The class of the middle, which is the piece's. */
  function Middle(x: Stretch, t0: real, t1: real): Class {
    x.class_(t0 + 0.5 * (t1 - t0))
  }

  /** The midpoint and the quarter points agree. */
  predicate Agrees(x: Stretch, t0: real, t1: real) {
    x.class_(t0 + 0.25 * (t1 - t0)) == Middle(x, t0, t1) == x.class_(t0 + 0.75 * (t1 - t0))
  }

  ghost predicate AllAgree(x: Stretch, tol: real) {
    var cuts := CutsOf(x.meets, tol);
    forall k :: 1 <= k < |cuts| ==> Agrees(x, cuts[k - 1], cuts[k])
  }

  function PieceOf(x: Stretch, t0: real, t1: real): ProfilePiece {
    ProfilePiece(x.e, t0, t1, x.length(t0, t1), Middle(x, t0, t1))
  }

  /** The pieces up to cut m. */
  function Between(x: Stretch, cuts: seq<real>, m: nat): seq<ProfilePiece>
    requires m < |cuts|
  {
    if m == 0 then [] else Between(x, cuts, m - 1) + [PieceOf(x, cuts[m - 1], cuts[m])]
  }

  function StretchPieces(x: Stretch, tol: real): seq<ProfilePiece> {
    var cuts := CutsOf(x.meets, tol);
    if cuts == [] then [] else Between(x, cuts, |cuts| - 1)
  }

  function PiecesOf(profile: seq<Stretch>, tol: real): seq<ProfilePiece> {
    if profile == [] then [] else PiecesOf(profile[..|profile| - 1], tol) + StretchPieces(profile[|profile| - 1], tol)
  }

  method CutStretch(x: Stretch, tol: real) returns (r: Option<seq<ProfilePiece>>)
    requires 0.0 <= tol < 1.0
    ensures r.Some? <==> AllAgree(x, tol)
    ensures r.Some? ==> r.value == StretchPieces(x, tol)
  {
    hide CutsOf, Near, Agrees;
    var cuts := Cuts(x.meets, tol);
    var out := [];
    for k := 1 to |cuts|
      invariant out == Between(x, cuts, k - 1)
      invariant forall j :: 1 <= j < k ==> Agrees(x, cuts[j - 1], cuts[j])
    {
      var t0, t1 := cuts[k - 1], cuts[k];
      if !Agrees(x, t0, t1) {
        return None;
      }
      out := out + [PieceOf(x, t0, t1)];
    }
    return Some(out);
  }

  /** The element has one class between the two parameters. */
  ghost predicate Uniform(x: Stretch, t0: real, t1: real) {
    forall s, t: real :: t0 < s < t1 && t0 < t < t1 ==> x.class_(s) == x.class_(t)
  }

  lemma UniformAgrees(x: Stretch, t0: real, t1: real)
    requires t0 < t1 && Uniform(x, t0, t1)
    ensures Agrees(x, t0, t1)
    ensures forall t: real :: t0 < t < t1 ==> PieceOf(x, t0, t1).class_ == x.class_(t)
  {
    assert t0 < t0 + 0.25 * (t1 - t0) < t0 + 0.5 * (t1 - t0) < t0 + 0.75 * (t1 - t0) < t1;
  }

  lemma {:induction false} BetweenClasses(x: Stretch, cuts: seq<real>, m: nat)
    requires m < |cuts| && Rising(cuts) && forall k :: 1 <= k < |cuts| ==> Uniform(x, cuts[k - 1], cuts[k])
    ensures forall p, t: real :: p in Between(x, cuts, m) && p.t0 < t < p.t1 ==> p.class_ == x.class_(t)
  {
    hide Uniform, Agrees;
    if m > 0 {
      BetweenClasses(x, cuts, m - 1);
      UniformAgrees(x, cuts[m - 1], cuts[m]);
    }
  }

  /** An element whose class changes only at its cuts is classified without failing, and each piece has the class of all
      its inner points. */
  lemma ClassesFound(x: Stretch, tol: real)
    requires 0.0 <= tol < 1.0
    requires var cuts := CutsOf(x.meets, tol); forall k :: 1 <= k < |cuts| ==> Uniform(x, cuts[k - 1], cuts[k])
    ensures AllAgree(x, tol)
    ensures forall p, t: real :: p in StretchPieces(x, tol) && p.t0 < t < p.t1 ==> p.class_ == x.class_(t)
  {
    hide Uniform, Agrees, CutsOf;
    var cuts := CutsOf(x.meets, tol);
    CutsAre(x.meets, tol);
    forall k | 1 <= k < |cuts|
      ensures Agrees(x, cuts[k - 1], cuts[k])
    {
      UniformAgrees(x, cuts[k - 1], cuts[k]);
    }
    if cuts != [] {
      BetweenClasses(x, cuts, |cuts| - 1);
    }
  }

  /** `pieces`: each element cut at its meetings, each piece classified. None is the assertion that its three sample
      points agree. */
  method Pieces(profile: seq<Stretch>, tol: real) returns (r: Option<seq<ProfilePiece>>)
    requires 0.0 <= tol < 1.0
    ensures r.Some? <==> forall i :: 0 <= i < |profile| ==> AllAgree(profile[i], tol)
    ensures r.Some? ==> r.value == PiecesOf(profile, tol)
  {
    hide AllAgree, StretchPieces;
    var out := [];
    for i := 0 to |profile|
      invariant out == PiecesOf(profile[..i], tol)
      invariant forall j :: 0 <= j < i ==> AllAgree(profile[j], tol)
    {
      assert profile[..i + 1][..i] == profile[..i];
      var more := CutStretch(profile[i], tol);
      if more.None? {
        return None;
      }
      out := out + more.value;
    }
    assert profile[..|profile|] == profile;
    return Some(out);
  }

  function GreenOf(p: ProfilePiece): real {
    Upto(p.e, p.t1) - Upto(p.e, p.t0)
  }

  /** The pieces with their integrals. */
  function Integrals(pieces: seq<ProfilePiece>): (r: seq<BoundaryPiece>)
    ensures |r| == |pieces|
  {
    seq(|pieces|, k requires 0 <= k < |pieces| => BoundaryPiece(pieces[k].class_, GreenOf(pieces[k])))
  }

  /** The pieces with their lengths. */
  function Lengths(pieces: seq<ProfilePiece>): (r: seq<BoundaryPiece>)
    ensures |r| == |pieces|
  {
    seq(|pieces|, k requires 0 <= k < |pieces| => BoundaryPiece(pieces[k].class_, pieces[k].length))
  }

  /** The integral over a whole profile, element by element. */
  function Whole(profile: seq<Stretch>): real {
    if profile == [] then 0.0
    else
      var x := profile[|profile| - 1];
      Whole(profile[..|profile| - 1]) + (Upto(x.e, 1.0) - Upto(x.e, 0.0))
  }

  function Total(pieces: seq<BoundaryPiece>): real {
    if pieces == [] then 0.0 else Total(pieces[..|pieces| - 1]) + pieces[|pieces| - 1].g
  }

  lemma {:induction false} TotalConcat(p: seq<ProfilePiece>, q: seq<ProfilePiece>)
    ensures Total(Integrals(p + q)) == Total(Integrals(p)) + Total(Integrals(q))
  {
    hide GreenOf;
    if q == [] {
      assert p + q == p;
    } else {
      var k := |q| - 1;
      TotalConcat(p, q[..k]);
      assert Integrals(p + q)[..|p| + k] == Integrals(p + q[..k]);
      assert Integrals(q)[..k] == Integrals(q[..k]);
    }
  }

  lemma TotalOne(p: ProfilePiece)
    ensures Total(Integrals([p])) == GreenOf(p)
  {
    hide GreenOf;
    var one := Integrals([p]);
    assert one[..0] == [];
  }

  lemma {:induction false} TotalBetween(x: Stretch, cuts: seq<real>, m: nat)
    requires m < |cuts|
    ensures Total(Integrals(Between(x, cuts, m))) == Upto(x.e, cuts[m]) - Upto(x.e, cuts[0])
  {
    hide Upto;
    if m > 0 {
      TotalBetween(x, cuts, m - 1);
      TotalConcat(Between(x, cuts, m - 1), [PieceOf(x, cuts[m - 1], cuts[m])]);
      TotalOne(PieceOf(x, cuts[m - 1], cuts[m]));
    }
  }

  /** The pieces tile the profile: their integrals add up to the whole elements'. */
  lemma {:induction false} PiecesTile(profile: seq<Stretch>, tol: real)
    requires 0.0 <= tol < 1.0
    ensures Total(Integrals(PiecesOf(profile, tol))) == Whole(profile)
  {
    hide Upto, CutsOf, Total, Integrals, Between, Near;
    if profile == [] {
      NothingTotal();
    } else {
      var n := |profile| - 1;
      var x := profile[n];
      var cuts := CutsOf(x.meets, tol);
      PiecesTile(profile[..n], tol);
      CutsAre(x.meets, tol);
      TotalBetween(x, cuts, |cuts| - 1);
      TotalConcat(PiecesOf(profile[..n], tol), StretchPieces(x, tol));
    }
  }

  lemma NothingTotal()
    ensures Total(Integrals([])) == 0.0
  {
  }

  // ------------------------------------------------------------------ the sums

  /** What `_green` leaves: the classified pieces, the lengths by profile and class, and the atoms. */
  datatype Sums = Sums(first: seq<ProfilePiece>, second: seq<ProfilePiece>, classes: map<(Profile, Class), real>,
                       atoms: map<Atom, real>)

  function LengthIn(classes: map<(Profile, Class), real>, name: Profile, c: Class): real {
    if (name, c) in classes then classes[(name, c)] else 0.0
  }

  /** The lengths are those of the pieces, and each atom is the sum of its signed shares of them all. */
  ghost predicate Summed(s: Sums) {
    && (forall c :: LengthIn(s.classes, First, c) == ClassSum(Lengths(s.first), c))
    && (forall c :: LengthIn(s.classes, Second, c) == ClassSum(Lengths(s.second), c))
    && s.atoms.Keys == {AB, A, B}
    && forall atom :: atom in s.atoms ==>
         s.atoms[atom] == Share(First, Integrals(s.first), atom) + Share(Second, Integrals(s.second), atom)
  }

  ghost predicate AllWellMade(pieces: seq<ProfilePiece>) {
    forall k :: 0 <= k < |pieces| ==>
      pieces[k].t0 <= pieces[k].t1 && (pieces[k].e.Spline? ==> |pieces[k].e.antis| > 0)
  }

  lemma ShareStep(name: Profile, pieces: seq<ProfilePiece>, k: nat, atom: Atom)
    requires k < |pieces|
    ensures Share(name, Integrals(pieces[..k + 1]), atom) == Share(name, Integrals(pieces[..k]), atom)
      + Signed(Sign(name, pieces[k].class_, atom), GreenOf(pieces[k]))
  {
    hide Sign, Signed, GreenOf;
    assert Integrals(pieces[..k + 1])[..k] == Integrals(pieces[..k]);
  }

  lemma ClassStep(pieces: seq<ProfilePiece>, k: nat, c: Class)
    requires k < |pieces|
    ensures ClassSum(Lengths(pieces[..k + 1]), c) == ClassSum(Lengths(pieces[..k]), c)
      + if pieces[k].class_ == c then pieces[k].length else 0.0
  {
    assert Lengths(pieces[..k + 1])[..k] == Lengths(pieces[..k]);
  }

  /** The dictionary with the lengths of one profile's pieces added. */
  ghost predicate Adds(classes: map<(Profile, Class), real>, classes0: map<(Profile, Class), real>, name: Profile,
                       pieces: seq<ProfilePiece>) {
    forall n, c :: var more := if n == name then ClassSum(Lengths(pieces), c) else 0.0;
      LengthIn(classes, n, c) == LengthIn(classes0, n, c) + more
  }

  lemma AddsNothing(classes: map<(Profile, Class), real>, name: Profile)
    ensures Adds(classes, classes, name, [])
  {
    var none: seq<ProfilePiece> := [];
    assert Lengths(none) == [];
    forall c
      ensures ClassSum(Lengths(none), c) == 0.0
    {
    }
    hide ClassSum, Lengths;
  }

  lemma AddsMore(classes: map<(Profile, Class), real>, classes0: map<(Profile, Class), real>, name: Profile,
                 pieces: seq<ProfilePiece>, k: nat)
    requires k < |pieces| && Adds(classes, classes0, name, pieces[..k])
    ensures var c := pieces[k].class_;
      Adds(classes[(name, c) := LengthIn(classes, name, c) + pieces[k].length], classes0, name, pieces[..k + 1])
  {
    hide ClassSum, Lengths;
    forall c
      ensures ClassSum(Lengths(pieces[..k + 1]), c) == ClassSum(Lengths(pieces[..k]), c)
        + if pieces[k].class_ == c then pieces[k].length else 0.0
    {
      ClassStep(pieces, k, c);
    }
  }

  /** The loop over one profile's pieces. */
  method AddProfile(name: Profile, pieces: seq<ProfilePiece>, classes0: map<(Profile, Class), real>,
                    atoms0: map<Atom, real>)
    returns (classes: map<(Profile, Class), real>, atoms: map<Atom, real>)
    requires atoms0.Keys == {AB, A, B} && AllWellMade(pieces)
    ensures atoms.Keys == {AB, A, B}
    ensures forall atom :: atom in atoms0 ==> atoms[atom] == atoms0[atom] + Share(name, Integrals(pieces), atom)
    ensures Adds(classes, classes0, name, pieces)
  {
    hide Sign, Signed, Upto, Adds;
    classes, atoms := classes0, atoms0;
    assert pieces[..0] == [];
    AddsNothing(classes, name);
    for k := 0 to |pieces|
      invariant atoms.Keys == {AB, A, B}
      invariant forall atom :: atom in atoms0 ==>
        atoms[atom] == atoms0[atom] + Share(name, Integrals(pieces[..k]), atom)
      invariant Adds(classes, classes0, name, pieces[..k])
    {
      var p := pieces[k];
      AddsMore(classes, classes0, name, pieces, k);
      classes := classes[(name, p.class_) := LengthIn(classes, name, p.class_) + p.length];
      var g := PieceGreen(p.e, p.t0, p.t1);
      atoms := map[AB := atoms[AB] + Signed(Sign(name, p.class_, AB), g),
                   A := atoms[A] + Signed(Sign(name, p.class_, A), g),
                   B := atoms[B] + Signed(Sign(name, p.class_, B), g)];
      forall atom | atom in atoms0
        ensures atoms[atom] == atoms0[atom] + Share(name, Integrals(pieces[..k + 1]), atom)
      {
        ShareStep(name, pieces, k, atom);
      }
    }
    assert pieces[..|pieces|] == pieces;
  }

  lemma {:induction false} BetweenWellMade(x: Stretch, cuts: seq<real>, m: nat)
    requires m < |cuts| && WellMade(x) && Rising(cuts)
    ensures AllWellMade(Between(x, cuts, m))
  {
    if m > 0 {
      BetweenWellMade(x, cuts, m - 1);
      assert cuts[m - 1] < cuts[m - 1 + 1];
    }
  }

  lemma {:induction false} PiecesWellMade(profile: seq<Stretch>, tol: real)
    requires 0.0 <= tol < 1.0 && forall i :: 0 <= i < |profile| ==> WellMade(profile[i])
    ensures AllWellMade(PiecesOf(profile, tol))
  {
    hide WellMade, StretchPieces;
    if profile != [] {
      var n := |profile| - 1;
      PiecesWellMade(profile[..n], tol);
      StretchWellMade(profile[n], tol);
    }
  }

  lemma StretchWellMade(x: Stretch, tol: real)
    requires 0.0 <= tol < 1.0 && WellMade(x)
    ensures AllWellMade(StretchPieces(x, tol))
  {
    hide WellMade, CutsOf, Near, AllWellMade, Between, Spaced;
    CutsAre(x.meets, tol);
    var cuts := CutsOf(x.meets, tol);
    BetweenWellMade(x, cuts, |cuts| - 1);
  }

  /** `_green` for one of the three integrals: both profiles cut, classified and summed. */
  method Atoms(a: seq<Stretch>, b: seq<Stretch>, tol: real) returns (r: Option<Sums>)
    requires 0.0 <= tol < 1.0
    requires forall x :: x in a || x in b ==> WellMade(x)
    ensures r.Some? <==> forall x :: x in a || x in b ==> AllAgree(x, tol)
    ensures r.Some? ==> r.value.first == PiecesOf(a, tol) && r.value.second == PiecesOf(b, tol) && Summed(r.value)
  {
    hide AllAgree, WellMade, Share, ClassSum, PiecesOf, AllWellMade;
    var first := Pieces(a, tol);
    if first.None? {
      return None;
    }
    PiecesWellMade(a, tol);
    var classes, atoms := AddProfile(First, first.value, map[], map[AB := 0.0, A := 0.0, B := 0.0]);
    var second := Pieces(b, tol);
    if second.None? {
      return None;
    }
    PiecesWellMade(b, tol);
    classes, atoms := AddProfile(Second, second.value, classes, atoms);
    return Some(Sums(first.value, second.value, classes, atoms));
  }

  // ------------------------------------------------------------------ what the table means

  /** The atom on a side of a piece. */
  function AtomOf(inA: bool, inB: bool): Option<Atom> {
    if inA && inB then Some(AB) else if inA then Some(A) else if inB then Some(B) else None
  }

  /** The atoms on the left and the right of a piece: its own profile lies on its left. */
  function Beside(name: Profile, c: Class): (Option<Atom>, Option<Atom>) {
    var (other, behind) := match c
      case Outside => (false, false)
      case Inside => (true, true)
      case OnSame => (true, false)
      case OnOpposite => (false, true);
    if name == First then (AtomOf(true, other), AtomOf(false, behind)) else (AtomOf(other, true), AtomOf(behind, false))
  }

  predicate Has(atoms: set<Atom>, x: Option<Atom>) {
    x.Some? && x.value in atoms
  }

  /** +1 where a union of atoms lies on the piece's left alone, -1 on its right alone. */
  function Bounds(atoms: set<Atom>, name: Profile, c: Class): int {
    var (l, r) := Beside(name, c);
    (if Has(atoms, l) then 1 else 0) - (if Has(atoms, r) then 1 else 0)
  }

  /** The integral over a profile's pieces of some classes, each by how it bounds the union. */
  function Boundary(atoms: set<Atom>, name: Profile, classes: set<Class>, pieces: seq<BoundaryPiece>): real {
    if pieces == [] then 0.0
    else
      var p := pieces[|pieces| - 1];
      Boundary(atoms, name, classes, pieces[..|pieces| - 1]) +
      if p.class_ in classes then Signed(Bounds(atoms, name, p.class_), p.g) else 0.0
  }

  /** The measure of a union of atoms. */
  function Measure(atoms: map<Atom, real>, union: set<Atom>): real
    requires atoms.Keys == {AB, A, B}
  {
    (if AB in union then atoms[AB] else 0.0) + (if A in union then atoms[A] else 0.0) +
      (if B in union then atoms[B] else 0.0)
  }

  function ShareSum(name: Profile, pieces: seq<BoundaryPiece>, atoms: set<Atom>): real {
    (if AB in atoms then Share(name, pieces, AB) else 0.0) + (if A in atoms then Share(name, pieces, A) else 0.0) +
    (if B in atoms then Share(name, pieces, B) else 0.0)
  }

  /** One piece: what the table gives a union, against how the piece bounds it. */
  lemma OnePieceFirst(p: BoundaryPiece, atoms: set<Atom>)
    ensures (if AB in atoms then Signed(Sign(First, p.class_, AB), p.g) else 0.0) +
            (if A in atoms then Signed(Sign(First, p.class_, A), p.g) else 0.0) +
            (if B in atoms then Signed(Sign(First, p.class_, B), p.g) else 0.0)
         == Signed(Bounds(atoms, First, p.class_), p.g) + if p.class_ == OnOpposite && B in atoms then p.g else 0.0
  {
  }

  lemma OnePieceSecond(p: BoundaryPiece, atoms: set<Atom>)
    ensures (if AB in atoms then Signed(Sign(Second, p.class_, AB), p.g) else 0.0) +
            (if A in atoms then Signed(Sign(Second, p.class_, A), p.g) else 0.0) +
            (if B in atoms then Signed(Sign(Second, p.class_, B), p.g) else 0.0)
         == (if p.class_ == Outside || p.class_ == Inside then Signed(Bounds(atoms, Second, p.class_), p.g) else 0.0)
            + if p.class_ == OnOpposite && B in atoms then p.g else 0.0
  {
  }

  const ALL: set<Class> := {Outside, Inside, OnSame, OnOpposite}

  lemma {:induction false} FirstShares(pieces: seq<BoundaryPiece>, atoms: set<Atom>)
    ensures ShareSum(First, pieces, atoms) == Boundary(atoms, First, ALL, pieces)
      + if B in atoms then ClassSum(pieces, OnOpposite) else 0.0
  {
    if pieces != [] {
      var p := pieces[|pieces| - 1];
      FirstShares(pieces[..|pieces| - 1], atoms);
      hide Sign, Bounds, Signed;
      OnePieceFirst(p, atoms);
      assert p.class_ in ALL;
    }
  }

  lemma {:induction false} SecondShares(pieces: seq<BoundaryPiece>, atoms: set<Atom>)
    ensures ShareSum(Second, pieces, atoms) == Boundary(atoms, Second, {Outside, Inside}, pieces)
      + if B in atoms then ClassSum(pieces, OnOpposite) else 0.0
  {
    if pieces != [] {
      var p := pieces[|pieces| - 1];
      SecondShares(pieces[..|pieces| - 1], atoms);
      hide Sign, Bounds, Signed;
      OnePieceSecond(p, atoms);
    }
  }

  /** Green's sums are the boundary's: the measure of any union of atoms is the integral over every piece of the two
      profiles that bounds it, once, with the union on the left, unless B is in the union and the shared pieces of
      opposite senses do not cancel. */
  lemma GreenIsBoundary(s: Sums, union: set<Atom>)
    requires Summed(s)
    ensures var first, second := Integrals(s.first), Integrals(s.second);
      var around := Boundary(union, First, ALL, first) + Boundary(union, Second, {Outside, Inside}, second);
      Measure(s.atoms, union) == around <==> B !in union || ClassSum(first, OnOpposite) == -ClassSum(second, OnOpposite)
  {
    hide Share, Boundary, ClassSum, Lengths;
    FirstShares(Integrals(s.first), union);
    SecondShares(Integrals(s.second), union);
  }

  lemma {:induction false} WholeFirst(pieces: seq<BoundaryPiece>)
    ensures Share(First, pieces, AB) + Share(First, pieces, A) == Total(pieces)
    ensures Share(First, pieces, AB) + Share(First, pieces, B) == ClassSum(pieces, OnSame)
  {
    if pieces != [] {
      WholeFirst(pieces[..|pieces| - 1]);
    }
  }

  lemma {:induction false} WholeSecond(pieces: seq<BoundaryPiece>)
    ensures Share(Second, pieces, AB) + Share(Second, pieces, A) == 0.0
    ensures Share(Second, pieces, AB) + Share(Second, pieces, B) == Total(pieces) - ClassSum(pieces, OnSame)
  {
    if pieces != [] {
      WholeSecond(pieces[..|pieces| - 1]);
    }
  }

  /** Both profiles are conserved, from elements to atoms: AB and A are the integral over the whole first profile, and
      AB and B the second's exactly if the shared pieces of one sense have equal integrals. */
  lemma GreenConserves(a: seq<Stretch>, b: seq<Stretch>, tol: real, s: Sums)
    requires 0.0 <= tol < 1.0 && Summed(s) && s.first == PiecesOf(a, tol) && s.second == PiecesOf(b, tol)
    ensures s.atoms[AB] + s.atoms[A] == Whole(a)
    ensures s.atoms[AB] + s.atoms[B] == Whole(b)
      <==> ClassSum(Integrals(s.first), OnSame) == ClassSum(Integrals(s.second), OnSame)
  {
    hide Share, ClassSum, Lengths, PiecesOf, Whole, Total;
    PiecesTile(a, tol);
    PiecesTile(b, tol);
    WholeFirst(Integrals(s.first));
    WholeSecond(Integrals(s.second));
  }

  // ------------------------------------------------------------------ perimeters

  /** `Pair.perimeter` from the lengths by class. */
  method Perimeter(s: Sums, union: set<Atom>) returns (total: real)
    requires Summed(s)
    ensures total == Length(union, First, ALL, Lengths(s.first)) +
      Length(union, Second, {Outside, Inside}, Lengths(s.second))
  {
    hide ClassSum, Share, Length;
    var ab, a, b := AB in union, A in union, B in union;
    total := 0.0;
    if a {
      total := total + LengthIn(s.classes, First, Outside);
    }
    if ab != b {
      total := total + LengthIn(s.classes, First, Inside);
    }
    if b {
      total := total + LengthIn(s.classes, Second, Outside);
    }
    if ab != a {
      total := total + LengthIn(s.classes, Second, Inside);
    }
    if ab {
      total := total + LengthIn(s.classes, First, OnSame);
    }
    if a != b {
      total := total + LengthIn(s.classes, First, OnOpposite);
    }
    FirstLength(Lengths(s.first), union);
    SecondLength(Lengths(s.second), union);
  }

  /** The length of the pieces of some classes whose two sides the union holds exactly one of. */
  function Length(atoms: set<Atom>, name: Profile, classes: set<Class>, pieces: seq<BoundaryPiece>): real {
    if pieces == [] then 0.0
    else
      var p := pieces[|pieces| - 1];
      var (l, r) := Beside(name, p.class_);
      Length(atoms, name, classes, pieces[..|pieces| - 1]) +
      if p.class_ in classes && Has(atoms, l) != Has(atoms, r) then p.g else 0.0
  }

  lemma {:induction false} FirstLength(pieces: seq<BoundaryPiece>, atoms: set<Atom>)
    ensures Length(atoms, First, ALL, pieces)
         == (if A in atoms then ClassSum(pieces, Outside) else 0.0)
          + (if (AB in atoms) != (B in atoms) then ClassSum(pieces, Inside) else 0.0)
          + (if AB in atoms then ClassSum(pieces, OnSame) else 0.0)
          + (if (A in atoms) != (B in atoms) then ClassSum(pieces, OnOpposite) else 0.0)
  {
    if pieces != [] {
      FirstLength(pieces[..|pieces| - 1], atoms);
    }
  }

  lemma {:induction false} SecondLength(pieces: seq<BoundaryPiece>, atoms: set<Atom>)
    ensures Length(atoms, Second, {Outside, Inside}, pieces)
         == (if B in atoms then ClassSum(pieces, Outside) else 0.0)
          + (if (AB in atoms) != (A in atoms) then ClassSum(pieces, Inside) else 0.0)
  {
    if pieces != [] {
      SecondLength(pieces[..|pieces| - 1], atoms);
    }
  }
}

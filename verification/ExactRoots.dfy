/** `exact_roots`: the roots in [0, 1] of an exact polynomial, each once, with its multiplicity. */
module ExactRoots {
  import opened Basics
  import opened Reals
  import opened Polynomials
  import opened Divisibility
  import opened PolynomialDivision
  import opened SquareFreeFactorization
  import opened RootMultiplicity
  import opened SignVariations
  import opened SubdivisionBounds
  import opened RootIsolation

  // ------------------------------------------------------------------ bisection

  /** The sign changes from lo to hi. */
  ghost predicate ChangesSign(f: Poly, positive: bool, lo: real, hi: real) {
    Eval(f, lo) != 0.0 && Eval(f, hi) != 0.0 && (Eval(f, lo) > 0.0) == positive && (Eval(f, hi) > 0.0) != positive
  }

  /** Every root between a and b lies strictly between lo and hi. */
  ghost predicate Encloses(f: Poly, a: real, b: real, lo: real, hi: real) {
    forall r: real :: a < r < b && Eval(f, r) == 0.0 ==> lo < r < hi
  }

  lemma BisectLeft(f: Poly, a: real, b: real, lo: real, hi: real, mid: real)
    requires TurnsOnce(f, a, b) && Eval(f, a) != 0.0 && Encloses(f, a, b, lo, hi) && a < mid < b
    requires Eval(f, mid) != 0.0
    ensures (Eval(f, mid) > 0.0) == (Eval(f, a) > 0.0) ==> Encloses(f, a, b, mid, hi)
    ensures (Eval(f, mid) > 0.0) != (Eval(f, a) > 0.0) ==> Encloses(f, a, b, lo, mid)
  {
    hide Eval;
  }

  lemma HalfOf(w: real, lo: real, hi: real, k: nat)
    requires hi - lo == Times(w, Power(0.5, k))
    ensures (lo + hi) / 2.0 - lo == Times(w, Power(0.5, k + 1)) == hi - (lo + hi) / 2.0
  {
    hide Times;
    TimesAssociates(w, 0.5, Power(0.5, k));
    Half(hi - lo);
  }

  lemma Half(x: real)
    ensures Times(0.5, x) == x / 2.0
  {
  }

  /** `_bisect`: 150 halvings of a bracket, or a root met on the way. */
  method Bisect(f: Poly, a: real, b: real, fa: bool) returns (t: real)
    requires a < b && TurnsOnce(f, a, b) && ChangesSign(f, fa, a, b)
    ensures a < t < b
    ensures forall r: real :: a < r < b && Eval(f, r) == 0.0 ==> Abs(t - r) <= Times(b - a, Power(0.5, 151))
    ensures Eval(f, t) != 0.0 ==>
      exists lo, hi :: ChangesSign(f, fa, lo, hi) && lo < t < hi && hi - lo == Times(b - a, Power(0.5, 150))
  {
    hide Eval, Power, Times, TurnsOnce;
    var lo, hi := a, b;
    assert hi - lo == Times(b - a, Power(0.5, 0)) by { FirstWidth(b - a); }
    for k := 0 to 150
      invariant a <= lo < hi <= b && hi - lo == Times(b - a, Power(0.5, k))
      invariant ChangesSign(f, fa, lo, hi)
      invariant Encloses(f, a, b, lo, hi)
    {
      var mid := (lo + hi) / 2.0;
      HalfOf(b - a, lo, hi, k);
      var fm := PEval(f, mid);
      if fm == 0.0 {
        MetRoot(f, a, b, mid);
        return mid;
      }
      BisectLeft(f, a, b, lo, hi, mid);
      if (fm > 0.0) == fa {
        lo := mid;
      } else {
        hi := mid;
      }
    }
    HalfOf(b - a, lo, hi, 150);
    t := (lo + hi) / 2.0;
  }

  lemma FirstWidth(w: real)
    ensures w == Times(w, Power(0.5, 0))
  {
  }

  /** A root met on the way is the only one. */
  lemma MetRoot(f: Poly, a: real, b: real, mid: real)
    requires a < mid < b && TurnsOnce(f, a, b) && Eval(f, a) != 0.0 && Eval(f, mid) == 0.0
    ensures forall r: real :: a < r < b && Eval(f, r) == 0.0 ==> Abs(mid - r) <= Times(b - a, Power(0.5, 151))
  {
    hide Eval, Times;
    PowerPositive(0.5, 151);
    TimesSign(b - a, Power(0.5, 151));
    forall r: real | a < r < b && Eval(f, r) == 0.0
      ensures r == mid
    {
    }
  }

  // ------------------------------------------------------------------ the roots found

  /** A root of `factor`: exact when lo == at == hi, else in the open bracket (lo, hi), bisected and then polished. */
  datatype Found = Found(factor: Poly, multiplicity: nat, lo: real, hi: real, bisected: real, at: real)

  /** Newton's method from a point, in whatever way; None where it fails. */
  type Newton = (Poly, real) -> Option<real>

  /** What a bracketed entry reports: the polished point if it lies in the bracket, else the bisected one. */
  ghost predicate Reports(polish: Newton, e: Found) {
    e.lo < e.hi ==>
      var p := polish(e.factor, e.bisected);
      if p.Some? && e.lo <= p.value <= e.hi then e.at == p.value else e.at == e.bisected
  }

  ghost predicate AllReport(polish: Newton, found: seq<Found>) {
    forall e :: e in found ==> Reports(polish, e)
  }

  /** Without a polished point in the bracket, the reported one is as close to the root as the bisection. */
  lemma ReportsClose(polish: Newton, e: Found, r: real)
    requires GoodEntry(e) && Reports(polish, e) && e.lo < e.hi && Holds(e, r)
    ensures var p := polish(e.factor, e.bisected);
      if p.Some? && e.lo <= p.value <= e.hi then e.at == p.value
      else Abs(e.at - r) <= Times(e.hi - e.lo, Power(0.5, 151))
  {
    hide Eval, TurnsOnce, Times, Power, Abs;
  }

  datatype Outcome = Vanishing | Roots(found: seq<Found>)

  ghost predicate Holds(e: Found, r: real) {
    Eval(e.factor, r) == 0.0 && (e.lo == r == e.hi || e.lo < r < e.hi)
  }

  ghost predicate NoShare(a: Found, b: Found) {
    forall r: real :: !(Holds(a, r) && Holds(b, r))
  }

  /** An exact root, or a bracket whose bisected point is within 2^-151 of its width of any root inside. */
  ghost predicate GoodEntry(e: Found) {
    || (e.lo == e.at == e.hi && 0.0 <= e.at <= 1.0 && Eval(e.factor, e.at) == 0.0)
    || (&& IsBracket(e.factor, Bracket(e.lo, e.hi))
        && e.lo < e.bisected < e.hi && e.lo <= e.at <= e.hi
        && forall r: real :: Holds(e, r) ==> Abs(e.bisected - r) <= Times(e.hi - e.lo, Power(0.5, 151)))
  }

  ghost predicate Pairwise(found: seq<Found>) {
    forall j, k :: 0 <= j < k < |found| ==> NoShare(found[j], found[k])
  }

  ghost predicate HeldBySome(found: seq<Found>, r: real) {
    exists k :: 0 <= k < |found| && Holds(found[k], r)
  }

  /** A root of f in [0, 1] with the entry's multiplicity. */
  ghost predicate RootOfEntry(f: Poly, e: Found, r: real) {
    0.0 <= r <= 1.0 && Eval(f, r) == 0.0 && HasMultiplicity(f, r, e.multiplicity)
  }

  /** Exactly the roots of f in [0, 1]: each held by one entry, with its multiplicity in f. */
  ghost predicate RootsOf(f: Poly, found: seq<Found>) {
    && (forall k :: 0 <= k < |found| ==> GoodEntry(found[k]))
    && Pairwise(found)
    && (forall r: real :: 0.0 <= r <= 1.0 && Eval(f, r) == 0.0 ==> HeldBySome(found, r))
    && (forall k, r: real :: 0 <= k < |found| && Holds(found[k], r) ==> RootOfEntry(f, found[k], r))
  }

  lemma AppendEntry(found: seq<Found>, e: Found)
    requires Pairwise(found) && forall k :: 0 <= k < |found| ==> NoShare(found[k], e)
    ensures Pairwise(found + [e])
  {
    hide NoShare;
  }

  lemma StillHeld(found: seq<Found>, more: seq<Found>, r: real)
    requires HeldBySome(found, r)
    ensures HeldBySome(found + more, r)
  {
    hide Holds;
    var k :| 0 <= k < |found| && Holds(found[k], r);
    assert (found + more)[k] == found[k];
  }

  /** The entries of one factor. */
  ghost predicate EntriesOf(f: Poly, m: nat, found: seq<Found>) {
    && (forall k :: 0 <= k < |found| ==> found[k].factor == f && found[k].multiplicity == m && GoodEntry(found[k]))
    && Pairwise(found)
    && (forall r: real :: 0.0 <= r <= 1.0 && Eval(f, r) == 0.0 ==> HeldBySome(found, r))
  }

  /** The entries so far: the exact roots in `taken` and the first n brackets. */
  ghost predicate Partly(f: Poly, m: nat, taken: set<real>, brackets: seq<Bracket>, n: nat, found: seq<Found>) {
    && n <= |brackets|
    && (forall k :: 0 <= k < |found| ==>
          found[k].factor == f && found[k].multiplicity == m && GoodEntry(found[k]))
    && (forall k :: 0 <= k < |found| ==>
          (found[k].lo == found[k].hi && found[k].lo in taken)
          || (exists j :: 0 <= j < n && found[k].lo == brackets[j].lo && found[k].hi == brackets[j].hi))
    && Pairwise(found)
    && (forall r: real :: r in taken ==> HeldBySome(found, r))
    && (forall j, r: real :: 0 <= j < n && Eval(f, r) == 0.0 && Within(r, brackets[j].lo, brackets[j].hi) ==>
          HeldBySome(found, r))
  }

  lemma TakeExact(f: Poly, m: nat, taken: set<real>, brackets: seq<Bracket>, found: seq<Found>, r: real)
    requires Partly(f, m, taken, brackets, 0, found) && r !in taken && 0.0 <= r <= 1.0 && Eval(f, r) == 0.0
    ensures Partly(f, m, taken + {r}, brackets, 0, found + [Found(f, m, r, r, r, r)])
  {
    hide Eval, NoShare, IsBracket;
    var e := Found(f, m, r, r, r, r);
    var more := found + [e];
    forall k | 0 <= k < |found|
      ensures NoShare(found[k], e)
    {
      ExactDiffers(found[k], e);
    }
    AppendEntry(found, e);
    hide GoodEntry, Pairwise;
    forall x: real | x in taken + {r}
      ensures HeldBySome(more, x)
    {
      if x in taken {
        StillHeld(found, [e], x);
      } else {
        assert Holds(more[|found|], x);
      }
    }
  }

  lemma ExactDiffers(a: Found, b: Found)
    requires a.lo == a.hi && b.lo == b.hi && a.lo != b.lo
    ensures NoShare(a, b)
  {
    hide Eval;
  }

  lemma TakeBracket(f: Poly, m: nat, exact: set<real>, brackets: seq<Bracket>, n: nat, found: seq<Found>, e: Found)
    requires Isolated(f, exact, brackets) && Partly(f, m, exact, brackets, n, found) && n < |brackets|
    requires e.factor == f && e.multiplicity == m && e.lo == brackets[n].lo && e.hi == brackets[n].hi && GoodEntry(e)
    ensures Partly(f, m, exact, brackets, n + 1, found + [e])
  {
    hide Eval, NoShare, IsBracket, GoodEntry, InBracket, HeldBySome, Pairwise;
    var more := found + [e];
    forall k | 0 <= k < |found|
      ensures NoShare(found[k], e)
    {
      if found[k].lo == found[k].hi && found[k].lo in exact {
        assert !Within(found[k].lo, brackets[n].lo, brackets[n].hi);
        BracketOrdered(f, exact, brackets, n);
        ExactOutside(found[k], e);
      } else {
        var j :| 0 <= j < n && found[k].lo == brackets[j].lo && found[k].hi == brackets[j].hi;
        BracketOrdered(f, exact, brackets, n);
        BracketOrdered(f, exact, brackets, j);
        assert Apart(brackets[j].lo, brackets[j].hi, brackets[n].lo, brackets[n].hi);
        ApartBrackets(found[k], e);
      }
    }
    AppendEntry(found, e);
    forall r: real | r in exact
      ensures HeldBySome(more, r)
    {
      StillHeld(found, [e], r);
    }
    forall j, r: real | 0 <= j < n + 1 && Eval(f, r) == 0.0 && Within(r, brackets[j].lo, brackets[j].hi)
      ensures HeldBySome(more, r)
    {
      if j < n {
        StillHeld(found, [e], r);
      } else {
        LastHolds(found, e, r);
      }
    }
    forall k | 0 <= k < |more|
      ensures (more[k].lo == more[k].hi && more[k].lo in exact)
           || (exists j :: 0 <= j < n + 1 && more[k].lo == brackets[j].lo && more[k].hi == brackets[j].hi)
    {
      if k < |found| {
        if !(found[k].lo == found[k].hi && found[k].lo in exact) {
          var j :| 0 <= j < n && found[k].lo == brackets[j].lo && found[k].hi == brackets[j].hi;
        }
      } else {
        assert more[k].lo == brackets[n].lo && more[k].hi == brackets[n].hi;
      }
    }
  }

  lemma LastHolds(found: seq<Found>, e: Found, r: real)
    requires Eval(e.factor, r) == 0.0 && Within(r, e.lo, e.hi)
    ensures HeldBySome(found + [e], r)
  {
    hide Eval;
    assert Holds((found + [e])[|found|], r);
  }

  lemma BracketOrdered(f: Poly, exact: set<real>, brackets: seq<Bracket>, n: nat)
    requires Isolated(f, exact, brackets) && n < |brackets|
    ensures brackets[n].lo < brackets[n].hi
  {
    hide Eval, InBracket, TurnsOnce;
    assert IsBracket(f, brackets[n]);
  }

  lemma ExactOutside(a: Found, b: Found)
    requires a.lo == a.hi && b.lo < b.hi && !Within(a.lo, b.lo, b.hi)
    ensures NoShare(a, b)
  {
    hide Eval;
  }

  lemma ApartBrackets(a: Found, b: Found)
    requires a.lo < a.hi && b.lo < b.hi && Apart(a.lo, a.hi, b.lo, b.hi)
    ensures NoShare(a, b)
  {
    hide Eval;
  }

  lemma AllTaken(f: Poly, m: nat, exact: set<real>, brackets: seq<Bracket>, found: seq<Found>)
    requires Isolated(f, exact, brackets) && Partly(f, m, exact, brackets, |brackets|, found)
    ensures EntriesOf(f, m, found)
  {
    hide Eval, HeldBySome, Pairwise, GoodEntry;
    forall r: real | 0.0 <= r <= 1.0 && Eval(f, r) == 0.0
      ensures HeldBySome(found, r)
    {
      if r !in exact {
        assert InBracket(brackets, r);
      }
    }
  }

  method SomeMember<T(==)>(s: set<T>) returns (x: T)
    requires s != {}
    ensures x in s
  {
    x :| x in s;
  }

  lemma StartPartly(f: Poly, m: nat, brackets: seq<Bracket>)
    ensures Partly(f, m, {}, brackets, 0, [])
  {
  }

  /** One factor of `exact_roots`: its exact roots, then a bisected and polished root for each bracket. */
  method RootsOfFactor(f: Poly, m: nat, polish: Newton) returns (found: seq<Found>)
    requires Deg(f) >= 1 && SquareFree(f)
    ensures EntriesOf(f, m, found) && AllReport(polish, found)
  {
    hide Eval, Partly, Times, Power, SquareFree, EntriesOf, TurnsOnce, InBracket;
    var exact, brackets := Isolate(f);
    found := [];
    var rest := exact;
    StartPartly(f, m, brackets);
    assert exact - rest == {};
    while rest != {}
      invariant rest <= exact
      invariant Partly(f, m, exact - rest, brackets, 0, found) && AllReport(polish, found)
      decreases |rest|
    {
      var r := SomeMember(rest);
      TakeExact(f, m, exact - rest, brackets, found, r);
      assert exact - (rest - {r}) == (exact - rest) + {r};
      found := found + [Found(f, m, r, r, r, r)];
      rest := rest - {r};
    }
    assert exact - rest == exact;
    for n := 0 to |brackets|
      invariant Partly(f, m, exact, brackets, n, found) && AllReport(polish, found)
    {
      var b := brackets[n];
      assert IsBracket(f, b);
      var v := PEval(f, b.lo);
      var t := Bisect(f, b.lo, b.hi, v > 0.0);
      var p, at := polish(f, t), t;
      if p.Some? && b.lo <= p.value <= b.hi {
        at := p.value;
      }
      var e := Found(f, m, b.lo, b.hi, t, at);
      assert GoodEntry(e);
      TakeBracket(f, m, exact, brackets, n, found, e);
      found := found + [e];
    }
    AllTaken(f, m, exact, brackets, found);
  }

  // ------------------------------------------------------------------ all factors

  /** An entry of one of the first n factors. */
  ghost predicate OfFactors(factors: seq<Factor>, n: nat, e: Found)
    requires n <= |factors|
  {
    exists i :: 0 <= i < n && e.factor == factors[i].poly && e.multiplicity == factors[i].multiplicity
  }

  /** Entries of the first n factors. */
  ghost predicate FromFactors(factors: seq<Factor>, n: nat, found: seq<Found>) {
    && n <= |factors|
    && (forall k :: 0 <= k < |found| ==> GoodEntry(found[k]))
    && (forall k :: 0 <= k < |found| ==> OfFactors(factors, n, found[k]))
    && Pairwise(found)
    && (forall i, r: real :: 0 <= i < n && 0.0 <= r <= 1.0 && Eval(factors[i].poly, r) == 0.0 ==> HeldBySome(found, r))
  }

  lemma HeldLater(found: seq<Found>, more: seq<Found>, r: real)
    requires HeldBySome(more, r)
    ensures HeldBySome(found + more, r)
  {
    hide Holds;
    var k :| 0 <= k < |more| && Holds(more[k], r);
    assert (found + more)[|found| + k] == more[k];
  }

  lemma AppendFactorEntries(f: Poly, factors: seq<Factor>, n: nat, found: seq<Found>, more: seq<Found>)
    requires !IsZero(f) && IsSquareFreeFactorization(f, factors) && FromFactors(factors, n, found) && n < |factors|
    requires EntriesOf(factors[n].poly, factors[n].multiplicity, more)
    ensures FromFactors(factors, n + 1, found + more)
  {
    hide Eval, IsSquareFreeFactorization, GoodEntry, HeldBySome, NoShare;
    var all := found + more;
    forall j, k | 0 <= j < k < |all|
      ensures NoShare(all[j], all[k])
    {
      if j < |found| <= k {
        assert OfFactors(factors, n, found[j]);
        var i :| 0 <= i < n && found[j].factor == factors[i].poly && found[j].multiplicity == factors[i].multiplicity;
        DifferentFactors(f, factors, i, n, all[j], all[k]);
      } else if k < |found| {
        assert NoShare(found[j], found[k]);
      } else {
        assert NoShare(more[j - |found|], more[k - |found|]);
      }
    }
    forall i, r: real | 0 <= i < n + 1 && 0.0 <= r <= 1.0 && Eval(factors[i].poly, r) == 0.0
      ensures HeldBySome(all, r)
    {
      if i < n {
        StillHeld(found, more, r);
      } else {
        HeldLater(found, more, r);
      }
    }
    forall k | 0 <= k < |all|
      ensures GoodEntry(all[k]) && OfFactors(factors, n + 1, all[k])
    {
      if k < |found| {
        assert GoodEntry(found[k]) && OfFactors(factors, n, found[k]);
        var i :| 0 <= i < n && found[k].factor == factors[i].poly && found[k].multiplicity == factors[i].multiplicity;
      } else {
        assert GoodEntry(more[k - |found|]);
      }
    }
  }

  lemma DifferentFactors(f: Poly, factors: seq<Factor>, i: nat, j: nat, a: Found, b: Found)
    requires !IsZero(f) && IsSquareFreeFactorization(f, factors) && i < |factors| && j < |factors| && i != j
    requires a.factor == factors[i].poly && b.factor == factors[j].poly
    ensures NoShare(a, b)
  {
    hide Eval, IsSquareFreeFactorization;
    forall r: real
      ensures !(Holds(a, r) && Holds(b, r))
    {
      if Holds(a, r) {
        FactorRoot(f, factors, i, r);
      }
    }
  }

  lemma AllFactors(f: Poly, factors: seq<Factor>, found: seq<Found>)
    requires !IsZero(f) && IsSquareFreeFactorization(f, factors) && FromFactors(factors, |factors|, found)
    ensures RootsOf(f, found)
  {
    hide Eval, GoodFactors, GoodEntry, HeldBySome, Pairwise, HasMultiplicity, Mul, Product;
    forall r: real | 0.0 <= r <= 1.0 && Eval(f, r) == 0.0
      ensures HeldBySome(found, r)
    {
      RootInSomeFactor(f, factors, r);
    }
    forall k, r: real | 0 <= k < |found| && Holds(found[k], r)
      ensures RootOfEntry(f, found[k], r)
    {
      assert OfFactors(factors, |factors|, found[k]);
      var i :| 0 <= i < |factors| && found[k].factor == factors[i].poly &&
        found[k].multiplicity == factors[i].multiplicity;
      FactorRoot(f, factors, i, r);
      EntryInside(found[k], r);
    }
  }

  lemma EntryInside(e: Found, r: real)
    requires GoodEntry(e) && Holds(e, r)
    ensures 0.0 <= r <= 1.0
  {
    hide Eval, Times, Power;
  }

  // ------------------------------------------------------------------ the final sort

  predicate Precedes(a: Found, b: Found) {
    a.at < b.at || (a.at == b.at && a.multiplicity <= b.multiplicity)
  }

  ghost predicate Ascending(found: seq<Found>) {
    forall j, k :: 0 <= j < k < |found| ==> Precedes(found[j], found[k])
  }

  function Placed(found: seq<Found>, e: Found): (r: seq<Found>)
    ensures |r| == |found| + 1 && forall x :: x in r <==> x in found || x == e
  {
    if found == [] then [e]
    else
      var n := |found| - 1;
      assert found == found[..n] + [found[n]];
      if Precedes(found[n], e) then found + [e] else Placed(found[..n], e) + [found[n]]
  }

  function Sorted(found: seq<Found>): (r: seq<Found>)
    ensures |r| == |found| && forall x :: x in r <==> x in found
  {
    if found == [] then []
    else
      var n := |found| - 1;
      assert found == found[..n] + [found[n]];
      Placed(Sorted(found[..n]), found[n])
  }

  lemma {:induction false} PlacedAscends(found: seq<Found>, e: Found)
    requires Ascending(found)
    ensures Ascending(Placed(found, e))
  {
    if found != [] {
      var n := |found| - 1;
      if !Precedes(found[n], e) {
        PlacedAscends(found[..n], e);
        var r := Placed(found[..n], e);
        forall k | 0 <= k < |r|
          ensures Precedes(r[k], found[n])
        {
          assert r[k] in r;
        }
      }
    }
  }

  lemma NoShareSymmetric(a: Found, b: Found)
    requires NoShare(a, b)
    ensures NoShare(b, a)
  {
    hide Holds;
  }

  lemma {:induction false} PlacedPairwise(found: seq<Found>, e: Found)
    requires Pairwise(found) && forall x :: x in found ==> NoShare(x, e)
    ensures Pairwise(Placed(found, e))
  {
    hide NoShare, Precedes;
    if found != [] {
      var n := |found| - 1;
      assert found == found[..n] + [found[n]];
      if Precedes(found[n], e) {
        AppendEntry(found, e);
      } else {
        PlacedPairwise(found[..n], e);
        var r := Placed(found[..n], e);
        forall k | 0 <= k < |r|
          ensures NoShare(r[k], found[n])
        {
          assert r[k] in r;
          if r[k] == e {
            NoShareSymmetric(found[n], e);
          } else {
            var j :| 0 <= j < n && found[..n][j] == r[k];
          }
        }
        AppendEntry(r, found[n]);
      }
    }
  }

  lemma {:induction false} SortedPairwise(found: seq<Found>)
    requires Pairwise(found)
    ensures Pairwise(Sorted(found)) && Ascending(Sorted(found))
  {
    hide NoShare, Precedes;
    if found != [] {
      var n := |found| - 1;
      SortedPairwise(found[..n]);
      forall x | x in Sorted(found[..n])
        ensures NoShare(x, found[n])
      {
        var j :| 0 <= j < n && found[..n][j] == x;
      }
      PlacedPairwise(Sorted(found[..n]), found[n]);
      PlacedAscends(Sorted(found[..n]), found[n]);
    }
  }

  lemma SortedHeld(found: seq<Found>, r: real)
    requires HeldBySome(found, r)
    ensures HeldBySome(Sorted(found), r)
  {
    hide Holds;
    var k :| 0 <= k < |found| && Holds(found[k], r);
    assert found[k] in Sorted(found);
  }

  /** Sorting loses and invents nothing. */
  lemma SortedRoots(f: Poly, found: seq<Found>)
    requires RootsOf(f, found)
    ensures RootsOf(f, Sorted(found)) && Ascending(Sorted(found))
  {
    hide Eval, GoodEntry, Holds, RootOfEntry, Pairwise, HeldBySome, Ascending;
    SortedPairwise(found);
    forall r: real | 0.0 <= r <= 1.0 && Eval(f, r) == 0.0
      ensures HeldBySome(Sorted(found), r)
    {
      SortedHeld(found, r);
    }
    var s := Sorted(found);
    forall k | 0 <= k < |s|
      ensures GoodEntry(s[k]) && forall r: real :: Holds(s[k], r) ==> RootOfEntry(f, s[k], r)
    {
      assert s[k] in s;
      var j :| 0 <= j < |found| && found[j] == s[k];
    }
  }

  /** `exact_roots` */
  method FindRoots(c: seq<real>, polish: Newton) returns (r: Outcome)
    requires |c| >= 1
    ensures r.Vanishing? <==> Trim(c) == ZERO
    ensures r.Roots? ==> RootsOf(Trim(c), r.found) && Ascending(r.found) && AllReport(polish, r.found)
    ensures r.Roots? ==> forall e, root: real :: e in r.found && e.lo < e.hi && Holds(e, root) ==>
      var p := polish(e.factor, e.bisected);
      if p.Some? && e.lo <= p.value <= e.hi then e.at == p.value
      else Abs(e.at - root) <= Times(e.hi - e.lo, Power(0.5, 151))
    ensures r.Roots? ==> forall e :: e in r.found && e.lo < e.hi ==>
      var p := polish(e.factor, e.bisected); p.Some? && e.lo <= p.value <= e.hi ==> e.at == p.value
    ensures r.Roots? ==> forall j, k :: 0 <= j < k < |r.found| ==>
      r.found[j].at <= r.found[k].at &&
      (r.found[j].at == r.found[k].at ==> r.found[j].multiplicity <= r.found[k].multiplicity)
  {
    hide Eval, RootsOf, EntriesOf, SquareFree, Coprime, Mul, Product, Ascending, Reports, GoodEntry, Holds, Times,
         Power, Abs;
    var f := PTrim(c);
    if Deg(f) < 0 {
      return Vanishing;
    }
    var factors := SquareFreeFactors(f);
    var found := [];
    assert FromFactors(factors, 0, []);
    hide FromFactors;
    for i := 0 to |factors|
      invariant FromFactors(factors, i, found) && AllReport(polish, found)
    {
      assert GoodFactor(factors[i]);
      var more := RootsOfFactor(factors[i].poly, factors[i].multiplicity, polish);
      AppendFactorEntries(f, factors, i, found, more);
      found := found + more;
    }
    AllFactors(f, factors, found);
    SortedRoots(f, found);
    var sorted := Sorted(found);
    assert AllReport(polish, sorted);
    AllClose(f, polish, sorted);
    Sorts(sorted);
    return Roots(sorted);
  }

  lemma Sorts(found: seq<Found>)
    requires Ascending(found)
    ensures forall j, k :: 0 <= j < k < |found| ==>
      found[j].at <= found[k].at && (found[j].at == found[k].at ==> found[j].multiplicity <= found[k].multiplicity)
  {
  }

  lemma AllClose(f: Poly, polish: Newton, found: seq<Found>)
    requires RootsOf(f, found) && AllReport(polish, found)
    ensures forall e, root: real :: e in found && e.lo < e.hi && Holds(e, root) ==>
      var p := polish(e.factor, e.bisected);
      if p.Some? && e.lo <= p.value <= e.hi then e.at == p.value
      else Abs(e.at - root) <= Times(e.hi - e.lo, Power(0.5, 151))
    ensures forall e :: e in found && e.lo < e.hi ==>
      var p := polish(e.factor, e.bisected); p.Some? && e.lo <= p.value <= e.hi ==> e.at == p.value
  {
    hide Eval, Pairwise, HeldBySome, RootOfEntry, GoodEntry, Holds, Times, Power, Abs;
    forall e, root: real | e in found && e.lo < e.hi && Holds(e, root)
      ensures var p := polish(e.factor, e.bisected);
        if p.Some? && e.lo <= p.value <= e.hi then e.at == p.value
        else Abs(e.at - root) <= Times(e.hi - e.lo, Power(0.5, 151))
    {
      ReportsClose(polish, e, root);
    }
  }

  lemma BracketEntry(e: Found, zero: (Poly, real, real) -> real)
    requires PicksZeros(zero) && IsBracket(e.factor, Bracket(e.lo, e.hi))
    ensures Holds(e, zero(e.factor, e.lo, e.hi))
  {
    hide Eval, TurnsOnce;
  }

  /** Every entry has its root, and only one. */
  lemma EntriesHaveRoots(f: Poly, found: seq<Found>, zero: (Poly, real, real) -> real, k: nat) returns (r: real)
    requires RootsOf(f, found) && PicksZeros(zero) && k < |found|
    ensures Holds(found[k], r) && RootOfEntry(f, found[k], r)
    ensures forall s: real :: Holds(found[k], s) ==> s == r
  {
    hide Eval, TurnsOnce, HeldBySome, Pairwise, RootOfEntry, Times, Power, PicksZeros;
    var e := found[k];
    assert GoodEntry(e);
    if e.lo == e.at == e.hi {
      r := e.at;
    } else {
      r := zero(e.factor, e.lo, e.hi);
      BracketEntry(e, zero);
      forall s: real | Holds(e, s)
        ensures s == r
      {
        BracketHoldsOneRoot(e.factor, Bracket(e.lo, e.hi), r, s);
      }
    }
  }
}

/** Real roots in [0, 1] of an exact polynomial: subdivision with an explicit stack, bisection in the
    brackets, every root once with its multiplicity. */
module RootIsolation {
  import opened Reals
  import opened Polynomials
  import opened Divisibility
  import opened SquareFreeFactorization
  import opened RootMultiplicity
  import opened Bernstein
  import opened SignVariations
  import opened AffineSubstitution
  import opened SubdivisionBounds

  /** An interval of the subdivision with the Bernstein coefficients on it. */
  datatype Cell = Cell(lo: real, hi: real, coeffs: seq<real>)

  datatype Bracket = Bracket(lo: real, hi: real)

  /** Past the first point inside where f has not the sign it has at lo, it has the other sign. */
  ghost predicate TurnsOnce(f: Poly, lo: real, hi: real) {
    forall x: real, y: real :: lo < x < y < hi ==>
      && (Eval(f, lo) > 0.0 && Eval(f, x) <= 0.0 ==> Eval(f, y) < 0.0)
      && (Eval(f, lo) < 0.0 && Eval(f, x) >= 0.0 ==> Eval(f, y) > 0.0)
  }

  /** Opposite signs at the ends and at most one root inside. */
  ghost predicate IsBracket(f: Poly, b: Bracket) {
    && 0.0 <= b.lo < b.hi <= 1.0
    && Eval(f, b.lo) != 0.0 && Eval(f, b.hi) != 0.0
    && (Eval(f, b.lo) > 0.0) != (Eval(f, b.hi) > 0.0)
    && TurnsOnce(f, b.lo, b.hi)
  }

  ghost predicate Apart(a: real, b: real, c: real, d: real) {
    b <= c || d <= a
  }

  ghost predicate Within(r: real, lo: real, hi: real) {
    lo < r < hi
  }

  ghost predicate InBracket(brackets: seq<Bracket>, r: real) {
    exists k :: 0 <= k < |brackets| && Within(r, brackets[k].lo, brackets[k].hi)
  }

  /** exact and brackets hold the roots of f in [0, 1]: none lost, none invented, none twice. */
  ghost predicate Isolated(f: Poly, exact: set<real>, brackets: seq<Bracket>) {
    && (forall r :: r in exact ==> 0.0 <= r <= 1.0 && Eval(f, r) == 0.0)
    && (forall k :: 0 <= k < |brackets| ==> IsBracket(f, brackets[k]))
    && (forall j, k :: 0 <= j < k < |brackets| ==>
          Apart(brackets[j].lo, brackets[j].hi, brackets[k].lo, brackets[k].hi))
    && (forall r, k :: r in exact && 0 <= k < |brackets| ==> !Within(r, brackets[k].lo, brackets[k].hi))
    && (forall r: real :: 0.0 <= r <= 1.0 && Eval(f, r) == 0.0 ==> r in exact || InBracket(brackets, r))
  }

  // ------------------------------------------------------------------ the stack

  ghost predicate CellOk(f: Poly, c: Cell, d: real, e: real) {
    && 0.0 <= c.lo < c.hi <= 1.0
    && OnInterval(f, c.lo, c.hi - c.lo, c.coeffs)
    && SmallSteps(c.coeffs, c.hi - c.lo, d, e)
  }

  ghost predicate OnStack(stack: seq<Cell>, r: real) {
    exists i :: 0 <= i < |stack| && stack[i].lo <= r <= stack[i].hi
  }

  /** What holds between two turns of the loop: cells and brackets do not overlap, the exact roots lie
      inside none of them, and every root is exact, in a bracket, or in a cell still on the stack. */
  ghost predicate Inv(f: Poly, stack: seq<Cell>, exact: set<real>, brackets: seq<Bracket>, d: real, e: real) {
    && (forall i :: 0 <= i < |stack| ==> CellOk(f, stack[i], d, e))
    && (forall i, j :: 0 <= i < j < |stack| ==> Apart(stack[i].lo, stack[i].hi, stack[j].lo, stack[j].hi))
    && (forall i, k :: 0 <= i < |stack| && 0 <= k < |brackets| ==>
          Apart(stack[i].lo, stack[i].hi, brackets[k].lo, brackets[k].hi))
    && (forall r, i :: r in exact && 0 <= i < |stack| ==> !Within(r, stack[i].lo, stack[i].hi))
    && (forall r :: r in exact ==> 0.0 <= r <= 1.0 && Eval(f, r) == 0.0)
    && (forall k :: 0 <= k < |brackets| ==> IsBracket(f, brackets[k]))
    && (forall j, k :: 0 <= j < k < |brackets| ==>
          Apart(brackets[j].lo, brackets[j].hi, brackets[k].lo, brackets[k].hi))
    && (forall r, k :: r in exact && 0 <= k < |brackets| ==> !Within(r, brackets[k].lo, brackets[k].hi))
    && (forall r: real :: 0.0 <= r <= 1.0 && Eval(f, r) == 0.0 ==>
          r in exact || InBracket(brackets, r) || OnStack(stack, r))
  }

  function Ends(c: Cell): set<real>
    requires |c.coeffs| >= 1
  {
    (if c.coeffs[0] == 0.0 then {c.lo} else {}) + (if c.coeffs[|c.coeffs| - 1] == 0.0 then {c.hi} else {})
  }

  lemma CellEnds(f: Poly, c: Cell, d: real, e: real)
    requires CellOk(f, c, d, e)
    ensures |c.coeffs| == |f| >= 1
    ensures c.coeffs[0] == Eval(f, c.lo) && c.coeffs[|c.coeffs| - 1] == Eval(f, c.hi)
  {
    EndValues(f, c.lo, c.hi - c.lo, c.coeffs);
  }

  lemma AddRoot(f: Poly, stack: seq<Cell>, exact: set<real>, brackets: seq<Bracket>, d: real, e: real, x: real)
    requires Inv(f, stack, exact, brackets, d, e) && 0.0 <= x <= 1.0 && Eval(f, x) == 0.0
    requires forall i :: 0 <= i < |stack| ==> !Within(x, stack[i].lo, stack[i].hi)
    requires forall k :: 0 <= k < |brackets| ==> !Within(x, brackets[k].lo, brackets[k].hi)
    ensures Inv(f, stack, exact + {x}, brackets, d, e)
  {
    hide Eval, CellOk, IsBracket, InBracket, OnStack, Within, Apart;
  }

  lemma EndIsFree(f: Poly, stack: seq<Cell>, exact: set<real>, brackets: seq<Bracket>, d: real, e: real, n: nat,
                  x: real)
    requires Inv(f, stack, exact, brackets, d, e) && n < |stack| && (x == stack[n].lo || x == stack[n].hi)
    ensures 0.0 <= x <= 1.0
    ensures forall i :: 0 <= i < |stack| ==> !Within(x, stack[i].lo, stack[i].hi)
    ensures forall k :: 0 <= k < |brackets| ==> !Within(x, brackets[k].lo, brackets[k].hi)
  {
    hide Eval, SmallSteps, OnInterval, IsBracket, InBracket, OnStack;
    assert CellOk(f, stack[n], d, e);
    forall i | 0 <= i < |stack|
      ensures !Within(x, stack[i].lo, stack[i].hi)
    {
      if i < n {
        assert Apart(stack[i].lo, stack[i].hi, stack[n].lo, stack[n].hi);
      } else if n < i {
        assert Apart(stack[n].lo, stack[n].hi, stack[i].lo, stack[i].hi);
      }
    }
    forall k | 0 <= k < |brackets|
      ensures !Within(x, brackets[k].lo, brackets[k].hi)
    {
      assert Apart(stack[n].lo, stack[n].hi, brackets[k].lo, brackets[k].hi);
    }
  }

  lemma AddEnds(f: Poly, stack: seq<Cell>, exact: set<real>, brackets: seq<Bracket>, d: real, e: real, n: nat)
    requires Inv(f, stack, exact, brackets, d, e) && n < |stack|
    ensures |stack[n].coeffs| >= 1
    ensures Inv(f, stack, exact + Ends(stack[n]), brackets, d, e)
  {
    var c := stack[n];
    assert CellOk(f, c, d, e);
    CellEnds(f, c, d, e);
    EndIsFree(f, stack, exact, brackets, d, e, n, c.lo);
    EndIsFree(f, stack, exact, brackets, d, e, n, c.hi);
    hide Inv, CellOk, Eval, Within;
    var lo, hi := if c.coeffs[0] == 0.0 then {c.lo} else {}, if c.coeffs[|c.coeffs| - 1] == 0.0 then {c.hi} else {};
    if lo != {} {
      AddRoot(f, stack, exact, brackets, d, e, c.lo);
    }
    assert exact + {} == exact && exact + lo + {} == exact + lo;
    if hi != {} {
      AddRoot(f, stack, exact + lo, brackets, d, e, c.hi);
    }
    assert exact + Ends(c) == exact + lo + hi;
  }

  // ------------------------------------------------------------------ what a cell's variations say

  /** The parameter of a point inside a cell. */
  lemma CellParameter(c: Cell, x: real) returns (s: real)
    requires c.lo < c.hi && c.lo < x < c.hi
    ensures 0.0 < s < 1.0 && c.lo + Times(c.hi - c.lo, s) == x
    ensures s == (x - c.lo) / (c.hi - c.lo)
  {
    s := (x - c.lo) / (c.hi - c.lo);
    FractionInside(x - c.lo, c.hi - c.lo);
    ParameterValue(c.lo, c.hi - c.lo, x);
  }

  lemma FractionInside(u: real, w: real)
    requires 0.0 < u < w
    ensures 0.0 < u / w < 1.0
  {
    var q := u / w;
    assert Times(w, q) == u;
    hide Times;
    TimesSign(w, q);
    TimesSign(w, 1.0 - q);
    TimesDifference(w, 1.0, q);
    TimesUnits(w);
  }

  lemma ParametersOrdered(c: Cell, x: real, y: real)
    requires c.lo < c.hi && x < y
    ensures (x - c.lo) / (c.hi - c.lo) < (y - c.lo) / (c.hi - c.lo)
  {
  }

  ghost predicate Nonzero(b: seq<real>) {
    exists i :: 0 <= i < |b| && b[i] != 0.0
  }

  /** The coefficients of a nonzero polynomial are not all zero. */
  lemma CellNonzero(f: Poly, c: Cell)
    requires !IsZero(f) && OnInterval(f, c.lo, c.hi - c.lo, c.coeffs) && c.lo < c.hi
    ensures Nonzero(c.coeffs)
  {
    var b := c.coeffs;
    if forall i :: 0 <= i < |b| ==> b[i] == 0.0 {
      forall x: real
        ensures Eval(f, x) == Eval(ZERO, x)
      {
        ZeroCell(f, c, x);
      }
      SameValuesSamePoly(f, ZERO);
    }
  }

  lemma ZeroCell(f: Poly, c: Cell, x: real)
    requires OnInterval(f, c.lo, c.hi - c.lo, c.coeffs) && c.lo < c.hi
    requires forall i :: 0 <= i < |c.coeffs| ==> c.coeffs[i] == 0.0
    ensures Eval(f, x) == Eval(ZERO, x)
  {
    hide Eval, BEval, Times;
    var s := (x - c.lo) / (c.hi - c.lo);
    ParameterValue(c.lo, c.hi - c.lo, x);
    assert BEval(c.coeffs, s) == Eval(f, c.lo + Times(c.hi - c.lo, s));
    ZeroCoefficients(c.coeffs, s);
    EvalUnits(x);
  }

  lemma ParameterValue(a: real, w: real, x: real)
    requires w > 0.0
    ensures a + Times(w, (x - a) / w) == x
  {
  }

  lemma {:induction false} ZeroCoefficients(b: seq<real>, t: real)
    requires |b| >= 1 && forall i :: 0 <= i < |b| ==> b[i] == 0.0
    ensures BEval(b, t) == 0.0
    decreases |b|
  {
    hide Times;
    if |b| >= 2 {
      ZeroCoefficients(b[..|b| - 1], t);
      ZeroCoefficients(b[1..], t);
      TimesUnits(t);
      TimesUnits(1.0 - t);
    }
  }

  lemma NoRootInside(f: Poly, c: Cell, x: real)
    requires !IsZero(f) && OnInterval(f, c.lo, c.hi - c.lo, c.coeffs) && c.lo < c.hi
    requires Variations(c.coeffs) == 0 && c.lo < x < c.hi
    ensures Eval(f, x) != 0.0
  {
    CellNonzero(f, c);
    hide Eval, BEval, Variations;
    var i :| 0 <= i < |c.coeffs| && c.coeffs[i] != 0.0;
    var s := CellParameter(c, x);
    assert BEval(c.coeffs, s) == Eval(f, c.lo + Times(c.hi - c.lo, s));
    NoVariationNoRoot(c.coeffs, i, s);
  }

  lemma CellTurnsOnce(f: Poly, c: Cell)
    requires OnInterval(f, c.lo, c.hi - c.lo, c.coeffs) && c.lo < c.hi
    requires Variations(c.coeffs) == 1 && c.coeffs[0] != 0.0
    ensures TurnsOnce(f, c.lo, c.hi)
  {
    EndValues(f, c.lo, c.hi - c.lo, c.coeffs);
    hide Eval, BEval, Variations;
    forall x: real, y: real | c.lo < x < y < c.hi
      ensures Eval(f, c.lo) > 0.0 && Eval(f, x) <= 0.0 ==> Eval(f, y) < 0.0
      ensures Eval(f, c.lo) < 0.0 && Eval(f, x) >= 0.0 ==> Eval(f, y) > 0.0
    {
      var s := CellParameter(c, x);
      var t := CellParameter(c, y);
      ParametersOrdered(c, x, y);
      assert BEval(c.coeffs, s) == Eval(f, c.lo + Times(c.hi - c.lo, s));
      assert BEval(c.coeffs, t) == Eval(f, c.lo + Times(c.hi - c.lo, t));
      OneVariationTurns(c.coeffs, s, t);
    }
  }

  lemma CellIsBracket(f: Poly, c: Cell, d: real, e: real)
    requires CellOk(f, c, d, e) && Variations(c.coeffs) == 1
    requires c.coeffs[0] != 0.0 && c.coeffs[|c.coeffs| - 1] != 0.0
    ensures IsBracket(f, Bracket(c.lo, c.hi))
  {
    CellEnds(f, c, d, e);
    CellTurnsOnce(f, c);
    OneVariationEnds(c.coeffs);
  }

  // ------------------------------------------------------------------ the three branches

  lemma OnStackSplits(stack: seq<Cell>, r: real)
    requires |stack| >= 1 && OnStack(stack, r)
    ensures OnStack(stack[..|stack| - 1], r) || stack[|stack| - 1].lo <= r <= stack[|stack| - 1].hi
  {
    var i :| 0 <= i < |stack| && stack[i].lo <= r <= stack[i].hi;
    if i < |stack| - 1 {
      assert stack[..|stack| - 1][i] == stack[i];
    }
  }

  /** A root on the stack is not in a cell without variation unless it is at its ends. */
  lemma NotInDropped(f: Poly, stack: seq<Cell>, d: real, e: real, r: real)
    requires !IsZero(f) && |stack| >= 1 && CellOk(f, stack[|stack| - 1], d, e)
    requires Variations(stack[|stack| - 1].coeffs) == 0 && OnStack(stack, r) && Eval(f, r) == 0.0
    ensures |stack[|stack| - 1].coeffs| >= 1
    ensures OnStack(stack[..|stack| - 1], r) || r in Ends(stack[|stack| - 1])
  {
    hide Eval, SmallSteps, OnInterval, Variations;
    var c := stack[|stack| - 1];
    CellEnds(f, c, d, e);
    OnStackSplits(stack, r);
    if c.lo < r < c.hi {
      NoRootInside(f, c, r);
    }
  }

  /** No variation: the cell holds no root but its ends. */
  lemma DropCell(f: Poly, stack: seq<Cell>, exact: set<real>, brackets: seq<Bracket>, d: real, e: real)
    requires !IsZero(f) && Inv(f, stack, exact, brackets, d, e) && |stack| >= 1
    requires |stack[|stack| - 1].coeffs| >= 1 && Ends(stack[|stack| - 1]) <= exact
    requires Variations(stack[|stack| - 1].coeffs) == 0
    ensures Inv(f, stack[..|stack| - 1], exact, brackets, d, e)
  {
    hide Eval, CellOk, IsBracket, InBracket, OnStack, Variations, Within, Apart, Ends, IsZero;
    var rest := stack[..|stack| - 1];
    forall r: real | 0.0 <= r <= 1.0 && Eval(f, r) == 0.0
      ensures r in exact || InBracket(brackets, r) || OnStack(rest, r)
    {
      if OnStack(stack, r) {
        NotInDropped(f, stack, d, e, r);
      }
    }
  }

  /** One variation between nonzero ends: the cell becomes a bracket. */
  lemma BracketCell(f: Poly, stack: seq<Cell>, exact: set<real>, brackets: seq<Bracket>, d: real, e: real)
    requires Inv(f, stack, exact, brackets, d, e) && |stack| >= 1
    requires |stack[|stack| - 1].coeffs| >= 1 && Variations(stack[|stack| - 1].coeffs) == 1
    requires stack[|stack| - 1].coeffs[0] != 0.0
    requires stack[|stack| - 1].coeffs[|stack[|stack| - 1].coeffs| - 1] != 0.0
    ensures var c := stack[|stack| - 1];
      Inv(f, stack[..|stack| - 1], exact, brackets + [Bracket(c.lo, c.hi)], d, e)
  {
    var n, m := |stack| - 1, |brackets|;
    var c, rest := stack[n], stack[..n];
    var more := brackets + [Bracket(c.lo, c.hi)];
    CellEnds(f, c, d, e);
    CellIsBracket(f, c, d, e);
    hide Eval, CellOk, IsBracket, InBracket, OnStack, Variations;
    forall j, k | 0 <= j < k < |more|
      ensures Apart(more[j].lo, more[j].hi, more[k].lo, more[k].hi)
    {
      if k == m {
        assert Apart(stack[n].lo, stack[n].hi, brackets[j].lo, brackets[j].hi);
      }
    }
    forall i, k | 0 <= i < n && 0 <= k < |more|
      ensures Apart(rest[i].lo, rest[i].hi, more[k].lo, more[k].hi)
    {
      if k == m {
        assert Apart(stack[i].lo, stack[i].hi, stack[n].lo, stack[n].hi);
      }
    }
    forall r: real | 0.0 <= r <= 1.0 && Eval(f, r) == 0.0
      ensures r in exact || InBracket(more, r) || OnStack(rest, r)
    {
      if r !in exact {
        BracketCovers(stack, brackets, r, f);
      }
    }
  }

  /** A root in a bracket or on the stack stays in one when the top cell, with no root at its ends, moves. */
  lemma BracketCovers(stack: seq<Cell>, brackets: seq<Bracket>, r: real, f: Poly)
    requires |stack| >= 1 && (InBracket(brackets, r) || OnStack(stack, r)) && Eval(f, r) == 0.0
    requires Eval(f, stack[|stack| - 1].lo) != 0.0 && Eval(f, stack[|stack| - 1].hi) != 0.0
    ensures var c := stack[|stack| - 1];
      InBracket(brackets + [Bracket(c.lo, c.hi)], r) || OnStack(stack[..|stack| - 1], r)
  {
    hide Eval;
    var c, m := stack[|stack| - 1], |brackets|;
    var more := brackets + [Bracket(c.lo, c.hi)];
    if InBracket(brackets, r) {
      var k :| 0 <= k < m && Within(r, brackets[k].lo, brackets[k].hi);
      assert Within(r, more[k].lo, more[k].hi);
    } else {
      OnStackSplits(stack, r);
      if c.lo <= r <= c.hi {
        assert Within(r, more[m].lo, more[m].hi);
      }
    }
  }

  lemma SplitCellOk(f: Poly, c: Cell, d: real, e: real)
    requires CellOk(f, c, d, e) && |c.coeffs| >= 2
    ensures var mid := (c.lo + c.hi) / 2.0;
      CellOk(f, Cell(c.lo, mid, Left(0.5, c.coeffs)), d, e) && CellOk(f, Cell(mid, c.hi, Right(0.5, c.coeffs)), d, e)
  {
    hide OnInterval, SmallSteps, Left, Right;
    var w := c.hi - c.lo;
    var mid := (c.lo + c.hi) / 2.0;
    OnParts(f, c.lo, w, 0.5, c.coeffs);
    HalvesSmallSteps(c.coeffs, w, d, e);
    assert mid - c.lo == w * 0.5 && c.hi - mid == w * 0.5 == w - w * 0.5 && mid == c.lo + w * 0.5;
  }

  /** Otherwise the two halves replace the cell. */
  lemma SplitCell(f: Poly, stack: seq<Cell>, exact: set<real>, brackets: seq<Bracket>, d: real, e: real, l: Cell,
                  r: Cell)
    requires Inv(f, stack, exact, brackets, d, e) && |stack| >= 1
    requires CellOk(f, l, d, e) && CellOk(f, r, d, e)
    requires l.lo == stack[|stack| - 1].lo && l.hi == r.lo && r.hi == stack[|stack| - 1].hi
    ensures Inv(f, stack[..|stack| - 1] + [l, r], exact, brackets, d, e)
  {
    hide Eval, CellOk, IsBracket, InBracket;
    var n := |stack| - 1;
    var rest, next := stack[..n], stack[..n] + [l, r];
    assert CellOk(f, stack[n], d, e);
    CellOrdered(f, l, d, e);
    CellOrdered(f, r, d, e);
    forall i, j | 0 <= i < j < |next|
      ensures Apart(next[i].lo, next[i].hi, next[j].lo, next[j].hi)
    {
      if i < n <= j {
        assert Apart(stack[i].lo, stack[i].hi, stack[n].lo, stack[n].hi);
      }
    }
    forall i, k | 0 <= i < |next| && 0 <= k < |brackets|
      ensures Apart(next[i].lo, next[i].hi, brackets[k].lo, brackets[k].hi)
    {
      if n <= i {
        assert Apart(stack[n].lo, stack[n].hi, brackets[k].lo, brackets[k].hi);
      }
    }
    forall x, i | x in exact && 0 <= i < |next|
      ensures !Within(x, next[i].lo, next[i].hi)
    {
      if n <= i {
        assert !Within(x, stack[n].lo, stack[n].hi);
      }
    }
    forall x: real | 0.0 <= x <= 1.0 && Eval(f, x) == 0.0
      ensures x in exact || InBracket(brackets, x) || OnStack(next, x)
    {
      if x !in exact && !InBracket(brackets, x) {
        OnStackSplits(stack, x);
        if OnStack(rest, x) {
          var i :| 0 <= i < n && rest[i].lo <= x <= rest[i].hi;
          assert next[i] == rest[i];
        } else {
          assert next[n].lo <= x <= next[n].hi || next[n + 1].lo <= x <= next[n + 1].hi;
        }
      }
    }
  }

  lemma CellOrdered(f: Poly, c: Cell, d: real, e: real)
    requires CellOk(f, c, d, e)
    ensures c.lo < c.hi
  {
  }

  // ------------------------------------------------------------------ termination

  /** The cells that subdividing down to width 1 / k visits below one of width w. */
  ghost function Budget(w: real, k: real): nat
    requires k > 0.0
    decreases if w * k < 1.0 then 0 else (w * k).Floor
  {
    if w * k < 1.0 then 1
    else
      HalfFloor(w, k);
      1 + 2 * Budget(w * 0.5, k)
  }

  lemma HalfFloor(w: real, k: real)
    requires w * k >= 1.0
    ensures (w * 0.5 * k) == (w * k) / 2.0
    ensures (w * k).Floor >= 1
    ensures (w * 0.5 * k) >= 1.0 ==> 0 <= (w * 0.5 * k).Floor < (w * k).Floor
  {
    HalfFloorOf(w * k);
  }

  lemma HalfFloorOf(x: real)
    requires x >= 1.0
    ensures x.Floor >= 1
    ensures x / 2.0 >= 1.0 ==> 0 <= (x / 2.0).Floor < x.Floor
  {
  }

  ghost function StackBudget(stack: seq<Cell>, k: real): nat
    requires k > 0.0
  {
    if stack == [] then 0
    else
      var c := stack[|stack| - 1];
      StackBudget(stack[..|stack| - 1], k) + Budget(c.hi - c.lo, k)
  }

  lemma StackBudgetPush(stack: seq<Cell>, l: Cell, r: Cell, k: real)
    requires k > 0.0
    ensures StackBudget(stack + [l, r], k) == StackBudget(stack, k) + Budget(l.hi - l.lo, k) + Budget(r.hi - r.lo, k)
  {
    hide Budget;
    var s, t := stack + [l], stack + [l, r];
    assert t[..|t| - 1] == s && s[..|s| - 1] == stack;
  }

  lemma BudgetPositive(w: real, k: real)
    requires k > 0.0
    ensures Budget(w, k) >= 1
  {
  }

  // ------------------------------------------------------------------ isolation

  /** The steps, the Bezout coefficients and the width below which every cell is decided. */
  lemma Bounds(f: Poly) returns (s: Poly, t: Poly, d: real, e: real, k: real)
    requires Deg(f) >= 1 && SquareFree(f)
    ensures Add(Mul(s, f), Mul(t, Der(f))) == ONE && d >= 0.0 && e >= 0.0
    ensures DecidesBelow(k, |f| - 1, AbsSum(s), AbsSum(t), d, e)
    ensures SmallSteps(BernsteinOf(f), 1.0, d, e)
  {
    hide Add, Mul, Der, BernsteinOf, AbsSum, DecidesBelow;
    s, t := SquareFreeBezout(f);
    var p := Diff(BernsteinOf(f));
    d, e := AbsSum(p), AbsSum(Diff(p));
    AbsSumBounds(p);
    AbsSumBounds(Diff(p));
    k := BoundExists(|f| - 1, AbsSum(s), AbsSum(t), d, e);
  }

  lemma StartInv(f: Poly, d: real, e: real)
    requires SmallSteps(BernsteinOf(f), 1.0, d, e)
    ensures Inv(f, [Cell(0.0, 1.0, BernsteinOf(f))], {}, [], d, e)
  {
    hide Eval, SmallSteps, BernsteinOf;
    var stack := [Cell(0.0, 1.0, BernsteinOf(f))];
    OnWholeInterval(f);
    assert CellOk(f, stack[0], d, e);
    forall r: real | 0.0 <= r <= 1.0
      ensures OnStack(stack, r)
    {
      assert stack[0].lo <= r <= stack[0].hi;
    }
  }

  /** An undecided cell is wide. */
  lemma UndecidedWide(f: Poly, s: Poly, t: Poly, c: Cell, w: real, d: real, e: real, k: real)
    requires Deg(f) >= 1 && CellOk(f, c, d, e) && w == c.hi - c.lo && d >= 0.0 && e >= 0.0
    requires Add(Mul(s, f), Mul(t, Der(f))) == ONE && DecidesBelow(k, |f| - 1, AbsSum(s), AbsSum(t), d, e)
    requires Variations(c.coeffs) != 0
    requires !(Variations(c.coeffs) == 1 && c.coeffs[0] != 0.0 && c.coeffs[|c.coeffs| - 1] != 0.0)
    ensures w * k >= 1.0
  {
    hide Add, Mul, Der, AbsSum, DecidesBelow, SmallSteps, Variations;
    if w * k < 1.0 {
      ShortIntervalDecided(f, s, t, c.lo, w, c.coeffs, d, e, k);
    }
  }

  lemma SplitBudget(rest: seq<Cell>, w: real, l: Cell, r: Cell, k: real)
    requires k > 0.0 && w * k >= 1.0
    requires l.hi - l.lo == w * 0.5 == r.hi - r.lo
    ensures StackBudget(rest + [l, r], k) < StackBudget(rest, k) + Budget(w, k)
  {
    StackBudgetPush(rest, l, r, k);
    BudgetUnfold(w, k);
  }

  lemma BudgetUnfold(w: real, k: real)
    requires k > 0.0 && w * k >= 1.0
    ensures Budget(w, k) == 1 + 2 * Budget(w * 0.5, k)
  {
  }

  /** The subdivision of `exact_roots` for one square-free factor. The stack always runs empty. */
  method Isolate(f: Poly) returns (exact: set<real>, brackets: seq<Bracket>)
    requires Deg(f) >= 1 && SquareFree(f)
    ensures Isolated(f, exact, brackets)
  {
    hide Inv, SquareFree, BernsteinOf, SmallSteps, DecidesBelow, Add, Mul, Der, AbsSum, StackBudget, Budget;
    ghost var s, t, d, e, k := Bounds(f);
    assert k > 0.0 by { PositiveBound(k, |f| - 1, AbsSum(s), AbsSum(t), d, e); }
    exact, brackets := {}, [];
    var stack := [Cell(0.0, 1.0, BernsteinOf(f))];
    StartInv(f, d, e);
    while stack != []
      invariant Inv(f, stack, exact, brackets, d, e)
      decreases StackBudget(stack, k)
    {
      var n := |stack| - 1;
      var c, rest := stack[n], stack[..n];
      TopCell(f, stack, exact, brackets, d, e);
      AddEnds(f, stack, exact, brackets, d, e, n);
      PopBudget(stack, k);
      ghost var was := exact;
      if c.coeffs[0] == 0.0 {
        exact := exact + {c.lo};
      }
      if c.coeffs[|c.coeffs| - 1] == 0.0 {
        exact := exact + {c.hi};
      }
      assert exact == was + Ends(c);
      var v := Variations(c.coeffs);
      if v == 0 {
        DropCell(f, stack, exact, brackets, d, e);
        stack := rest;
        continue;
      }
      if v == 1 && c.coeffs[0] != 0.0 && c.coeffs[|c.coeffs| - 1] != 0.0 {
        BracketCell(f, stack, exact, brackets, d, e);
        brackets := brackets + [Bracket(c.lo, c.hi)];
        stack := rest;
        continue;
      }
      ghost var w := c.hi - c.lo;
      UndecidedWide(f, s, t, c, w, d, e, k);
      var left, right := Halves(c.coeffs);
      var mid := (c.lo + c.hi) / 2.0;
      SplitCellOk(f, c, d, e);
      SplitCell(f, stack, exact, brackets, d, e, Cell(c.lo, mid, left), Cell(mid, c.hi, right));
      SplitBudget(rest, w, Cell(c.lo, mid, left), Cell(mid, c.hi, right), k);
      stack := rest + [Cell(c.lo, mid, left), Cell(mid, c.hi, right)];
    }
    EmptyStack(f, exact, brackets, d, e);
  }

  lemma PositiveBound(k: real, n: nat, sm: real, tm: real, d: real, e: real)
    requires DecidesBelow(k, n, sm, tm, d, e)
    ensures k > 0.0
  {
  }

  lemma TopCell(f: Poly, stack: seq<Cell>, exact: set<real>, brackets: seq<Bracket>, d: real, e: real)
    requires Inv(f, stack, exact, brackets, d, e) && stack != []
    ensures CellOk(f, stack[|stack| - 1], d, e) && |stack[|stack| - 1].coeffs| == |f|
  {
    CellEnds(f, stack[|stack| - 1], d, e);
  }

  lemma PopBudget(stack: seq<Cell>, k: real)
    requires k > 0.0 && stack != []
    ensures var c := stack[|stack| - 1];
      StackBudget(stack, k) == StackBudget(stack[..|stack| - 1], k) + Budget(c.hi - c.lo, k) &&
        Budget(c.hi - c.lo, k) >= 1
  {
    BudgetPositive(stack[|stack| - 1].hi - stack[|stack| - 1].lo, k);
  }

  lemma EmptyStack(f: Poly, exact: set<real>, brackets: seq<Bracket>, d: real, e: real)
    requires Inv(f, [], exact, brackets, d, e)
    ensures Isolated(f, exact, brackets)
  {
    hide Eval, IsBracket, InBracket;
    forall r: real | 0.0 <= r <= 1.0 && Eval(f, r) == 0.0
      ensures r in exact || InBracket(brackets, r)
    {
      assert !OnStack([], r);
    }
  }

  // ------------------------------------------------------------------ what a bracket holds

  /** zero picks a root between any two points of opposite signs: the intermediate value property of polynomials, which
      the reals have and the laws of an ordered field alone do not give. */
  ghost predicate PicksZeros(zero: (Poly, real, real) -> real) {
    forall f: Poly, a: real, b: real ::
      a < b && Eval(f, a) != 0.0 && Eval(f, b) != 0.0 && (Eval(f, a) > 0.0) != (Eval(f, b) > 0.0) ==>
        a < zero(f, a, b) < b && Eval(f, zero(f, a, b)) == 0.0
  }

  lemma BracketHoldsOneRoot(f: Poly, b: Bracket, r: real, s: real)
    requires IsBracket(f, b) && Within(r, b.lo, b.hi) && Within(s, b.lo, b.hi)
    requires Eval(f, r) == 0.0 && Eval(f, s) == 0.0
    ensures r == s
  {
    hide Eval;
  }

  /** Each bracket holds exactly one root. */
  lemma OneRootEach(f: Poly, exact: set<real>, brackets: seq<Bracket>, zero: (Poly, real, real) -> real, k: nat,
                    r: real)
    requires Isolated(f, exact, brackets) && PicksZeros(zero) && k < |brackets|
    ensures var b := brackets[k];
      Within(r, b.lo, b.hi) && Eval(f, r) == 0.0 <==> r == zero(f, b.lo, b.hi)
  {
    hide Eval, TurnsOnce, InBracket;
    var b := brackets[k];
    var s := zero(f, b.lo, b.hi);
    assert IsBracket(f, b);
    assert Within(s, b.lo, b.hi) && Eval(f, s) == 0.0;
    hide IsBracket;
    if Within(r, b.lo, b.hi) && Eval(f, r) == 0.0 {
      BracketHoldsOneRoot(f, b, r, s);
    }
  }
}

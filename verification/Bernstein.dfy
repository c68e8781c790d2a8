/** Bernstein coefficients on [0, 1]: values by de Casteljau's recursion, conversion from and to powers,
    subdivision. */
module Bernstein {
  import opened Reals
  import opened Polynomials

  /** The value at t of the polynomial with Bernstein coefficients b. */
  function BEval(b: seq<real>, t: real): real
    requires |b| >= 1
  {
    if |b| == 1 then b[0]
    else Times(1.0 - t, BEval(b[..|b| - 1], t)) + Times(t, BEval(b[1..], t))
  }

  /** (1 - u) x + u y */
  function Blend(u: real, x: real, y: real): real {
    Times(1.0 - u, x) + Times(u, y)
  }

  /** Componentwise blends of two lists of one length. */
  function Blends(u: real, p: seq<real>, q: seq<real>): (r: seq<real>)
    requires |p| == |q|
    ensures |r| == |p|
  {
    if p == [] then [] else [Blend(u, p[0], q[0])] + Blends(u, p[1..], q[1..])
  }

  lemma {:induction false} BlendsAt(u: real, p: seq<real>, q: seq<real>, i: nat)
    requires i < |p| == |q|
    ensures Blends(u, p, q)[i] == Blend(u, p[i], q[i])
  {
    hide Blend;
    if i > 0 {
      BlendsAt(u, p[1..], q[1..], i - 1);
    }
  }

  lemma BlendsSlices(u: real, p: seq<real>, q: seq<real>)
    requires |p| == |q| >= 1
    ensures Blends(u, p, q)[1..] == Blends(u, p[1..], q[1..])
    ensures Blends(u, p, q)[..|p| - 1] == Blends(u, p[..|p| - 1], q[..|p| - 1])
  {
    hide Blend;
    var n := |p| - 1;
    forall i | 0 <= i < n
      ensures Blends(u, p, q)[i] == Blends(u, p[..n], q[..n])[i]
    {
      BlendsAt(u, p, q, i);
      BlendsAt(u, p[..n], q[..n], i);
    }
  }

  lemma BlendSum(u: real, t: real, a: real, b: real, c: real, d: real)
    ensures Times(1.0 - t, Blend(u, a, b)) + Times(t, Blend(u, c, d))
         == Blend(u, Times(1.0 - t, a) + Times(t, c), Times(1.0 - t, b) + Times(t, d))
  {
    hide Times;
    var p, q := 1.0 - t, 1.0 - u;
    TimesSum(p, Times(q, a), Times(u, b));
    TimesSum(t, Times(q, c), Times(u, d));
    TimesAssociates(p, q, a);
    TimesAssociates(p, u, b);
    TimesAssociates(t, q, c);
    TimesAssociates(t, u, d);
    TimesSum(q, Times(p, a), Times(t, c));
    TimesSum(u, Times(p, b), Times(t, d));
  }

  /** Values are affine in the coefficients. */
  lemma {:induction false} BEvalBlends(u: real, p: seq<real>, q: seq<real>, t: real)
    requires |p| == |q| >= 1
    ensures BEval(Blends(u, p, q), t) == Blend(u, BEval(p, t), BEval(q, t))
  {
    hide Times, Blend;
    if |p| == 1 {
      BlendsAt(u, p, q, 0);
    } else {
      var n := |p| - 1;
      BlendsSlices(u, p, q);
      BEvalBlends(u, p[..n], q[..n], t);
      BEvalBlends(u, p[1..], q[1..], t);
      BlendSum(u, t, BEval(p[..n], t), BEval(q[..n], t), BEval(p[1..], t), BEval(q[1..], t));
    }
  }

  // ------------------------------------------------------------------ subdivision

  /** One row of de Casteljau's scheme at u. */
  function Row(u: real, b: seq<real>): (r: seq<real>)
    requires |b| >= 1
    ensures |r| == |b| - 1
  {
    Blends(u, b[..|b| - 1], b[1..])
  }

  /** The left edge of the scheme: the coefficients on [0, u]. */
  function Left(u: real, b: seq<real>): (r: seq<real>)
    requires |b| >= 1
    ensures |r| == |b| && r[0] == b[0]
    decreases |b|
  {
    if |b| == 1 then b else [b[0]] + Left(u, Row(u, b))
  }

  /** The right edge: the coefficients on [u, 1]. */
  function Right(u: real, b: seq<real>): (r: seq<real>)
    requires |b| >= 1
    ensures |r| == |b| && r[|b| - 1] == b[|b| - 1]
    decreases |b|
  {
    if |b| == 1 then b else Right(u, Row(u, b)) + [b[|b| - 1]]
  }

  lemma RowSlices(u: real, b: seq<real>)
    requires |b| >= 2
    ensures Row(u, b[..|b| - 1]) == Row(u, b)[..|b| - 2]
    ensures Row(u, b[1..]) == Row(u, b)[1..]
  {
    hide Blends;
    var n := |b| - 1;
    BlendsSlices(u, b[..n], b[1..]);
    assert b[..n][..n - 1] == b[..n - 1] && b[..n][1..] == b[1..][..n - 1];
    assert b[1..][..n - 1] == b[1..n] && b[..n][1..] == b[1..n];
  }

  lemma {:induction false} EdgeSlices(u: real, b: seq<real>)
    requires |b| >= 2
    ensures Left(u, b)[..|b| - 1] == Left(u, b[..|b| - 1])
    ensures Right(u, b)[1..] == Right(u, b[1..])
    decreases |b|
  {
    hide Row;
    RowSlices(u, b);
    var n := |b| - 1;
    if n >= 2 {
      var r := Row(u, b);
      EdgeSlices(u, r);
      assert Left(u, b)[..n] == [b[0]] + Left(u, r)[..n - 1];
      assert Right(u, b)[1..] == Right(u, r)[1..] + [b[n]];
    }
  }

  lemma LeftArithmetic(u: real, t: real, x: real, y: real)
    ensures Times(1.0 - t, x) + Times(t, Blend(u, x, y)) == Times(1.0 - u * t, x) + Times(u * t, y)
  {
  }

  lemma RightArithmetic(u: real, t: real, x: real, y: real)
    ensures Times(1.0 - t, Blend(u, x, y)) + Times(t, y)
         == Times(1.0 - (u + (1.0 - u) * t), x) + Times(u + (1.0 - u) * t, y)
  {
  }

  /** The left edge holds the same polynomial on [0, u]. */
  lemma {:induction false} BEvalLeft(u: real, b: seq<real>, t: real)
    requires |b| >= 1
    ensures BEval(Left(u, b), t) == BEval(b, u * t)
    decreases |b|
  {
    hide Times, Blend, Blends;
    if |b| >= 2 {
      var n := |b| - 1;
      EdgeSlices(u, b);
      BEvalLeft(u, b[..n], t);
      BEvalLeft(u, Row(u, b), t);
      assert Left(u, b)[1..] == Left(u, Row(u, b));
      BEvalBlends(u, b[..n], b[1..], u * t);
      LeftArithmetic(u, t, BEval(b[..n], u * t), BEval(b[1..], u * t));
    }
  }

  /** The right edge holds it on [u, 1]. */
  lemma {:induction false} BEvalRight(u: real, b: seq<real>, t: real)
    requires |b| >= 1
    ensures BEval(Right(u, b), t) == BEval(b, u + (1.0 - u) * t)
    decreases |b|
  {
    hide Times, Blend, Blends;
    if |b| >= 2 {
      var n := |b| - 1;
      var s := u + (1.0 - u) * t;
      EdgeSlices(u, b);
      BEvalRight(u, b[1..], t);
      BEvalRight(u, Row(u, b), t);
      assert Right(u, b)[..n] == Right(u, Row(u, b));
      BEvalBlends(u, b[..n], b[1..], s);
      RightArithmetic(u, t, BEval(b[..n], s), BEval(b[1..], s));
    }
  }

  /** The edges meet in the value at u. */
  lemma {:induction false} EdgesMeet(u: real, b: seq<real>)
    requires |b| >= 1
    ensures Left(u, b)[|b| - 1] == Right(u, b)[0]
    decreases |b|
  {
    hide Row;
    if |b| >= 2 {
      EdgesMeet(u, Row(u, b));
    }
  }

  lemma Halfway(x: real, y: real)
    ensures (x + y) / 2.0 == Blend(0.5, x, y)
  {
  }

  /** `halves`: de Casteljau's scheme at 1/2, a row at a time; the right edge is collected backwards. */
  method Halves(b: seq<real>) returns (left: seq<real>, right: seq<real>)
    requires |b| >= 1
    ensures left == Left(0.5, b) && right == Right(0.5, b)
    ensures forall t: real :: BEval(left, t) == BEval(b, 0.5 * t)
    ensures forall t: real :: BEval(right, t) == BEval(b, 0.5 + 0.5 * t)
  {
    hide BEval, Row, Left, Right, Reversed;
    var cur := b;
    left, right := [b[0]], [b[|b| - 1]];
    EdgesStart(b);
    for k := 0 to |b| - 1
      invariant |cur| == |b| - k && |left| == |right| == k + 1
      invariant left[k] == cur[0] && right[k] == cur[|cur| - 1]
      invariant left[..k] + Left(0.5, cur) == Left(0.5, b)
      invariant Right(0.5, cur) + Reversed(right[..k]) == Right(0.5, b)
    {
      EdgesStep(0.5, cur, left[..k], right[..k]);
      assert left[..k + 1] == left[..k] + [cur[0]];
      assert right == right[..k] + [cur[|cur| - 1]];
      ghost var wasRight := right;
      cur := MidRow(cur);
      left := left + [cur[0]];
      right := right + [cur[|cur| - 1]];
      assert right[..k + 1] == wasRight;
    }
    EdgesEnd(0.5, cur, left, right);
    right := Reversed(right);
    forall t: real
      ensures BEval(left, t) == BEval(b, 0.5 * t)
      ensures BEval(right, t) == BEval(b, 0.5 + 0.5 * t)
    {
      BEvalLeft(0.5, b, t);
      BEvalRight(0.5, b, t);
    }
  }

  lemma EdgesStart(b: seq<real>)
    requires |b| >= 1
    ensures [b[0]][..0] + Left(0.5, b) == Left(0.5, b)
    ensures Right(0.5, b) + Reversed([b[|b| - 1]][..0]) == Right(0.5, b)
  {
  }

  /** A row moves its ends into the edges collected so far. */
  lemma EdgesStep(u: real, cur: seq<real>, left: seq<real>, right: seq<real>)
    requires |cur| >= 2
    ensures left + Left(u, cur) == left + [cur[0]] + Left(u, Row(u, cur))
    ensures Right(u, cur) + Reversed(right) == Right(u, Row(u, cur)) + Reversed(right + [cur[|cur| - 1]])
  {
    hide Row;
    ReversedAppend(right, cur[|cur| - 1]);
  }

  lemma EdgesEnd(u: real, cur: seq<real>, left: seq<real>, right: seq<real>)
    requires |cur| == 1 && |left| >= 1 && |right| >= 1 && left[|left| - 1] == cur[0] && right[|right| - 1] == cur[0]
    ensures left[..|left| - 1] + Left(u, cur) == left
    ensures Right(u, cur) + Reversed(right[..|right| - 1]) == Reversed(right)
  {
    var n := |right| - 1;
    assert right == right[..n] + [cur[0]];
    ReversedAppend(right[..n], cur[0]);
  }

  function Reversed(s: seq<real>): (r: seq<real>)
    ensures |r| == |s|
  {
    if s == [] then [] else Reversed(s[1..]) + [s[0]]
  }

  lemma {:induction false} ReversedAppend(s: seq<real>, x: real)
    ensures Reversed(s + [x]) == [x] + Reversed(s)
  {
    if s == [] {
      assert (s + [x])[1..] == [];
    } else {
      assert (s + [x])[1..] == s[1..] + [x];
      ReversedAppend(s[1..], x);
    }
  }

  /** The comprehension inside `halves`: midpoints of neighbours. */
  method MidRow(cur: seq<real>) returns (row: seq<real>)
    requires |cur| >= 2
    ensures row == Row(0.5, cur)
  {
    hide Blend, Blends;
    var n := |cur| - 1;
    row := [];
    for i := 0 to n
      invariant |row| == i
      invariant forall j :: 0 <= j < i ==> row[j] == Blend(0.5, cur[j], cur[j + 1])
    {
      Halfway(cur[i], cur[i + 1]);
      row := row + [(cur[i] + cur[i + 1]) / 2.0];
    }
    forall j | 0 <= j < n
      ensures row[j] == Row(0.5, cur)[j]
    {
      BlendsAt(0.5, cur[..n], cur[1..], j);
    }
  }

  // ------------------------------------------------------------------ binomials and differences

  /** math.comb */
  function Choose(n: nat, k: nat): nat {
    if k == 0 then 1 else if n == 0 then 0 else Choose(n - 1, k) + Choose(n - 1, k - 1)
  }

  lemma {:induction false} ChooseBounds(n: nat, k: nat)
    ensures k <= n ==> Choose(n, k) >= 1
    ensures k > n ==> Choose(n, k) == 0
    ensures Choose(n, n) == 1
    decreases n
  {
    if n > 0 && k > 0 {
      ChooseBounds(n - 1, k);
      ChooseBounds(n - 1, k - 1);
    }
    if n > 0 {
      ChooseBounds(n - 1, n);
    }
  }

  /** Differences of neighbours. */
  function Diff(b: seq<real>): (d: seq<real>)
    ensures |d| == if |b| >= 1 then |b| - 1 else 0
    ensures forall i :: 0 <= i < |d| ==> d[i] == b[i + 1] - b[i]
  {
    seq(if |b| >= 1 then |b| - 1 else 0, i requires 0 <= i < |b| - 1 => b[i + 1] - b[i])
  }

  /** The k-th forward difference at 0. */
  function Delta(b: seq<real>, k: nat): real
    requires k < |b|
    decreases k
  {
    if k == 0 then b[0] else Delta(Diff(b), k - 1)
  }

  lemma {:induction false} DeltaRecurrence(b: seq<real>, k: nat)
    requires 1 <= k < |b|
    ensures Delta(b, k) == Delta(b[1..], k - 1) - Delta(b, k - 1)
    decreases k
  {
    if k >= 2 {
      assert Diff(b)[1..] == Diff(b[1..]);
      DeltaRecurrence(Diff(b), k - 1);
    }
  }

  lemma {:induction false} DeltaPrefix(b: seq<real>, k: nat, m: nat)
    requires k < m <= |b|
    ensures Delta(b[..m], k) == Delta(b, k)
    decreases k
  {
    if k > 0 {
      assert Diff(b[..m]) == Diff(b)[..m - 1];
      DeltaPrefix(Diff(b), k - 1, m - 1);
    }
  }

  lemma {:induction false} DeltasDetermine(p: seq<real>, q: seq<real>)
    requires |p| == |q| && forall k :: 0 <= k < |p| ==> Delta(p, k) == Delta(q, k)
    ensures p == q
    decreases |p|
  {
    if |p| >= 1 {
      assert Delta(p, 0) == Delta(q, 0);
      forall k | 0 <= k < |p| - 1
        ensures Delta(Diff(p), k) == Delta(Diff(q), k)
      {
        assert Delta(p, k + 1) == Delta(q, k + 1);
      }
      DeltasDetermine(Diff(p), Diff(q));
      DifferencesDetermine(p, q, |p| - 1);
    }
  }

  lemma {:induction false} DifferencesDetermine(p: seq<real>, q: seq<real>, i: nat)
    requires |p| == |q| && i < |p| && p[0] == q[0] && Diff(p) == Diff(q)
    ensures forall j :: 0 <= j <= i ==> p[j] == q[j]
    decreases i
  {
    if i > 0 {
      DifferencesDetermine(p, q, i - 1);
      assert Diff(p)[i - 1] == Diff(q)[i - 1];
    }
  }

  // ------------------------------------------------------------------ to powers

  /** (-1)^n */
  function AltSign(n: nat): real {
    if n % 2 == 0 then 1.0 else -1.0
  }

  /** (-1)^(k-i) C(k, i) */
  function AltWeight(k: nat, i: nat): real
    requires i <= k
  {
    AltSign(k - i) * Choose(k, i) as real
  }

  /** The first m terms of the sum of (-1)^(k-i) C(k, i) b[i]. */
  function AltSum(b: seq<real>, k: nat, m: nat): real
    requires m <= |b| && m <= k + 1
  {
    if m == 0 then 0.0
    else AltSum(b, k, m - 1) + Times(AltWeight(k, m - 1), b[m - 1])
  }

  /** `power_of`: ascending power coefficients. */
  function PowerOf(b: seq<real>): (c: seq<real>)
    ensures |c| == |b|
  {
    seq(|b|, k requires 0 <= k < |b| => Times(Choose(|b| - 1, k) as real, AltSum(b, k, k + 1)))
  }

  lemma AltTerm(k: nat, i: nat, x: real)
    requires 1 <= i <= k - 1
    ensures Times(AltWeight(k, i), x) == Times(AltWeight(k - 1, i - 1), x) - Times(AltWeight(k - 1, i), x)
  {
    var p, q, s := Choose(k - 1, i) as real, Choose(k - 1, i - 1) as real, AltSign(k - i);
    assert Choose(k, i) as real == p + q;
    assert AltSign(k - 1 - i) == -s;
    AltProducts(s, p, q, x);
  }

  lemma AltProducts(s: real, p: real, q: real, x: real)
    ensures Times(s * (p + q), x) == Times(s * q, x) - Times((-s) * p, x)
  {
  }

  lemma {:induction false} AltSumSplits(b: seq<real>, k: nat, m: nat)
    requires 1 <= m <= k && k < |b|
    ensures AltSum(b, k, m) == AltSum(b[1..], k - 1, m - 1) - AltSum(b, k - 1, m)
    decreases m
  {
    if m == 1 {
      AltSumSplitsFirst(b, k);
    } else {
      AltSumSplits(b, k, m - 1);
      AltSumSplitsStep(b, k, m);
    }
  }

  lemma AltSumSplitsStep(b: seq<real>, k: nat, m: nat)
    requires 2 <= m <= k && k < |b|
    requires AltSum(b, k, m - 1) == AltSum(b[1..], k - 1, m - 2) - AltSum(b, k - 1, m - 1)
    ensures AltSum(b, k, m) == AltSum(b[1..], k - 1, m - 1) - AltSum(b, k - 1, m)
  {
    hide *;
    AltTerm(k, m - 1, b[m - 1]);
    AltSumStep(b, k, m);
    AltSumStep(b, k - 1, m);
    AltSumStep(b[1..], k - 1, m - 1);
    assert b[1..][m - 2] == b[m - 1];
  }

  lemma AltSumStep(b: seq<real>, k: nat, m: nat)
    requires 1 <= m <= |b| && m <= k + 1
    ensures AltSum(b, k, m) == AltSum(b, k, m - 1) + Times(AltWeight(k, m - 1), b[m - 1])
  {
    hide Times, AltWeight;
  }

  lemma AltSumSplitsFirst(b: seq<real>, k: nat)
    requires 1 <= k < |b|
    ensures AltSum(b, k, 1) == AltSum(b[1..], k - 1, 0) - AltSum(b, k - 1, 1)
  {
    hide Times;
    assert AltSign(k) == -AltSign(k - 1);
    AltSumFirst(b, k);
    AltSumFirst(b, k - 1);
    AltProducts(AltSign(k), 1.0, 0.0, b[0]);
    TimesUnits(b[0]);
  }

  lemma AltSumFirst(b: seq<real>, k: nat)
    requires 1 <= |b|
    ensures AltSum(b, k, 1) == Times(AltSign(k), b[0])
  {
    hide Times;
    assert AltSum(b, k, 0) == 0.0;
    assert AltSign(k) * Choose(k, 0) as real == AltSign(k);
  }

  lemma AltSumLast(b: seq<real>, k: nat)
    requires k < |b|
    ensures AltSum(b, k, k + 1) == AltSum(b, k, k) + b[k]
  {
    hide Times;
    ChooseBounds(k, k);
    assert AltSign(k - k) * Choose(k, k) as real == 1.0;
    TimesUnits(b[k]);
  }

  /** The alternating sum is the forward difference. */
  lemma {:induction false} AltSumIsDelta(b: seq<real>, k: nat)
    requires k < |b|
    ensures AltSum(b, k, k + 1) == Delta(b, k)
    decreases k
  {
    hide Times, Choose, AltSum;
    if k == 0 {
      AltSumFirst(b, 0);
      TimesUnits(b[0]);
    } else {
      hide *;
      AltSumLast(b, k);
      AltSumIsDelta(b, k - 1);
      AltSumIsDelta(b[1..], k - 1);
      DeltaRecurrence(b, k);
      AltSumSplits(b, k, k);
      AltSumLast(b[1..], k - 1);
    }
  }

  lemma PowerOfAt(b: seq<real>, k: nat)
    requires k < |b|
    ensures PowerOf(b)[k] == Times(Choose(|b| - 1, k) as real, Delta(b, k))
  {
    hide Times;
    AltSumIsDelta(b, k);
  }

  lemma PowerStep(n: nat, k: nat, x: real)
    requires n >= 1 && k >= 1
    ensures Times(Choose(n, k) as real, x)
      == Times(Choose(n - 1, k) as real, x) + Times(Choose(n - 1, k - 1) as real, x)
  {
    var p, q := Choose(n - 1, k) as real, Choose(n - 1, k - 1) as real;
    assert Choose(n, k) as real == p + q;
    TimesSum(x, p, q);
  }

  /** power_of(b) is power_of(b[..n]) + x (power_of(b[1..]) - power_of(b[..n])). */
  lemma PowerOfSplits(b: seq<real>)
    requires |b| >= 2
    ensures PowerOf(b) == RawAdd(PowerOf(b[..|b| - 1]), [0.0] +
      RawAdd(PowerOf(b[1..]), Scale(-1.0, PowerOf(b[..|b| - 1]))))
  {
    hide Times;
    var n := |b| - 1;
    var p, q := PowerOf(b[..n]), PowerOf(b[1..]);
    var m := Scale(-1.0, p);
    var d := RawAdd(q, m);
    forall k | 0 <= k <= n
      ensures PowerOf(b)[k] == RawAdd(p, [0.0] + d)[k]
    {
      PowerOfSplitsAt(b, p, q, m, d, k);
    }
  }

  lemma PowerOfSplitsAt(b: seq<real>, p: seq<real>, q: seq<real>, m: seq<real>, d: seq<real>, k: nat)
    requires |b| >= 2 && k < |b|
    requires p == PowerOf(b[..|b| - 1]) && q == PowerOf(b[1..]) && m == Scale(-1.0, p) && d == RawAdd(q, m)
    ensures PowerOf(b)[k] == RawAdd(p, [0.0] + d)[k]
  {
    hide Times, PowerOf, Scale, RawAdd;
    var n := |b| - 1;
    PowerOfAt(b, k);
    RawAddAt(p, [0.0] + d, k);
    if k < n {
      PowerOfAt(b[..n], k);
      DeltaPrefix(b, k, n);
    } else {
      ChooseBounds(n - 1, n);
      TimesUnits(Delta(b, k));
    }
    if k > 0 {
      RawAddAt(q, m, k - 1);
      ScaleAt(-1.0, p, k - 1);
      TimesUnits(p[k - 1]);
      PowerOfAt(b[1..], k - 1);
      PowerOfAt(b[..n], k - 1);
      DeltaPrefix(b, k - 1, n);
      DeltaRecurrence(b, k);
      PowerStep(n, k, Delta(b, k));
      TimesDifference(Choose(n - 1, k - 1) as real, Delta(b[1..], k - 1), Delta(b, k - 1));
    }
  }

  lemma PowerValueArithmetic(t: real, x: real, y: real)
    ensures x + (0.0 + Times(t, y - x)) == Times(1.0 - t, x) + Times(t, y)
  {
  }

  /** The power form takes the Bernstein form's values. */
  lemma {:induction false} EvalPowerOf(b: seq<real>, t: real)
    requires |b| >= 1
    ensures Eval(PowerOf(b), t) == BEval(b, t)
    decreases |b|
  {
    hide Times, Eval;
    if |b| == 1 {
      PowerOfAt(b, 0);
      TimesUnits(b[0]);
      assert PowerOf(b) == [b[0]] + [];
      EvalCons(b[0], [], t);
      EvalZeros(0, t);
      assert Zeros(0) == [];
      TimesUnits(t);
    } else {
      hide PowerOf, RawAdd, Scale;
      var n := |b| - 1;
      var p, q := PowerOf(b[..n]), PowerOf(b[1..]);
      PowerOfSplits(b);
      EvalPowerOf(b[..n], t);
      EvalPowerOf(b[1..], t);
      EvalScale(-1.0, p, t);
      TimesUnits(Eval(p, t));
      EvalRawAdd(q, Scale(-1.0, p), t);
      EvalCons(0.0, RawAdd(q, Scale(-1.0, p)), t);
      EvalRawAdd(p, [0.0] + RawAdd(q, Scale(-1.0, p)), t);
      PowerValueArithmetic(t, BEval(b[..n], t), BEval(b[1..], t));
    }
  }

  // ------------------------------------------------------------------ from powers

  /** The first m terms of the sum of C(i, k) / C(n, k) c[k]. */
  function BernsteinSum(c: seq<real>, i: nat, m: nat): real
    requires m <= |c|
  {
    if m == 0 then 0.0
    else
      ChooseBounds(|c| - 1, m - 1);
      BernsteinSum(c, i, m - 1) + Times(Choose(i, m - 1) as real / Choose(|c| - 1, m - 1) as real, c[m - 1])
  }

  /** `bernstein_of`: Bernstein coefficients of an ascending power polynomial. */
  function BernsteinOf(c: seq<real>): (b: seq<real>)
    ensures |b| == |c|
  {
    seq(|c|, i requires 0 <= i < |c| => BernsteinSum(c, i, i + 1))
  }

  /** c[k] / C(n, k) */
  function Normalized(c: seq<real>): (d: seq<real>)
    ensures |d| == |c|
  {
    seq(|c|, k requires 0 <= k < |c| => (ChooseBounds(|c| - 1, k); c[k] / Choose(|c| - 1, k) as real))
  }

  /** The first m terms of Newton's forward form at i. */
  function Newton(d: seq<real>, i: nat, m: nat): real
    requires m <= |d|
  {
    if m == 0 then 0.0 else Newton(d, i, m - 1) + Times(Choose(i, m - 1) as real, d[m - 1])
  }

  function NewtonValues(d: seq<real>): (b: seq<real>)
    ensures |b| == |d|
  {
    seq(|d|, i requires 0 <= i < |d| => Newton(d, i, |d|))
  }

  lemma QuotientTerm(p: real, q: real, c: real)
    requires q != 0.0
    ensures Times(p / q, c) == Times(p, c / q)
  {
  }

  lemma {:induction false} BernsteinSumIsNewton(c: seq<real>, i: nat, m: nat)
    requires m <= |c|
    ensures BernsteinSum(c, i, m) == Newton(Normalized(c), i, m)
    decreases m
  {
    hide Times;
    if m > 0 {
      BernsteinSumIsNewton(c, i, m - 1);
      ChooseBounds(|c| - 1, m - 1);
      QuotientTerm(Choose(i, m - 1) as real, Choose(|c| - 1, m - 1) as real, c[m - 1]);
    }
  }

  lemma {:induction false} NewtonStops(d: seq<real>, i: nat, m: nat)
    requires i + 1 <= m <= |d|
    ensures Newton(d, i, m) == Newton(d, i, i + 1)
    decreases m
  {
    hide Times;
    if m > i + 1 {
      NewtonStops(d, i, m - 1);
      ChooseBounds(i, m - 1);
      TimesUnits(d[m - 1]);
    }
  }

  lemma {:induction false} NewtonDifference(d: seq<real>, i: nat, m: nat)
    requires 1 <= m <= |d|
    ensures Newton(d, i + 1, m) - Newton(d, i, m) == Newton(d[1..], i, m - 1)
    decreases m
  {
    hide Times;
    if m > 1 {
      NewtonDifference(d, i, m - 1);
      PowerStep(i + 1, m - 1, d[m - 1]);
    }
  }

  lemma BernsteinOfIsNewton(c: seq<real>)
    ensures BernsteinOf(c) == NewtonValues(Normalized(c))
  {
    hide Times;
    forall i | 0 <= i < |c|
      ensures BernsteinOf(c)[i] == NewtonValues(Normalized(c))[i]
    {
      BernsteinSumIsNewton(c, i, i + 1);
      NewtonStops(Normalized(c), i, |c|);
    }
  }

  lemma DiffNewtonValues(d: seq<real>)
    requires |d| >= 1
    ensures Diff(NewtonValues(d)) == NewtonValues(d[1..])
  {
    hide Times;
    forall i | 0 <= i < |d| - 1
      ensures Diff(NewtonValues(d))[i] == NewtonValues(d[1..])[i]
    {
      NewtonDifference(d, i, |d|);
    }
  }

  lemma {:induction false} DeltaNewtonValues(d: seq<real>, k: nat)
    requires k < |d|
    ensures Delta(NewtonValues(d), k) == d[k]
    decreases k
  {
    hide Times;
    if k == 0 {
      NewtonStops(d, 0, |d|);
      assert Newton(d, 0, 1) == Newton(d, 0, 0) + Times(1.0, d[0]);
      TimesUnits(d[0]);
    } else {
      DiffNewtonValues(d);
      DeltaNewtonValues(d[1..], k - 1);
    }
  }

  lemma NormalizedTerm(q: real, c: real)
    requires q != 0.0
    ensures Times(q, c / q) == c
  {
  }

  /** power_of undoes bernstein_of. */
  lemma PowerOfBernsteinOf(c: seq<real>)
    ensures PowerOf(BernsteinOf(c)) == c
  {
    hide Times;
    var b := BernsteinOf(c);
    BernsteinOfIsNewton(c);
    forall k | 0 <= k < |c|
      ensures PowerOf(b)[k] == c[k]
    {
      PowerOfAt(b, k);
      DeltaNewtonValues(Normalized(c), k);
      ChooseBounds(|c| - 1, k);
      NormalizedTerm(Choose(|c| - 1, k) as real, c[k]);
    }
  }

  lemma SamePowersSameCoefficients(p: seq<real>, q: seq<real>)
    requires |p| == |q| && PowerOf(p) == PowerOf(q)
    ensures p == q
  {
    hide Times, PowerOf;
    forall k | 0 <= k < |p|
      ensures Delta(p, k) == Delta(q, k)
    {
      PowerOfAt(p, k);
      PowerOfAt(q, k);
      ChooseBounds(|p| - 1, k);
      TimesDifference(Choose(|p| - 1, k) as real, Delta(p, k), Delta(q, k));
      TimesZero(Choose(|p| - 1, k) as real, Delta(p, k) - Delta(q, k));
    }
    DeltasDetermine(p, q);
  }

  /** bernstein_of undoes power_of. */
  lemma BernsteinOfPowerOf(b: seq<real>)
    ensures BernsteinOf(PowerOf(b)) == b
  {
    PowerOfBernsteinOf(PowerOf(b));
    SamePowersSameCoefficients(BernsteinOf(PowerOf(b)), b);
  }

  /** The Bernstein form takes the power form's values. */
  lemma BEvalBernsteinOf(c: seq<real>, t: real)
    requires |c| >= 1
    ensures BEval(BernsteinOf(c), t) == Eval(c, t)
  {
    PowerOfBernsteinOf(c);
    EvalPowerOf(BernsteinOf(c), t);
  }

  /** Bernstein coefficients of one degree are determined by the values. */
  lemma SameValuesSameCoefficients(p: seq<real>, q: seq<real>)
    requires |p| == |q| >= 1 && forall t: real :: BEval(p, t) == BEval(q, t)
    ensures p == q
  {
    forall t: real
      ensures Eval(PowerOf(p), t) == Eval(PowerOf(q), t)
    {
      EvalPowerOf(p, t);
      EvalPowerOf(q, t);
      assert BEval(p, t) == BEval(q, t);
    }
    SameValuesSameList(PowerOf(p), PowerOf(q));
    SamePowersSameCoefficients(p, q);
  }
}

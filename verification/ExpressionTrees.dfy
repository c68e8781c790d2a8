/** Set functions of expression trees, and how a piece of a face that several solids share bounds the set a
    tree describes. */
module ExpressionTrees {

  datatype Op = Fuse | Cut | Common

  /** A tree of set operations; a leaf is a solid's index. */
  datatype Expr = Leaf(solid: nat) | Node(op: Op, left: Expr, right: Expr)

  function Apply(op: Op, a: bool, b: bool): bool {
    match op
    case Fuse => a || b
    case Cut => a && !b
    case Common => a && b
  }

  /** `leaves` */
  function Leaves(e: Expr): set<nat> {
    match e
    case Leaf(i) => {i}
    case Node(_, x, y) => Leaves(x) + Leaves(y)
  }

  /** The tree names only solids below n. */
  predicate Over(e: Expr, n: nat) {
    match e
    case Leaf(i) => i < n
    case Node(_, x, y) => Over(x, n) && Over(y, n)
  }

  lemma {:induction false} OverMore(e: Expr, n: nat)
    requires Over(e, n)
    ensures Over(e, n + 1)
  {
    if e.Node? {
      OverMore(e.left, n);
      OverMore(e.right, n);
    }
  }

  /** `evaluate` */
  function Evaluate(e: Expr, mem: seq<bool>): bool
    requires Over(e, |mem|)
  {
    match e
    case Leaf(i) => mem[i]
    case Node(op, x, y) => Apply(op, Evaluate(x, mem), Evaluate(y, mem))
  }

  /** A tree looks at its leaves and nothing else. */
  lemma {:induction false} EvaluateDependsOnLeaves(e: Expr, mem: seq<bool>, other: seq<bool>)
    requires Over(e, |mem|) && Over(e, |other|)
    requires forall i :: i in Leaves(e) && i < |mem| && i < |other| ==> mem[i] == other[i]
    ensures Evaluate(e, mem) == Evaluate(e, other)
  {
    match e
    case Leaf(i) => assert i in Leaves(e);
    case Node(_, x, y) =>
      EvaluateDependsOnLeaves(x, mem, other);
      EvaluateDependsOnLeaves(y, mem, other);
  }

  // ------------------------------------------------------------------ chains

  /** The set function of `(A op1 B) op2 C` (swapped `C op2 (A op1 B)`) followed by `more`, by memberships. */
  function ChainValue(op1: Op, op2: Op, swapped: bool, more: seq<(Op, bool)>, mem: seq<bool>): bool
    requires |mem| == 3 + |more|
  {
    if more == [] then
      var first := Apply(op1, mem[0], mem[1]);
      if swapped then Apply(op2, mem[2], first) else Apply(op2, first, mem[2])
    else
      var k := |more| - 1;
      var before := ChainValue(op1, op2, swapped, more[..k], mem[..3 + k]);
      var (op, sw) := more[k];
      if sw then Apply(op, mem[3 + k], before) else Apply(op, before, mem[3 + k])
  }

  /** The tree's set function is the chain's, and it uses each solid. */
  ghost predicate IsChain(e: Expr, op1: Op, op2: Op, swapped: bool, more: seq<(Op, bool)>) {
    && Over(e, 3 + |more|)
    && (forall i: nat :: i in Leaves(e) <==> i < 3 + |more|)
    && forall mem: seq<bool> :: |mem| == 3 + |more| ==> Evaluate(e, mem) == ChainValue(op1, op2, swapped, more, mem)
  }

  lemma ChainStart(op1: Op, op2: Op, swapped: bool)
    ensures IsChain(if swapped then Node(op2, Leaf(2), Node(op1, Leaf(0), Leaf(1)))
                    else Node(op2, Node(op1, Leaf(0), Leaf(1)), Leaf(2)), op1, op2, swapped, [])
  {
    hide Apply;
    var inner := Node(op1, Leaf(0), Leaf(1));
    assert Leaves(inner) == {0, 1} && Over(inner, 3);
    var e := if swapped then Node(op2, Leaf(2), inner) else Node(op2, inner, Leaf(2));
    assert Leaves(e) == {0, 1, 2} && Over(e, 3);
    forall mem: seq<bool> | |mem| == 3
      ensures Evaluate(e, mem) == ChainValue(op1, op2, swapped, [], mem)
    {
      assert Evaluate(inner, mem) == Apply(op1, mem[0], mem[1]);
    }
  }

  lemma LeavesMore(op: Op, e: Expr, k: nat)
    ensures Leaves(Node(op, Leaf(k), e)) == Leaves(e) + {k} == Leaves(Node(op, e, Leaf(k)))
  {
    assert Leaves(Leaf(k)) == {k};
  }

  lemma ChainMoreValue(was: Expr, e: Expr, op1: Op, op2: Op, swapped: bool, more: seq<(Op, bool)>, op: Op, sw: bool,
                       mem: seq<bool>)
    requires Over(was, 3 + |more|) && Over(e, |mem|) && |mem| == 4 + |more|
    requires e == if sw then Node(op, Leaf(3 + |more|), was) else Node(op, was, Leaf(3 + |more|))
    requires Evaluate(was, mem[..3 + |more|]) == ChainValue(op1, op2, swapped, more, mem[..3 + |more|])
    ensures Evaluate(e, mem) == ChainValue(op1, op2, swapped, more + [(op, sw)], mem)
  {
    hide Apply, Leaves;
    assert (more + [(op, sw)])[..|more|] == more;
    EvaluateDependsOnLeaves(was, mem, mem[..3 + |more|]);
  }

  lemma ChainMore(was: Expr, op1: Op, op2: Op, swapped: bool, more: seq<(Op, bool)>, op: Op, sw: bool)
    requires IsChain(was, op1, op2, swapped, more)
    ensures var k := 3 + |more|;
      IsChain(if sw then Node(op, Leaf(k), was) else Node(op, was, Leaf(k)), op1, op2, swapped, more + [(op, sw)])
  {
    hide Apply, Leaves, Evaluate, ChainValue;
    var k, all := 3 + |more|, more + [(op, sw)];
    var e := if sw then Node(op, Leaf(k), was) else Node(op, was, Leaf(k));
    OverMore(was, k);
    assert Over(e, k + 1);
    LeavesMore(op, was, k);
    forall mem: seq<bool> | |mem| == k + 1
      ensures Evaluate(e, mem) == ChainValue(op1, op2, swapped, all, mem)
    {
      assert |mem[..k]| == k;
      ChainMoreValue(was, e, op1, op2, swapped, more, op, sw, mem);
    }
  }

  /** `chain_expr` */
  method ChainExpr(op1: Op, op2: Op, swapped: bool, more: seq<(Op, bool)>) returns (e: Expr)
    ensures IsChain(e, op1, op2, swapped, more)
  {
    hide IsChain;
    e := if swapped then Node(op2, Leaf(2), Node(op1, Leaf(0), Leaf(1)))
      else Node(op2, Node(op1, Leaf(0), Leaf(1)), Leaf(2));
    ChainStart(op1, op2, swapped);
    for k := 0 to |more|
      invariant IsChain(e, op1, op2, swapped, more[..k])
    {
      var (op, sw) := more[k];
      ChainMore(e, op1, op2, swapped, more[..k], op, sw);
      assert more[..k + 1] == more[..k] + [(op, sw)];
      e := if sw then Node(op, Leaf(3 + k), e) else Node(op, e, Leaf(3 + k));
    }
    assert more[..|more|] == more;
  }

  // ------------------------------------------------------------------ one piece of a face

  function Insert(s: seq<bool>, i: nat, b: bool): (r: seq<bool>)
    requires i <= |s|
    ensures |r| == |s| + 1
  {
    s[..i] + [b] + s[i..]
  }

  function Remove(s: seq<bool>, i: nat): (r: seq<bool>)
    requires i < |s|
    ensures |r| == |s| - 1
  {
    s[..i] + s[i + 1..]
  }

  lemma InsertRemove(s: seq<bool>, i: nat)
    requires i < |s|
    ensures Insert(Remove(s, i), i, s[i]) == s
  {
  }

  /** The other inputs' memberships in front of a piece and behind it: the class of the piece. */
  datatype Key = Key(front: seq<bool>, back: seq<bool>)

  predicate KeyOf(key: Key, n: nat) {
    |key.front| == |key.back| == n - 1
  }

  /** Where input j stands among the inputs other than i. */
  function Place(i: nat, j: nat): nat
    requires i != j
  {
    if j < i then j else j - 1
  }

  /** An input before i, used by the tree, has a face here too: the piece is counted with it. */
  ghost predicate Taken(n: nat, i: nat, key: Key, used: set<nat>)
    requires i < n && KeyOf(key, n)
  {
    exists j :: 0 <= j < i && j in used && key.front[Place(i, j)] != key.back[Place(i, j)]
  }

  /** +1 where the value rises from front to back, -1 where it falls. */
  function Step(front: bool, back: bool): int {
    if back && !front then 1 else if front && !back then -1 else 0
  }

  ghost function Share(n: nat, i: nat, key: Key, e: Expr): int
    requires i < n && KeyOf(key, n) && Over(e, n)
  {
    if i !in Leaves(e) || Taken(n, i, key, Leaves(e)) then 0
    else Step(Evaluate(e, Insert(key.front, i, false)), Evaluate(e, Insert(key.back, i, true)))
  }

  predicate AreOthers(others: seq<nat>, n: nat, i: nat)
    requires i < n
  {
    |others| == n - 1 && forall k :: 0 <= k < n - 1 ==> others[k] == if k < i then k else k + 1
  }

  method Others(n: nat, i: nat) returns (others: seq<nat>)
    requires i < n
    ensures AreOthers(others, n, i)
  {
    others := [];
    for j := 0 to n
      invariant |others| == if j <= i then j else j - 1
      invariant forall k :: 0 <= k < |others| ==> others[k] == if k < i then k else k + 1
    {
      if j != i {
        others := others + [j];
      }
    }
  }

  /** The memberships of all inputs on one side of the piece, from those of the others and the own one. */
  method Fill(n: nat, i: nat, others: seq<nat>, side: seq<bool>, own: bool) returns (mem: seq<bool>)
    requires i < n && AreOthers(others, n, i) && |side| == n - 1
    ensures mem == Insert(side, i, own)
  {
    var filled := new bool[n](_ => false);
    filled[i] := own;
    for idx := 0 to n - 1
      invariant filled[i] == own
      invariant forall k :: 0 <= k < idx ==> filled[others[k]] == side[k]
    {
      filled[others[idx]] := side[idx];
    }
    forall k | 0 <= k < n
      ensures filled[k] == Insert(side, i, own)[k]
    {
      if k != i {
        assert others[Place(i, k)] == k;
      }
    }
    return filled[..];
  }

  /** `Chain.contribution` */
  method Contribution(n: nat, i: nat, key: Key, e: Expr, used: set<nat>) returns (c: int)
    requires i < n && KeyOf(key, n) && Over(e, n) && used == Leaves(e)
    ensures c == Share(n, i, key, e)
  {
    hide Insert;
    if i !in used {
      return 0;
    }
    var front, back := key.front, key.back;
    var others := Others(n, i);
    for idx := 0 to |others|
      invariant forall k :: 0 <= k < idx && k < i && k in used ==> front[k] == back[k]
    {
      var j := others[idx];
      if j < i && j in used && front[idx] != back[idx] {
        assert Place(i, j) == idx;
        return 0;
      }
    }
    var fm := Fill(n, i, others, front, false);
    var bm := Fill(n, i, others, back, true);
    var f, b := Evaluate(e, fm), Evaluate(e, bm);
    if b && !f {
      return 1;
    }
    if f && !b {
      return -1;
    }
    return 0;
  }

  // ------------------------------------------------------------------ exactly once

  /** The class of a physical piece for input i, whose membership differs across it: the input's own face has
      the input behind it, so an input in front of the piece sees it from the other side. */
  function Seen(front: seq<bool>, back: seq<bool>, i: nat): (key: Key)
    requires |front| == |back| && i < |front|
    ensures KeyOf(key, |front|)
  {
    if back[i] then Key(Remove(front, i), Remove(back, i)) else Key(Remove(back, i), Remove(front, i))
  }

  /** Whether input i's face shows the piece the other way round. */
  function Facing(back: seq<bool>, i: nat): int
    requires i < |back|
  {
    if back[i] then 1 else -1
  }

  /** Input i is the first the tree uses whose membership differs across the piece. */
  ghost predicate Counts(front: seq<bool>, back: seq<bool>, e: Expr, i: nat) {
    && |front| == |back| && i < |front| && front[i] != back[i] && i in Leaves(e)
    && forall j :: 0 <= j < i && j in Leaves(e) ==> front[j] == back[j]
  }

  lemma TakenSeen(front: seq<bool>, back: seq<bool>, e: Expr, i: nat)
    requires |front| == |back| && i < |front| && front[i] != back[i] && i in Leaves(e)
    ensures Taken(|front|, i, Seen(front, back, i), Leaves(e)) <==> !Counts(front, back, e, i)
  {
    var key, used := Seen(front, back, i), Leaves(e);
    if !Counts(front, back, e, i) {
      var j :| 0 <= j < i && j in used && front[j] != back[j];
      assert key.front[Place(i, j)] != key.back[Place(i, j)];
    }
  }

  /** What one input contributes: the whole step if it is the one that counts, else nothing. */
  lemma ShareSeen(front: seq<bool>, back: seq<bool>, e: Expr, i: nat)
    requires |front| == |back| && i < |front| && front[i] != back[i] && Over(e, |front|)
    ensures Facing(back, i) * Share(|front|, i, Seen(front, back, i), e)
         == if Counts(front, back, e, i) then Step(Evaluate(e, front), Evaluate(e, back)) else 0
  {
    if i in Leaves(e) {
      TakenSeen(front, back, e, i);
      InsertRemove(front, i);
      InsertRemove(back, i);
    }
  }

  /** At most one input counts, and one does wherever the tree's value differs. */
  lemma OneCounts(front: seq<bool>, back: seq<bool>, e: Expr)
    requires |front| == |back| && Over(e, |front|)
    ensures forall i, j :: Counts(front, back, e, i) && Counts(front, back, e, j) ==> i == j
    ensures Evaluate(e, front) != Evaluate(e, back) ==> exists i :: Counts(front, back, e, i)
  {
    if Evaluate(e, front) != Evaluate(e, back) {
      var i := FirstDifference(front, back, e, |front|);
      if i == |front| {
        EvaluateDependsOnLeaves(e, front, back);
      }
      assert Counts(front, back, e, i);
    }
  }

  lemma {:induction false} FirstDifference(front: seq<bool>, back: seq<bool>, e: Expr, n: nat) returns (i: nat)
    requires |front| == |back| && n <= |front|
    ensures i <= |front| && forall j :: 0 <= j < i && j < n && j in Leaves(e) ==> front[j] == back[j]
    ensures i < |front| ==> i < n && Counts(front, back, e, i)
  {
    i := |front|;
    if n > 0 {
      i := FirstDifference(front, back, e, n - 1);
      if i == |front| && n - 1 in Leaves(e) && front[n - 1] != back[n - 1] {
        i := n - 1;
      }
    }
  }

  /** The contributions of the first m inputs to a physical piece, each turned to the piece's own side. */
  ghost function ShareSum(front: seq<bool>, back: seq<bool>, e: Expr, m: nat): int
    requires |front| == |back| && Over(e, |front|) && m <= |front|
  {
    if m == 0 then 0
    else
      ShareSum(front, back, e, m - 1) +
      if front[m - 1] == back[m - 1] then 0
      else Facing(back, m - 1) * Share(|front|, m - 1, Seen(front, back, m - 1), e)
  }

  lemma {:induction false} ShareSumIs(front: seq<bool>, back: seq<bool>, e: Expr, m: nat)
    requires |front| == |back| && Over(e, |front|) && m <= |front|
    ensures ShareSum(front, back, e, m) ==
      if exists i :: 0 <= i < m && Counts(front, back, e, i) then Step(Evaluate(e, front), Evaluate(e, back)) else 0
  {
    hide Share, Seen, Facing, Evaluate;
    OneCounts(front, back, e);
    if m > 0 {
      ShareSumIs(front, back, e, m - 1);
      if front[m - 1] != back[m - 1] {
        ShareSeen(front, back, e, m - 1);
      }
    }
  }

  /** Every boundary piece is counted exactly once, with its sign, if and only if the tree's value differs
      across it, whatever the tree and however many inputs have faces there. */
  lemma CountedOnce(front: seq<bool>, back: seq<bool>, e: Expr)
    requires |front| == |back| && Over(e, |front|)
    ensures ShareSum(front, back, e, |front|) == Step(Evaluate(e, front), Evaluate(e, back))
    ensures forall i :: 0 <= i < |front| && front[i] != back[i] ==>
      (Share(|front|, i, Seen(front, back, i), e) != 0 <==>
        Counts(front, back, e, i) && Evaluate(e, front) != Evaluate(e, back))
  {
    hide Share, Seen, Evaluate;
    OneCounts(front, back, e);
    ShareSumIs(front, back, e, |front|);
    forall i | 0 <= i < |front| && front[i] != back[i]
      ensures Share(|front|, i, Seen(front, back, i), e) != 0 <==>
        Counts(front, back, e, i) && Evaluate(e, front) != Evaluate(e, back)
    {
      ShareSeen(front, back, e, i);
    }
  }
}

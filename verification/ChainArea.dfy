/** The surface area of a chain: each piece of a face is counted by the first solid whose face holds it. */
module ChainArea {
  import opened ExpressionTrees

  /** How a piece of one solid's face lies against another solid. */
  datatype Class = Inside | Outside | Same | Opposite

  /** The other solid's membership in front of the piece and behind it. */
  function Sides(c: Class): (bool, bool) {
    match c
    case Inside => (true, true)
    case Outside => (false, false)
    case Same => (false, true)
    case Opposite => (true, false)
  }

  function FrontOf(classes: seq<Class>): (r: seq<bool>)
    ensures |r| == |classes|
  {
    seq(|classes|, k requires 0 <= k < |classes| => Sides(classes[k]).0)
  }

  function BackOf(classes: seq<Class>): (r: seq<bool>)
    ensures |r| == |classes|
  {
    seq(|classes|, k requires 0 <= k < |classes| => Sides(classes[k]).1)
  }

  /** `bounds_chain`: the chain's function differs in front of the piece, its solid left, and behind it, held. */
  method BoundsChain(fn: seq<bool> -> bool, own: nat, others: seq<nat>, classes: seq<Class>) returns (b: bool)
    requires own <= |classes| && AreOthers(others, |classes| + 1, own)
    ensures b <==> fn(Insert(FrontOf(classes), own, false)) != fn(Insert(BackOf(classes), own, true))
  {
    var front := Fill(|classes| + 1, own, others, FrontOf(classes), false);
    var back := Fill(|classes| + 1, own, others, BackOf(classes), true);
    b := fn(front) != fn(back);
  }

  predicate OnFace(c: Class) {
    c == Same || c == Opposite
  }

  /** The piece also lies on a face of an earlier solid: counted there. */
  predicate Earlier(own: nat, classes: seq<Class>) {
    exists k :: 0 <= k < own && k < |classes| && OnFace(classes[k])
  }

  predicate Counted(fn: seq<bool> -> bool, own: nat, classes: seq<Class>)
    requires own <= |classes|
  {
    !Earlier(own, classes) && fn(Insert(FrontOf(classes), own, false)) != fn(Insert(BackOf(classes), own, true))
  }

  /** One turn of the loop of `Chain.area`. */
  method AddPiece(fn: seq<bool> -> bool, own: nat, n: nat, classes: seq<Class>, area: real,
                  total: real) returns (r: real)
    requires own < n && |classes| == n - 1
    ensures r == if Counted(fn, own, classes) then total + area else total
  {
    var others := Others(n, own);
    for k := 0 to |others|
      invariant forall j :: 0 <= j < k && j < own ==> !OnFace(classes[j])
    {
      if OnFace(classes[k]) && others[k] < own {
        assert k < own;
        return total;
      }
    }
    assert !Earlier(own, classes);
    var b := BoundsChain(fn, own, others, classes);
    r := if b then total + area else total;
  }

  // ------------------------------------------------------------------ exactly once

  /** The class of solid j for a piece with these memberships on its two sides. */
  function ClassOf(front: bool, back: bool): Class {
    if front && back then Inside else if !front && !back then Outside else if back then Same else Opposite
  }

  /** The classes the sweep of input i's face gives a physical piece: the solid lies behind its own face. */
  function ClassesSeen(front: seq<bool>, back: seq<bool>, i: nat): (r: seq<Class>)
    requires |front| == |back| && i < |front|
    ensures |r| == |front| - 1
  {
    var key := Seen(front, back, i);
    seq(|front| - 1, k requires 0 <= k < |front| - 1 => ClassOf(key.front[k], key.back[k]))
  }

  lemma ClassesAreSides(front: seq<bool>, back: seq<bool>, i: nat)
    requires |front| == |back| && i < |front|
    ensures FrontOf(ClassesSeen(front, back, i)) == Seen(front, back, i).front
    ensures BackOf(ClassesSeen(front, back, i)) == Seen(front, back, i).back
  {
  }

  /** Input i is the first whose membership differs across the piece. */
  predicate First(front: seq<bool>, back: seq<bool>, i: nat) {
    |front| == |back| && i < |front| && front[i] != back[i] && forall j :: 0 <= j < i ==> front[j] == back[j]
  }

  lemma EarlierSeen(front: seq<bool>, back: seq<bool>, i: nat)
    requires |front| == |back| && i < |front| && front[i] != back[i]
    ensures Earlier(i, ClassesSeen(front, back, i)) <==> !First(front, back, i)
  {
    var classes := ClassesSeen(front, back, i);
    forall j | 0 <= j < i
      ensures OnFace(classes[j]) <==> front[j] != back[j]
    {
    }
  }

  /** An input counts the piece exactly if it is the first to differ and the function differs. */
  lemma CountedSeen(fn: seq<bool> -> bool, front: seq<bool>, back: seq<bool>, i: nat)
    requires |front| == |back| && i < |front| && front[i] != back[i]
    ensures Counted(fn, i, ClassesSeen(front, back, i)) <==> First(front, back, i) && fn(front) != fn(back)
  {
    hide ClassesSeen, First, Earlier;
    EarlierSeen(front, back, i);
    ClassesAreSides(front, back, i);
    InsertRemove(front, i);
    InsertRemove(back, i);
  }

  /** How often the faces of the first m inputs count the piece. */
  ghost function Times(fn: seq<bool> -> bool, front: seq<bool>, back: seq<bool>, m: nat): nat
    requires |front| == |back| && m <= |front|
  {
    if m == 0 then 0
    else
      Times(fn, front, back, m - 1) +
      if front[m - 1] != back[m - 1] && Counted(fn, m - 1, ClassesSeen(front, back, m - 1)) then 1 else 0
  }

  lemma {:induction false} TimesIs(fn: seq<bool> -> bool, front: seq<bool>, back: seq<bool>, m: nat)
    requires |front| == |back| && m <= |front|
    ensures Times(fn, front, back, m)
         == if fn(front) != fn(back) && exists i :: 0 <= i < m && front[i] != back[i] then 1 else 0
  {
    hide Counted, ClassesSeen;
    if m > 0 {
      TimesIs(fn, front, back, m - 1);
      if front[m - 1] != back[m - 1] {
        CountedSeen(fn, front, back, m - 1);
      }
    }
  }

  /** A piece on faces of any number of solids is counted exactly once if the chain's function differs across it,
      and never otherwise, whatever the function. */
  lemma AreaCountedOnce(fn: seq<bool> -> bool, front: seq<bool>, back: seq<bool>)
    requires |front| == |back|
    ensures Times(fn, front, back, |front|) == if fn(front) != fn(back) then 1 else 0
  {
    TimesIs(fn, front, back, |front|);
    if forall i :: 0 <= i < |front| ==> front[i] == back[i] {
      assert front == back;
    }
  }
}

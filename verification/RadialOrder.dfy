/** The fins around an edge: shells must alternate from each fin to the next. */
module RadialOrder {
  import opened Basics

  /** A usable fin: its sense along the edge, and the shells on its face's two sides. */
  datatype RadialFin = RadialFin(forward: bool, front: nat, back: nat)

  datatype Verdict = Fine | EdgeAcrossShells | FreeEdge | SameSenseUses | RadialOrderInconsistent | NonManifoldEdge

  function Ahead(x: RadialFin): nat {
    if x.forward then x.front else x.back
  }

  function Behind(x: RadialFin): nat {
    if x.forward then x.back else x.front
  }

  function Next(n: nat, j: nat): nat
    requires j < n
  {
    if j + 1 == n then 0 else j + 1
  }

  /** What lies ahead of each fin is what lies behind the next. */
  predicate Closes(fins: seq<RadialFin>) {
    forall j :: 0 <= j < |fins| ==> Ahead(fins[j]) == Behind(fins[Next(|fins|, j)])
  }

  /** The faces' shells are one unordered pair. */
  predicate OnePair(fins: seq<RadialFin>) {
    forall j :: 0 <= j < |fins| ==>
      || (fins[j].front == fins[0].front && fins[j].back == fins[0].back)
      || (fins[j].front == fins[0].back && fins[j].back == fins[0].front)
  }

  /** What is wrong around an edge: by its fins' shells where they are not one pair, else by number and senses. */
  function VerdictOf(fins: seq<RadialFin>): Verdict {
    if Closes(fins) then Fine
    else if !OnePair(fins) then EdgeAcrossShells
    else if |fins| == 1 then FreeEdge
    else if |fins| > 2 then NonManifoldEdge
    else if fins[0].forward == fins[1].forward then SameSenseUses
    else RadialOrderInconsistent
  }

  /** The validator's edge accounting. */
  method Account(fins: seq<RadialFin>) returns (v: Verdict)
    requires fins != []
    ensures v == VerdictOf(fins)
  {
    var n := |fins|;
    var all := true;
    for j := 0 to n
      invariant all ==> forall k :: 0 <= k < j ==> Ahead(fins[k]) == Behind(fins[Next(n, k)])
      invariant !all ==> exists k :: 0 <= k < n && Ahead(fins[k]) != Behind(fins[Next(n, k)])
    {
      if Ahead(fins[j]) != Behind(fins[Next(n, j)]) {
        all := false;
      }
    }
    if all {
      return Fine;
    }
    var pairs := set j | 0 <= j < n :: {fins[j].front, fins[j].back};
    PairsCounted(fins, pairs);
    if |pairs| > 1 {
      return EdgeAcrossShells;
    }
    if n == 1 {
      return FreeEdge;
    }
    if n == 2 {
      return if fins[0].forward == fins[1].forward then SameSenseUses else RadialOrderInconsistent;
    }
    return NonManifoldEdge;
  }

  /** `len(pairs) > 1` counts the unordered pairs. */
  lemma PairsCounted(fins: seq<RadialFin>, pairs: set<set<nat>>)
    requires fins != [] && pairs == set j | 0 <= j < |fins| :: {fins[j].front, fins[j].back}
    ensures |pairs| > 1 <==> !OnePair(fins)
  {
    var p := {fins[0].front, fins[0].back};
    assert p in pairs;
    if OnePair(fins) {
      forall q | q in pairs
        ensures q == p
      {
        var j :| 0 <= j < |fins| && q == {fins[j].front, fins[j].back};
      }
      assert pairs == {p};
    } else {
      var j :| 0 <= j < |fins| && !((fins[j].front == fins[0].front && fins[j].back == fins[0].back) ||
                                    (fins[j].front == fins[0].back && fins[j].back == fins[0].front));
      var q := {fins[j].front, fins[j].back};
      if q == p {
        SamePairs(fins[j].front, fins[j].back, fins[0].front, fins[0].back);
      }
      assert q in pairs && q != p;
      assert {p, q} <= pairs;
      Larger({p, q}, pairs);
    }
  }

  lemma SamePairs(a: nat, b: nat, c: nat, d: nat)
    requires {a, b} == {c, d}
    ensures (a == c && b == d) || (a == d && b == c)
  {
    assert a in {c, d} && b in {c, d} && c in {a, b} && d in {a, b};
  }

  /** The fin's sense, read as if its face had the first fin's face's front. */
  predicate Sense(fins: seq<RadialFin>, j: nat)
    requires j < |fins|
  {
    fins[j].forward == (fins[j].front == fins[0].front)
  }

  /** Senses alternate from the first fin to the last. */
  predicate Alternates(fins: seq<RadialFin>) {
    forall j :: 0 <= j < |fins| - 1 ==> Sense(fins, j) != Sense(fins, j + 1)
  }

  lemma {:induction false} AlternatesFrom(fins: seq<RadialFin>, j: nat)
    requires Alternates(fins) && j < |fins|
    ensures Sense(fins, j) == (Sense(fins, 0) == (j % 2 == 0))
  {
    if j > 0 {
      AlternatesFrom(fins, j - 1);
      assert Sense(fins, j - 1) != Sense(fins, j - 1 + 1);
    }
  }

  lemma StepCloses(fins: seq<RadialFin>, j: nat, k: nat)
    requires OnePair(fins) && j < |fins| && k < |fins| && fins[0].front != fins[0].back
    ensures Ahead(fins[j]) == Behind(fins[k]) <==> Sense(fins, j) != Sense(fins, k)
  {
  }

  /** Each fin differs in sense from the next one round. */
  predicate AlternatesRound(fins: seq<RadialFin>) {
    forall j :: 0 <= j < |fins| ==> Sense(fins, j) != Sense(fins, Next(|fins|, j))
  }

  lemma ClosesRound(fins: seq<RadialFin>)
    requires OnePair(fins) && fins != [] && fins[0].front != fins[0].back
    ensures Closes(fins) <==> AlternatesRound(fins)
  {
    forall j | 0 <= j < |fins|
      ensures Ahead(fins[j]) == Behind(fins[Next(|fins|, j)]) <==> Sense(fins, j) != Sense(fins, Next(|fins|, j))
    {
      StepCloses(fins, j, Next(|fins|, j));
    }
    hide Sense, OnePair, Ahead, Behind, Next;
  }

  lemma RoundIsEven(fins: seq<RadialFin>)
    requires fins != []
    ensures AlternatesRound(fins) <==> |fins| % 2 == 0 && Alternates(fins)
  {
    var n := |fins|;
    hide Sense;
    if AlternatesRound(fins) {
      forall j | 0 <= j < n - 1
        ensures Sense(fins, j) != Sense(fins, j + 1)
      {
        assert Next(n, j) == j + 1;
      }
      AlternatesFrom(fins, n - 1);
      assert Next(n, n - 1) == 0;
    }
    if n % 2 == 0 && Alternates(fins) {
      AlternatesFrom(fins, n - 1);
      forall j | 0 <= j < n
        ensures Sense(fins, j) != Sense(fins, Next(n, j))
      {
        if j < n - 1 {
          assert Sense(fins, j) != Sense(fins, j + 1);
        }
      }
    }
  }

  /** With one pair of different shells, the check passes exactly for an even number of fins of alternating
      senses, whatever their number. */
  lemma PassesIffAlternating(fins: seq<RadialFin>)
    requires fins != [] && OnePair(fins) && fins[0].front != fins[0].back
    ensures Closes(fins) <==> |fins| % 2 == 0 && Alternates(fins)
  {
    hide *;
    ClosesRound(fins);
    RoundIsEven(fins);
  }

  /** Between two sides of one shell the check always passes. */
  lemma SameShellPasses(fins: seq<RadialFin>)
    requires fins != [] && OnePair(fins) && fins[0].front == fins[0].back
    ensures Closes(fins)
  {
  }

  /** Two fins of opposite senses are inconsistent exactly where the two faces turn opposite sides to the pair. */
  lemma InconsistentIff(fins: seq<RadialFin>)
    requires |fins| == 2 && OnePair(fins) && fins[0].forward != fins[1].forward
    ensures !Closes(fins) <==>
      fins[0].front == fins[1].back && fins[0].back == fins[1].front && fins[0].front != fins[0].back
  {
    assert Next(2, 0) == 1 && Next(2, 1) == 0;
  }

  /** The unordered pairs of shells are all one. */
  ghost predicate SamePair(fins: seq<RadialFin>) {
    forall j, k :: 0 <= j < |fins| && 0 <= k < |fins| ==>
      {fins[j].front, fins[j].back} == {fins[k].front, fins[k].back}
  }

  lemma OnePairIs(fins: seq<RadialFin>)
    requires fins != []
    ensures OnePair(fins) <==> SamePair(fins)
  {
    if SamePair(fins) {
      forall j | 0 <= j < |fins|
        ensures || (fins[j].front == fins[0].front && fins[j].back == fins[0].back)
                || (fins[j].front == fins[0].back && fins[j].back == fins[0].front)
      {
        SamePairs(fins[j].front, fins[j].back, fins[0].front, fins[0].back);
      }
    }
  }

  /** One or two fins. */
  lemma FewFins(fins: seq<RadialFin>)
    requires 1 <= |fins| <= 2
    ensures |fins| == 1 ==> OnePair(fins) && (Closes(fins) <==> fins[0].front == fins[0].back)
    ensures |fins| == 2 && OnePair(fins) ==>
      (!Closes(fins) <==> fins[0].front != fins[0].back &&
                          (fins[1] == fins[0] || fins[1] == RadialFin(!fins[0].forward, fins[0].back, fins[0].front)))
    ensures |fins| == 2 && fins[0].front != fins[0].back ==>
      (fins[1] == fins[0] || fins[1] == RadialFin(!fins[0].forward, fins[0].back, fins[0].front) ==> OnePair(fins))
  {
    assert |fins| == 1 ==> Next(1, 0) == 0;
    assert |fins| == 2 ==> Next(2, 0) == 1 && Next(2, 1) == 0;
  }

  /** Which failing fins get which verdict. Where the pairs differ the shells are crossed; with one pair, a failing
      edge has two different shells and is told by the number of its fins and, of two, by their faces and senses. */
  lemma Verdicts(fins: seq<RadialFin>)
    requires fins != []
    ensures var v, a, b := VerdictOf(fins), fins[0].front, fins[0].back;
      && (v == EdgeAcrossShells <==>
        !SamePair(fins) && !forall j :: 0 <= j < |fins| ==> Ahead(fins[j]) == Behind(fins[Next(|fins|, j)]))
      && (v == FreeEdge <==> |fins| == 1 && a != b)
      && (v == SameSenseUses <==> |fins| == 2 && a != b && fins[1] == fins[0])
      && (v == RadialOrderInconsistent <==> |fins| == 2 && a != b && fins[1] == RadialFin(!fins[0].forward, b, a))
      && (v == NonManifoldEdge <==> |fins| > 2 && SamePair(fins) && a != b && !(|fins| % 2 == 0 && Alternates(fins)))
  {
    OnePairIs(fins);
    if |fins| <= 2 {
      FewFins(fins);
    }
    if OnePair(fins) {
      if fins[0].front == fins[0].back {
        SameShellPasses(fins);
      } else {
        PassesIffAlternating(fins);
      }
    }
    hide OnePair, SamePair;
  }

  function Turned(x: RadialFin): RadialFin {
    x.(forward := !x.forward)
  }

  /** One fin of a closed order turned round: it stays closed exactly if its face has one shell on both sides, and the
      verdict else. */
  lemma TurnedVerdict(fins: seq<RadialFin>, p: nat)
    requires Closes(fins) && p < |fins|
    ensures var g := fins[p := Turned(fins[p])];
      VerdictOf(g) ==
        if fins[p].front == fins[p].back then Fine
        else if !SamePair(fins) then EdgeAcrossShells
        else if |fins| > 2 then NonManifoldEdge
        else if fins[0].front == fins[|fins| - 1].front then SameSenseUses
        else RadialOrderInconsistent
  {
    var g := fins[p := Turned(fins[p])];
    TurnedCloses(fins, p);
    OnePairIs(fins);
    OnePairTurned(fins, p);
    if fins[p].front != fins[p].back && OnePair(fins) {
      TurnedCount(fins, p);
    }
    hide OnePair, SamePair, Closes;
  }

  lemma TurnedCloses(fins: seq<RadialFin>, p: nat)
    requires Closes(fins) && p < |fins|
    ensures Closes(fins[p := Turned(fins[p])]) <==> fins[p].front == fins[p].back
  {
    var g := fins[p := Turned(fins[p])];
    if fins[p].front == fins[p].back {
      forall j | 0 <= j < |fins|
        ensures Ahead(g[j]) == Ahead(fins[j]) && Behind(g[j]) == Behind(fins[j])
      {
      }
      assert forall j :: 0 <= j < |fins| ==> Ahead(fins[j]) == Behind(fins[Next(|fins|, j)]);
    } else {
      assert Ahead(fins[p]) == Behind(fins[Next(|fins|, p)]);
      assert Ahead(g[p]) != Behind(g[Next(|fins|, p)]);
    }
  }

  lemma OnePairTurned(fins: seq<RadialFin>, p: nat)
    requires p < |fins|
    ensures OnePair(fins[p := Turned(fins[p])]) <==> OnePair(fins)
  {
    var g := fins[p := Turned(fins[p])];
    assert forall j :: 0 <= j < |fins| ==> g[j].front == fins[j].front && g[j].back == fins[j].back;
  }

  lemma TurnedCount(fins: seq<RadialFin>, p: nat)
    requires Closes(fins) && OnePair(fins) && p < |fins| && fins[p].front != fins[p].back
    ensures |fins| >= 2
    ensures |fins| == 2 ==> var g := fins[p := Turned(fins[p])];
      (g[0].forward == g[1].forward <==> fins[0].front == fins[1].front)
  {
    assert |fins| == 2 ==> Next(2, 0) == 1 && Next(2, 1) == 0;
    assert Ahead(fins[p]) == Behind(fins[Next(|fins|, p)]);
  }
}

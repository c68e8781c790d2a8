/** The shells of the cells of sheets, wires and acorns: one shell in one void region, the sides of a sheet's faces
    listed once each. */
module SheetCells {
  import opened Basics
  import opened SeamRuns
  import opened CellModel
  import opened CellConversion
  import opened CellChecks
  import opened FaultsInFaces

  lemma Counted(s: seq<(nat, Side)>, y: (nat, Side), z: (nat, Side), x: (nat, Side))
    ensures multiset(s + [y, z])[x] == multiset(s)[x] + (if x == y then 1 else 0) + if x == z then 1 else 0
  {
    assert multiset(s + [y, z]) == multiset(s) + multiset([y]) + multiset([z]) by {
      assert s + [y, z] == s + [y] + [z];
    }
  }

  lemma EitherSide(k: nat, x: (nat, Side))
    ensures (if x == (k, Front) then 1 else 0) + (if x == (k, Back) then 1 else 0) == if x.0 == k then 1 else 0
  {
    match x.1
    case Front =>
    case Back =>
  }

  lemma SheetUnfold(n: nat)
    ensures SheetSides(n) == if n == 0 then [] else SheetSides(n - 1) + [(n - 1, Front), (n - 1, Back)]
  {
  }

  lemma {:induction false} SheetSidesCounted(n: nat, x: (nat, Side))
    ensures multiset(SheetSides(n))[x] == if x.0 < n then 1 else 0
  {
    hide *;
    SheetUnfold(n);
    if n > 0 {
      SheetSidesCounted(n - 1, x);
      Counted(SheetSides(n - 1), (n - 1, Front), (n - 1, Back), x);
      EitherSide(n - 1, x);
    }
  }

  lemma OneListing(s: Shell, x: (nat, Side))
    requires multiset(s.sides)[x] == 1
    ensures Listing([s], x) == [0]
  {
    hide Listing;
    var l := Listing([s], x);
    forall t: nat
      ensures multiset(l)[t] == multiset{0 as nat}[t]
    {
      ListingCounted([s], x, t);
    }
    assert multiset(l) == multiset{0 as nat};
    assert |l| == |multiset(l)| == 1;
    assert l == [l[0]] && l[0] in multiset(l);
  }

  /** Both sides of every face of a sheet's cell are listed once, by the one shell they name, and so no side is
      reported. */
  lemma SheetListed(m: Seamed, plan: Plan, f: nat)
    requires PlanFits(m, plan) && m.kind == Sheet && f < |CellOf(m, plan).faces|
    ensures var c := CellOf(m, plan);
      && Listing(c.shells, (f, Front)) == [0] && Listing(c.shells, (f, Back)) == [0]
      && c.faces[f].front == 0 && c.faces[f].back == 0
      && forall x :: !SideIssue(c, x, f)
  {
    hide Linked, WithFaces, Frame, Listing;
    var c := CellOf(m, plan);
    SheetSidesCounted(|c.faces|, (f, Front));
    SheetSidesCounted(|c.faces|, (f, Back));
    OneListing(c.shells[0], (f, Front));
    OneListing(c.shells[0], (f, Back));
  }

  /** Of the shells and the region nothing is reported either, except a shell with nothing in it. */
  lemma OneShellIssues(m: Seamed, plan: Plan, x: Issue)
    requires PlanFits(m, plan) && (m.kind == Sheet || m.kind == Wire || m.kind == Acorn)
    ensures forall s :: 0 <= s < |CellOf(m, plan).shells| ==>
      CellOf(m, plan).shells[s].region < |CellOf(m, plan).regions|
    ensures ShellIssue(CellOf(m, plan), x) <==>
      x == EmptyShell(0) && m.kind != Acorn && (if m.kind == Wire then m.wire == [] else CellOf(m, plan).faces == [])
  {
    hide *;
    var c := CellOf(m, plan);
    OneShellOf(m, plan);
    SheetUnfold(0);
    BareIs(c.shells[0]);
    if m.kind == Sheet && c.faces != [] {
      SheetSidesCounted(|c.faces|, (0, Front));
      assert multiset(c.shells[0].sides)[(0, Front)] == 1;
      assert c.shells[0].sides != [];
    }
    IssuesOfOne(c, x);
  }

  lemma BareIs(s: Shell)
    ensures Bare(s) <==> s.sides == [] && s.wireEdges == [] && s.acorns == []
  {
  }

  /** The one shell and the one region. */
  lemma OneShellOf(m: Seamed, plan: Plan)
    requires PlanFits(m, plan) && (m.kind == Sheet || m.kind == Wire || m.kind == Acorn)
    ensures var c := CellOf(m, plan);
      && |c.shells| == 1 && c.shells[0].region == 0 && c.regions == [Region(Void, [0])]
      && (if m.kind == Sheet then c.shells[0].sides == SheetSides(|c.faces|) else c.shells[0].sides == [])
      && (c.shells[0].wireEdges == [] <==> m.kind != Wire || m.wire == [])
      && c.shells[0].acorns == if m.kind == Acorn then [0] else []
  {
    hide Linked, WithFaces, Frame, SheetSides;
  }

  lemma IssuesOfOne(c: CellData, x: Issue)
    requires |c.shells| == 1 && c.shells[0].region == 0 && c.regions == [Region(Void, [0])]
    ensures ShellIssue(c, x) <==> x == EmptyShell(0) && Bare(c.shells[0])
  {
    hide Bare;
    assert c.regions[0].shells == [0];
  }
}

/** Area, volume and first moments of the set a tree describes, summed over the classes of all faces' pieces. */
module ChainMeasures {
  import opened Reals
  import opened ExpressionTrees

  /** Area, volume and the three moments of pieces of a face, by its own outward normal. */
  datatype Vec = Vec(area: real, volume: real, x: real, y: real, z: real)

  const ZERO := Vec(0.0, 0.0, 0.0, 0.0, 0.0)

  function Plus(u: Vec, v: Vec): Vec {
    Vec(u.area + v.area, u.volume + v.volume, u.x + v.x, u.y + v.y, u.z + v.z)
  }

  /** The pieces counted with sign c: the area once, everything oriented c times. */
  function Signed(c: int, v: Vec): Vec {
    if c == 0 then ZERO else Turned(c, v)
  }

  function Turned(c: int, v: Vec): Vec {
    Vec(v.area, c as real * v.volume, c as real * v.x, c as real * v.y, c as real * v.z)
  }

  lemma PlusLaws(u: Vec, v: Vec, w: Vec)
    ensures Plus(Plus(u, v), w) == Plus(u, Plus(v, w)) && Plus(u, v) == Plus(v, u)
    ensures Plus(u, ZERO) == u && Plus(ZERO, u) == u
  {
  }

  lemma SignedPlus(c: int, u: Vec, v: Vec)
    ensures Signed(c, Plus(u, v)) == Plus(Signed(c, u), Signed(c, v))
  {
    var k := c as real;
    assert k * (u.volume + v.volume) == k * u.volume + k * v.volume;
    assert k * (u.x + v.x) == k * u.x + k * v.x;
    assert k * (u.y + v.y) == k * u.y + k * v.y;
    assert k * (u.z + v.z) == k * u.z + k * v.z;
  }

  lemma TurnedTwice(c: int, s: int, v: Vec)
    requires s == 1 || s == -1
    ensures Signed(c, Turned(s, v)) == Signed(s * c, v)
  {
  }

  datatype Entry = Entry(key: Key, vec: Vec)

  predicate GoodEntries(n: nat, entries: seq<Entry>) {
    forall k :: 0 <= k < |entries| ==> KeyOf(entries[k].key, n)
  }

  /** What entries of a face of input i add to the measures of the tree's set. */
  ghost function Total(n: nat, i: nat, entries: seq<Entry>, e: Expr): Vec
    requires i < n && Over(e, n) && GoodEntries(n, entries)
  {
    if entries == [] then ZERO
    else
      var k := |entries| - 1;
      Plus(Total(n, i, entries[..k], e), Signed(Share(n, i, entries[k].key, e), entries[k].vec))
  }

  // ------------------------------------------------------------------ a face's dictionary

  ghost predicate Distinct(entries: seq<Entry>) {
    forall j, k :: 0 <= j < k < |entries| ==> entries[j].key != entries[k].key
  }

  lemma TotalAppend(n: nat, i: nat, entries: seq<Entry>, x: Entry, e: Expr)
    requires i < n && Over(e, n) && GoodEntries(n, entries) && KeyOf(x.key, n)
    ensures Total(n, i, entries + [x], e) == Plus(Total(n, i, entries, e), Signed(Share(n, i, x.key, e), x.vec))
  {
    assert (entries + [x])[..|entries|] == entries;
  }

  lemma {:induction false} TotalAdd(n: nat, i: nat, entries: seq<Entry>, k: nat, v: Vec, e: Expr)
    requires i < n && Over(e, n) && GoodEntries(n, entries) && k < |entries|
    ensures var x := entries[k];
      Total(n, i, entries[k := Entry(x.key, Plus(x.vec, v))], e)
        == Plus(Total(n, i, entries, e), Signed(Share(n, i, x.key, e), v))
  {
    hide Plus, Signed, Share;
    var x, last := entries[k], |entries| - 1;
    var c := Share(n, i, x.key, e);
    var more := entries[k := Entry(x.key, Plus(x.vec, v))];
    var before := Total(n, i, entries[..last], e);
    if k == last {
      assert more[..last] == entries[..last];
      SignedPlus(c, x.vec, v);
      PlusLaws(before, Signed(c, x.vec), Signed(c, v));
    } else {
      assert more[..last] == entries[..last][k := Entry(x.key, Plus(x.vec, v))];
      TotalAdd(n, i, entries[..last], k, v, e);
      var y := Signed(Share(n, i, entries[last].key, e), entries[last].vec);
      PlusLaws(before, Signed(c, v), y);
      PlusLaws(before, y, Signed(c, v));
      PlusLaws(y, Signed(c, v), ZERO);
    }
  }

  /** The entries of one dictionary say the same as a list of records, whatever the tree. */
  ghost predicate SameTotals(entries: seq<Entry>, records: seq<Entry>, n: nat) {
    && GoodEntries(n, entries) && GoodEntries(n, records)
    && forall i: nat, e: Expr :: i < n && Over(e, n) ==> Total(n, i, entries, e) == Total(n, i, records, e)
  }

  lemma SameTotalsStep(entries: seq<Entry>, records: seq<Entry>, n: nat, x: Entry, k: nat)
    requires SameTotals(entries, records, n) && KeyOf(x.key, n) && k <= |entries|
    requires k < |entries| ==> entries[k].key == x.key
    ensures SameTotals(if k < |entries| then entries[k := Entry(x.key, Plus(entries[k].vec, x.vec))] else entries + [x],
                       records + [x], n)
  {
    hide Plus, Total, Signed, Share;
    var more := if k < |entries| then entries[k := Entry(x.key, Plus(entries[k].vec, x.vec))] else entries + [x];
    forall i: nat, e: Expr | i < n && Over(e, n)
      ensures Total(n, i, more, e) == Total(n, i, records + [x], e)
    {
      TotalAppend(n, i, records, x, e);
      if k < |entries| {
        TotalAdd(n, i, entries, k, x.vec, e);
      } else {
        TotalAppend(n, i, entries, x, e);
      }
    }
  }

  method Find(entries: seq<Entry>, key: Key) returns (k: nat)
    ensures k <= |entries| && (k < |entries| ==> entries[k].key == key)
    ensures forall j :: 0 <= j < k ==> entries[j].key != key
  {
    k := 0;
    while k < |entries| && entries[k].key != key
      invariant k <= |entries| && forall j :: 0 <= j < k ==> entries[j].key != key
    {
      k := k + 1;
    }
  }

  /** The dictionary of `Sweep.measure`: pieces' measures added up class by class. */
  method Collect(records: seq<Entry>, n: nat) returns (tot: seq<Entry>)
    requires GoodEntries(n, records)
    ensures Distinct(tot) && SameTotals(tot, records, n)
  {
    hide SameTotals, Plus;
    tot := [];
    assert SameTotals([], [], n) by { NoTotals(n); }
    for j := 0 to |records|
      invariant Distinct(tot) && SameTotals(tot, records[..j], n)
    {
      var x := records[j];
      var k := Find(tot, x.key);
      SameTotalsStep(tot, records[..j], n, x, k);
      assert records[..j + 1] == records[..j] + [x];
      if k < |tot| {
        tot := tot[k := Entry(x.key, Plus(tot[k].vec, x.vec))];
      } else {
        tot := tot + [x];
      }
    }
    assert records[..|records|] == records;
  }

  lemma NoTotals(n: nat)
    ensures SameTotals([], [], n)
  {
  }

  // ------------------------------------------------------------------ all faces

  datatype Face = Face(input: nat, result: seq<Entry>)

  predicate GoodFaces(n: nat, faces: seq<Face>) {
    forall f :: 0 <= f < |faces| ==> faces[f].input < n && GoodEntries(n, faces[f].result)
  }

  ghost function AllFaces(n: nat, faces: seq<Face>, e: Expr): Vec
    requires GoodFaces(n, faces) && Over(e, n)
  {
    if faces == [] then ZERO
    else
      var f := |faces| - 1;
      Plus(AllFaces(n, faces[..f], e), Total(n, faces[f].input, faces[f].result, e))
  }

  method AddEntry(tot: Vec, c: int, v: Vec) returns (r: Vec)
    ensures r == Plus(tot, Signed(c, v))
  {
    PlusLaws(tot, ZERO, ZERO);
    if c == 0 {
      return tot;
    }
    var s := c as real;
    r := Vec(tot.area + v.area, tot.volume + s * v.volume, tot.x + s * v.x, tot.y + s * v.y, tot.z + s * v.z);
  }

  /** One face's part of the loop of `Chain.measures`. */
  method AddFace(n: nat, face: Face, e: Expr, used: set<nat>, before: Vec) returns (tot: Vec)
    requires face.input < n && GoodEntries(n, face.result) && Over(e, n) && used == Leaves(e)
    ensures tot == Plus(before, Total(n, face.input, face.result, e))
  {
    hide Share, Over, Leaves, Plus, Signed, Total;
    tot := before;
    TotalNone(n, face.input, e);
    PlusLaws(before, ZERO, ZERO);
    assert face.result[..0] == [];
    for k := 0 to |face.result|
      invariant tot == Plus(before, Total(n, face.input, face.result[..k], e))
    {
      var x := face.result[k];
      var c := Contribution(n, face.input, x.key, e, used);
      assert face.result[..k + 1] == face.result[..k] + [x];
      TotalAppend(n, face.input, face.result[..k], x, e);
      PlusLaws(before, Total(n, face.input, face.result[..k], e), Signed(c, x.vec));
      tot := AddEntry(tot, c, x.vec);
    }
    assert face.result[..|face.result|] == face.result;
  }

  lemma TotalNone(n: nat, i: nat, e: Expr)
    requires i < n && Over(e, n)
    ensures Total(n, i, [], e) == ZERO
  {
  }

  /** `Chain.measures`: (volume, world moments, area). */
  method Measures(n: nat, faces: seq<Face>, e: Expr, c0: (real, real, real))
    returns (volume: real, moments: (real, real, real), area: real)
    requires GoodFaces(n, faces) && Over(e, n)
    ensures var t := AllFaces(n, faces, e);
      && volume == t.volume && area == t.area
      && moments == (Times(c0.0, t.volume) + t.x, Times(c0.1, t.volume) + t.y, Times(c0.2, t.volume) + t.z)
  {
    hide Plus, Total;
    var used := Leaves(e);
    var tot := ZERO;
    for f := 0 to |faces|
      invariant tot == AllFaces(n, faces[..f], e)
    {
      assert faces[..f + 1][..f] == faces[..f];
      tot := AddFace(n, faces[f], e, used, tot);
    }
    assert faces[..|faces|] == faces;
    var v := tot.volume;
    return v, (Times(c0.0, v) + tot.x, Times(c0.1, v) + tot.y, Times(c0.2, v) + tot.z), tot.area;
  }

  // ------------------------------------------------------------------ sums over a grid

  ghost function Line(t: (nat, nat) -> Vec, f: nat, b: nat): Vec {
    if b == 0 then ZERO else Plus(Line(t, f, b - 1), t(f, b - 1))
  }

  ghost function Column(t: (nat, nat) -> Vec, a: nat, p: nat): Vec {
    if a == 0 then ZERO else Plus(Column(t, a - 1, p), t(a - 1, p))
  }

  ghost function Lines(t: (nat, nat) -> Vec, a: nat, b: nat): Vec {
    if a == 0 then ZERO else Plus(Lines(t, a - 1, b), Line(t, a - 1, b))
  }

  ghost function Columns(t: (nat, nat) -> Vec, a: nat, b: nat): Vec {
    if b == 0 then ZERO else Plus(Columns(t, a, b - 1), Column(t, a, b - 1))
  }

  lemma {:induction false} NoLines(t: (nat, nat) -> Vec, b: nat)
    ensures Columns(t, 0, b) == ZERO
  {
    if b > 0 {
      NoLines(t, b - 1);
    }
  }

  lemma {:induction false} OneMoreLine(t: (nat, nat) -> Vec, a: nat, b: nat)
    ensures Columns(t, a + 1, b) == Plus(Columns(t, a, b), Line(t, a, b))
  {
    if b > 0 {
      OneMoreLine(t, a, b - 1);
    }
  }

  /** Summing the grid by rows or by columns. */
  lemma {:induction false} LinesAreColumns(t: (nat, nat) -> Vec, a: nat, b: nat)
    ensures Lines(t, a, b) == Columns(t, a, b)
  {
    hide Plus;
    if a == 0 {
      NoLines(t, b);
    } else {
      LinesAreColumns(t, a - 1, b);
      OneMoreLine(t, a - 1, b);
    }
  }

  /** A column with one term that is not zero. */
  lemma {:induction false} OneTerm(t: (nat, nat) -> Vec, a: nat, p: nat, f: nat)
    requires forall g :: 0 <= g < a && g != f ==> t(g, p) == ZERO
    ensures Column(t, a, p) == if f < a then t(f, p) else ZERO
  {
    if a > 0 {
      OneTerm(t, a - 1, p, f);
    }
  }

  // ------------------------------------------------------------------ the boundary as the faces see it

  /** A piece of the union of all faces: the memberships on its two sides and its measures by the normal that
      points to its front. */
  datatype Piece = Piece(front: seq<bool>, back: seq<bool>, vec: Vec)

  /** Every piece on which input i's membership differs lies on one of its faces: inputs[f] is face f's input,
      owner[p][i] the face of input i that piece p lies on. */
  ghost predicate Layout(n: nat, pieces: seq<Piece>, inputs: seq<nat>, owner: seq<seq<nat>>) {
    && |owner| == |pieces|
    && (forall f :: 0 <= f < |inputs| ==> inputs[f] < n)
    && (forall p :: 0 <= p < |pieces| ==> |pieces[p].front| == |pieces[p].back| == |owner[p]| == n)
    && forall p, i :: 0 <= p < |pieces| && 0 <= i < n && pieces[p].front[i] != pieces[p].back[i] ==>
      owner[p][i] < |inputs| && inputs[owner[p][i]] == i
  }

  ghost predicate LiesOn(n: nat, pieces: seq<Piece>, inputs: seq<nat>, owner: seq<seq<nat>>, f: nat, p: nat)
    requires Layout(n, pieces, inputs, owner) && f < |inputs| && p < |pieces|
  {
    pieces[p].front[inputs[f]] != pieces[p].back[inputs[f]] && owner[p][inputs[f]] == f
  }

  /** Piece p as a face of input i records it. */
  ghost function RecordOf(piece: Piece, n: nat, i: nat): (x: Entry)
    requires i < n && |piece.front| == |piece.back| == n
    ensures KeyOf(x.key, n)
  {
    Entry(Seen(piece.front, piece.back, i), Turned(Facing(piece.back, i), piece.vec))
  }

  /** The records of face f among the first m pieces. */
  ghost function Records(n: nat, pieces: seq<Piece>, inputs: seq<nat>, owner: seq<seq<nat>>, f: nat,
                         m: nat): (r: seq<Entry>)
    requires Layout(n, pieces, inputs, owner) && f < |inputs| && m <= |pieces|
    ensures GoodEntries(n, r)
  {
    if m == 0 then []
    else
      Records(n, pieces, inputs, owner, f, m - 1) +
      if LiesOn(n, pieces, inputs, owner, f, m - 1) then [RecordOf(pieces[m - 1], n, inputs[f])] else []
  }

  /** What piece p is worth to the tree's set: its area, and its oriented measures by the outward normal, if the
      set's membership differs across it. */
  ghost function Worth(piece: Piece, e: Expr): Vec
    requires |piece.front| == |piece.back| && Over(e, |piece.front|)
  {
    Signed(Step(Evaluate(e, piece.front), Evaluate(e, piece.back)), piece.vec)
  }

  ghost function Boundary(n: nat, pieces: seq<Piece>, e: Expr, m: nat): Vec
    requires Over(e, n) && m <= |pieces| && forall p :: 0 <= p < |pieces| ==> |pieces[p].front| == |pieces[p].back| == n
  {
    if m == 0 then ZERO else Plus(Boundary(n, pieces, e, m - 1), Worth(pieces[m - 1], e))
  }

  ghost function Grid(n: nat, pieces: seq<Piece>, inputs: seq<nat>, owner: seq<seq<nat>>, e: Expr): (nat, nat) -> Vec
    requires Layout(n, pieces, inputs, owner) && Over(e, n)
  {
    (f: nat, p: nat) => if f < |inputs| && p < |pieces| && LiesOn(n, pieces, inputs, owner, f, p)
              then Seen1(pieces[p], n, inputs[f], e) else ZERO
  }

  /** What input i's face counts of a piece. */
  ghost function Seen1(piece: Piece, n: nat, i: nat, e: Expr): Vec
    requires i < n && |piece.front| == |piece.back| == n && Over(e, n)
  {
    var x := RecordOf(piece, n, i);
    Signed(Share(n, i, x.key, e), x.vec)
  }

  lemma Seen1Is(piece: Piece, n: nat, i: nat, e: Expr)
    requires i < n && |piece.front| == |piece.back| == n && Over(e, n) && piece.front[i] != piece.back[i]
    ensures Seen1(piece, n, i, e) == if Counts(piece.front, piece.back, e, i) then Worth(piece, e) else ZERO
  {
    hide Share, Turned, Evaluate, Counts;
    ShareSeen(piece.front, piece.back, e, i);
    var x := RecordOf(piece, n, i);
    TurnedTwice(Share(n, i, x.key, e), Facing(piece.back, i), piece.vec);
  }

  lemma {:induction false} RecordsTotal(n: nat, pieces: seq<Piece>, inputs: seq<nat>, owner: seq<seq<nat>>, e: Expr,
                                        f: nat, m: nat)
    requires Layout(n, pieces, inputs, owner) && Over(e, n) && f < |inputs| && m <= |pieces|
    ensures Total(n, inputs[f], Records(n, pieces, inputs, owner, f, m), e)
         == Line(Grid(n, pieces, inputs, owner, e), f, m)
  {
    hide Plus, Share, Signed, LiesOn, RecordOf;
    if m > 0 {
      RecordsTotal(n, pieces, inputs, owner, e, f, m - 1);
      var r := Records(n, pieces, inputs, owner, f, m - 1);
      if LiesOn(n, pieces, inputs, owner, f, m - 1) {
        TotalAppend(n, inputs[f], r, RecordOf(pieces[m - 1], n, inputs[f]), e);
      } else {
        assert r + [] == r;
        PlusLaws(Total(n, inputs[f], r, e), ZERO, ZERO);
      }
    }
  }

  lemma GridAt(n: nat, pieces: seq<Piece>, inputs: seq<nat>, owner: seq<seq<nat>>, e: Expr, f: nat, p: nat)
    requires Layout(n, pieces, inputs, owner) && Over(e, n) && f < |inputs| && p < |pieces|
    ensures Grid(n, pieces, inputs, owner, e)(f, p)
         == if LiesOn(n, pieces, inputs, owner, f, p) && Counts(pieces[p].front, pieces[p].back, e, inputs[f])
            then Worth(pieces[p], e) else ZERO
  {
    hide Seen1, Worth, Counts;
    if LiesOn(n, pieces, inputs, owner, f, p) {
      Seen1Is(pieces[p], n, inputs[f], e);
    }
  }

  lemma WorthZero(piece: Piece, e: Expr)
    requires |piece.front| == |piece.back| && Over(e, |piece.front|)
    requires Evaluate(e, piece.front) == Evaluate(e, piece.back)
    ensures Worth(piece, e) == ZERO
  {
  }

  /** Of all faces a piece lies on, one counts it, if any should. */
  lemma PieceColumn(n: nat, pieces: seq<Piece>, inputs: seq<nat>, owner: seq<seq<nat>>, e: Expr, p: nat)
    requires Layout(n, pieces, inputs, owner) && Over(e, n) && p < |pieces|
    ensures Column(Grid(n, pieces, inputs, owner, e), |inputs|, p) == Worth(pieces[p], e)
  {
    hide Worth, Counts, Grid, Evaluate, Column;
    var t, piece := Grid(n, pieces, inputs, owner, e), pieces[p];
    forall f: nat | f < |inputs|
      ensures t(f, p) == if LiesOn(n, pieces, inputs, owner, f, p) && Counts(piece.front, piece.back, e, inputs[f])
                         then Worth(piece, e) else ZERO
    {
      GridAt(n, pieces, inputs, owner, e, f, p);
    }
    OneCounts(piece.front, piece.back, e);
    if i: nat :| Counts(piece.front, piece.back, e, i) {
      CountsDiffers(piece.front, piece.back, e, i);
      OneTerm(t, |inputs|, p, owner[p][i]);
    } else {
      WorthZero(piece, e);
      OneTerm(t, |inputs|, p, |inputs|);
    }
  }

  lemma CountsDiffers(front: seq<bool>, back: seq<bool>, e: Expr, i: nat)
    requires Counts(front, back, e, i)
    ensures i < |front| && front[i] != back[i]
  {
  }

  lemma {:induction false} ColumnsBoundary(n: nat, pieces: seq<Piece>, inputs: seq<nat>, owner: seq<seq<nat>>, e: Expr,
                                           m: nat)
    requires Layout(n, pieces, inputs, owner) && Over(e, n) && m <= |pieces|
    ensures Columns(Grid(n, pieces, inputs, owner, e), |inputs|, m) == Boundary(n, pieces, e, m)
  {
    hide Worth, Grid, Column, Plus;
    if m > 0 {
      ColumnsBoundary(n, pieces, inputs, owner, e, m - 1);
      PieceColumn(n, pieces, inputs, owner, e, m - 1);
    }
  }

  /** The faces with their records collected class by class. */
  ghost predicate Measured(n: nat, pieces: seq<Piece>, inputs: seq<nat>, owner: seq<seq<nat>>, faces: seq<Face>)
    requires Layout(n, pieces, inputs, owner)
  {
    && |faces| == |inputs|
    && forall f :: 0 <= f < |faces| ==>
      faces[f].input == inputs[f] && SameTotals(faces[f].result, Records(n, pieces, inputs, owner, f, |pieces|), n)
  }

  lemma {:induction false} FacesLines(n: nat, pieces: seq<Piece>, inputs: seq<nat>, owner: seq<seq<nat>>, e: Expr,
                                      faces: seq<Face>, m: nat)
    requires Layout(n, pieces, inputs, owner) && Over(e, n) && Measured(n, pieces, inputs, owner, faces) && m <= |faces|
    ensures GoodFaces(n, faces[..m])
    ensures AllFaces(n, faces[..m], e) == Lines(Grid(n, pieces, inputs, owner, e), m, |pieces|)
  {
    hide Worth, Grid, Line, Plus, Records, Total;
    if m > 0 {
      FacesLines(n, pieces, inputs, owner, e, faces, m - 1);
      assert faces[..m][..m - 1] == faces[..m - 1];
      RecordsTotal(n, pieces, inputs, owner, e, m - 1, |pieces|);
    }
  }

  /** Every physical piece is counted exactly once, on whichever faces of however many inputs it lies: the sums
      over all faces are the area and the outward-oriented measures of the boundary of the tree's set. */
  lemma MeasuresAreBoundary(n: nat, pieces: seq<Piece>, inputs: seq<nat>, owner: seq<seq<nat>>, e: Expr,
                            faces: seq<Face>)
    requires Layout(n, pieces, inputs, owner) && Over(e, n) && Measured(n, pieces, inputs, owner, faces)
    ensures GoodFaces(n, faces) && AllFaces(n, faces, e) == Boundary(n, pieces, e, |pieces|)
  {
    hide Grid, Boundary, Lines, Columns, Records, Total, AllFaces;
    assert faces[..|faces|] == faces;
    FacesLines(n, pieces, inputs, owner, e, faces, |faces|);
    LinesAreColumns(Grid(n, pieces, inputs, owner, e), |faces|, |pieces|);
    ColumnsBoundary(n, pieces, inputs, owner, e, |pieces|);
  }
  // ------------------------------------------------------------------ a valuation

  /** Each oriented measure of the one is the sum of the others', less the last. */
  ghost predicate Balanced(u: Vec, v: Vec, a: Vec, b: Vec) {
    && u.volume + v.volume == a.volume + b.volume && u.x + v.x == a.x + b.x && u.y + v.y == a.y + b.y
    && u.z + v.z == a.z + b.z
  }

  /** How often the set is entered. */
  ghost function Entered(b: bool): real {
    if b then 1.0 else 0.0
  }

  /** u's oriented measures are k times v's. */
  ghost predicate Multiple(u: Vec, k: real, v: Vec) {
    u.volume == k * v.volume && u.x == k * v.x && u.y == k * v.y && u.z == k * v.z
  }

  ghost function Rise(piece: Piece, e: Expr): real
    requires |piece.front| == |piece.back| && Over(e, |piece.front|)
  {
    Entered(Evaluate(e, piece.back)) - Entered(Evaluate(e, piece.front))
  }

  lemma WorthIs(piece: Piece, e: Expr)
    requires |piece.front| == |piece.back| && Over(e, |piece.front|)
    ensures Multiple(Worth(piece, e), Rise(piece, e), piece.vec)
  {
    hide Evaluate;
  }

  lemma StepBalances(a: bool, b: bool)
    ensures Entered(Apply(Fuse, a, b)) + Entered(Apply(Common, a, b)) == Entered(a) + Entered(b)
    ensures Entered(Apply(Cut, a, b)) + Entered(Apply(Common, a, b)) == Entered(a)
  {
  }

  lemma NodeIs(op: Op, a: Expr, b: Expr, mem: seq<bool>)
    requires Over(a, |mem|) && Over(b, |mem|)
    ensures Over(Node(op, a, b), |mem|)
    ensures Evaluate(Node(op, a, b), mem) == Apply(op, Evaluate(a, mem), Evaluate(b, mem))
  {
    hide Apply;
  }

  lemma FactorAdds(h: real, i: real, j: real, k: real, x: real)
    requires h + i == j + k
    ensures h * x + i * x == j * x + k * x
  {
    assert (h + i) * x == (j + k) * x;
  }

  lemma MultiplesBalance(t: Vec, u: Vec, a: Vec, b: Vec, h: real, i: real, j: real, k: real, v: Vec)
    requires Multiple(t, h, v) && Multiple(u, i, v) && Multiple(a, j, v) && Multiple(b, k, v) && h + i == j + k
    ensures Balanced(t, u, a, b)
  {
    FactorAdds(h, i, j, k, v.volume);
    FactorAdds(h, i, j, k, v.x);
    FactorAdds(h, i, j, k, v.y);
    FactorAdds(h, i, j, k, v.z);
  }

  lemma RiseBalances(piece: Piece, a: Expr, b: Expr)
    requires |piece.front| == |piece.back| && Over(a, |piece.front|) && Over(b, |piece.front|)
    ensures Over(Node(Fuse, a, b), |piece.front|) && Over(Node(Common, a, b), |piece.front|) &&
      Over(Node(Cut, a, b), |piece.front|)
    ensures Rise(piece, Node(Fuse, a, b)) + Rise(piece, Node(Common, a, b)) == Rise(piece, a) + Rise(piece, b)
    ensures Rise(piece, Node(Cut, a, b)) + Rise(piece, Node(Common, a, b)) == Rise(piece, a)
  {
    hide Evaluate, Apply, Entered, Over;
    NodeIs(Fuse, a, b, piece.front);
    NodeIs(Fuse, a, b, piece.back);
    NodeIs(Common, a, b, piece.front);
    NodeIs(Common, a, b, piece.back);
    NodeIs(Cut, a, b, piece.front);
    NodeIs(Cut, a, b, piece.back);
    StepBalances(Evaluate(a, piece.front), Evaluate(b, piece.front));
    StepBalances(Evaluate(a, piece.back), Evaluate(b, piece.back));
  }

  lemma WorthBalances(piece: Piece, a: Expr, b: Expr)
    requires |piece.front| == |piece.back| && Over(a, |piece.front|) && Over(b, |piece.front|)
    ensures Over(Node(Fuse, a, b), |piece.front|) && Over(Node(Common, a, b), |piece.front|) &&
      Over(Node(Cut, a, b), |piece.front|)
    ensures var common := Worth(piece, Node(Common, a, b));
      && Balanced(Worth(piece, Node(Fuse, a, b)), common, Worth(piece, a), Worth(piece, b))
      && Balanced(Worth(piece, Node(Cut, a, b)), common, Worth(piece, a), ZERO)
  {
    RiseBalances(piece, a, b);
    assert Multiple(ZERO, 0.0, piece.vec);
    hide *;
    WorthIs(piece, a);
    WorthIs(piece, b);
    WorthIs(piece, Node(Fuse, a, b));
    WorthIs(piece, Node(Common, a, b));
    WorthIs(piece, Node(Cut, a, b));
    MultiplesBalance(Worth(piece, Node(Fuse, a, b)), Worth(piece, Node(Common, a, b)), Worth(piece, a),
                     Worth(piece, b), Rise(piece, Node(Fuse, a, b)), Rise(piece, Node(Common, a, b)), Rise(piece, a),
                     Rise(piece, b), piece.vec);
    MultiplesBalance(Worth(piece, Node(Cut, a, b)), Worth(piece, Node(Common, a, b)), Worth(piece, a), ZERO,
                     Rise(piece, Node(Cut, a, b)), Rise(piece, Node(Common, a, b)), Rise(piece, a), 0.0, piece.vec);
  }

  lemma {:induction false} BoundaryBalances(n: nat, pieces: seq<Piece>, a: Expr, b: Expr, m: nat)
    requires Over(a, n) && Over(b, n) && m <= |pieces|
    requires forall p :: 0 <= p < |pieces| ==> |pieces[p].front| == |pieces[p].back| == n
    ensures Over(Node(Fuse, a, b), n) && Over(Node(Common, a, b), n) && Over(Node(Cut, a, b), n)
    ensures var common := Boundary(n, pieces, Node(Common, a, b), m);
      && Balanced(Boundary(n, pieces, Node(Fuse, a, b), m), common, Boundary(n, pieces, a, m),
                  Boundary(n, pieces, b, m))
      && Balanced(Boundary(n, pieces, Node(Cut, a, b), m), common, Boundary(n, pieces, a, m), ZERO)
    decreases m
  {
    hide Worth;
    if m > 0 {
      BoundaryBalances(n, pieces, a, b, m - 1);
      WorthBalances(pieces[m - 1], a, b);
    }
  }

  /** Volume and moments obey inclusion and exclusion: a union and the part in common have together what the two sets
      have, a difference and the part in common what the first has. A solid less a disjoint one keeps its volume. */
  lemma MeasuresBalance(n: nat, pieces: seq<Piece>, inputs: seq<nat>, owner: seq<seq<nat>>, a: Expr, b: Expr,
                        faces: seq<Face>)
    requires Layout(n, pieces, inputs, owner) && Over(a, n) && Over(b, n)
    requires Measured(n, pieces, inputs, owner, faces)
    ensures GoodFaces(n, faces)
    ensures Over(Node(Fuse, a, b), n) && Over(Node(Common, a, b), n) && Over(Node(Cut, a, b), n)
    ensures var common := AllFaces(n, faces, Node(Common, a, b));
      && Balanced(AllFaces(n, faces, Node(Fuse, a, b)), common, AllFaces(n, faces, a), AllFaces(n, faces, b))
      && Balanced(AllFaces(n, faces, Node(Cut, a, b)), common, AllFaces(n, faces, a), ZERO)
  {
    BoundaryBalances(n, pieces, a, b, |pieces|);
    hide Boundary, AllFaces, Measured, Evaluate, Balanced;
    MeasuresAreBoundary(n, pieces, inputs, owner, a, faces);
    MeasuresAreBoundary(n, pieces, inputs, owner, b, faces);
    MeasuresAreBoundary(n, pieces, inputs, owner, Node(Fuse, a, b), faces);
    MeasuresAreBoundary(n, pieces, inputs, owner, Node(Common, a, b), faces);
    MeasuresAreBoundary(n, pieces, inputs, owner, Node(Cut, a, b), faces);
  }

  /** The pieces seen from their other sides. */
  ghost function Reversed(pieces: seq<Piece>): (r: seq<Piece>)
    ensures |r| == |pieces|
  {
    seq(|pieces|, p requires 0 <= p < |pieces| => Piece(pieces[p].back, pieces[p].front, pieces[p].vec))
  }

  lemma WorthReversed(piece: Piece, e: Expr)
    requires |piece.front| == |piece.back| && Over(e, |piece.front|)
    ensures var b := Worth(piece, e);
      Worth(Piece(piece.back, piece.front, piece.vec), e) == Vec(b.area, -b.volume, -b.x, -b.y, -b.z)
  {
    hide Evaluate;
  }

  /** Seen from the other sides the area is the same and everything oriented is negated. */
  lemma {:induction false} BoundaryReversed(n: nat, pieces: seq<Piece>, e: Expr, m: nat)
    requires Over(e, n) && m <= |pieces|
    requires forall p :: 0 <= p < |pieces| ==> |pieces[p].front| == |pieces[p].back| == n
    ensures var b, r := Boundary(n, pieces, e, m), Boundary(n, Reversed(pieces), e, m);
      r == Vec(b.area, -b.volume, -b.x, -b.y, -b.z)
    decreases m
  {
    hide Evaluate, Worth;
    if m > 0 {
      WorthReversed(pieces[m - 1], e);
      BoundaryReversed(n, pieces, e, m - 1);
    }
  }
}

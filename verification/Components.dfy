/** Solids of a stack of slab regions: interval nodes joined by union-find with path halving, counted by their
    roots. */
module Components {
  import opened ParitySweep

  /** Interval `index` of band `band` of slab `slab`. */
  datatype Node = Node(slab: nat, band: nat, index: nat)

  type Edge = (Node, Node)

  // ------------------------------------------------------------------ connectivity

  ghost predicate Linked(edges: set<Edge>, x: Node, y: Node) {
    x == y || (x, y) in edges || (y, x) in edges
  }

  ghost predicate IsPath(edges: set<Edge>, path: seq<Node>) {
    |path| >= 1 && forall k :: 0 <= k < |path| - 1 ==> Linked(edges, path[k], path[k + 1])
  }

  ghost predicate Between(edges: set<Edge>, path: seq<Node>, x: Node, y: Node) {
    IsPath(edges, path) && path[0] == x && path[|path| - 1] == y
  }

  /** x and y are joined by a path of edges. */
  ghost predicate Connected(edges: set<Edge>, x: Node, y: Node) {
    exists path: seq<Node> :: Between(edges, path, x, y)
  }

  lemma SelfConnected(edges: set<Edge>, x: Node)
    ensures Connected(edges, x, x)
  {
    assert Between(edges, [x], x, x);
  }

  lemma EdgeConnected(edges: set<Edge>, x: Node, y: Node)
    requires (x, y) in edges || (y, x) in edges
    ensures Connected(edges, x, y)
  {
    assert Between(edges, [x, y], x, y);
  }

  lemma ConnectedTransitive(edges: set<Edge>, x: Node, y: Node, z: Node)
    requires Connected(edges, x, y) && Connected(edges, y, z)
    ensures Connected(edges, x, z)
  {
    var p: seq<Node> :| Between(edges, p, x, y);
    var q: seq<Node> :| Between(edges, q, y, z);
    var r := p + q;
    forall k | 0 <= k < |r| - 1
      ensures Linked(edges, r[k], r[k + 1])
    {
      if k < |p| - 1 {
        assert Linked(edges, p[k], p[k + 1]);
      } else if k >= |p| {
        assert Linked(edges, q[k - |p|], q[k - |p| + 1]);
      }
    }
    assert Between(edges, r, x, z);
  }

  lemma ConnectedSymmetric(edges: set<Edge>, x: Node, y: Node)
    requires Connected(edges, x, y)
    ensures Connected(edges, y, x)
  {
    var p: seq<Node> :| Between(edges, p, x, y);
    var r := seq(|p|, k requires 0 <= k < |p| => p[|p| - 1 - k]);
    forall k | 0 <= k < |r| - 1
      ensures Linked(edges, r[k], r[k + 1])
    {
      assert Linked(edges, p[|p| - 2 - k], p[|p| - 1 - k]);
    }
    assert Between(edges, r, y, x);
  }

  lemma ConnectedMore(edges: set<Edge>, more: set<Edge>, x: Node, y: Node)
    requires Connected(edges, x, y) && edges <= more
    ensures Connected(more, x, y)
  {
    var p: seq<Node> :| Between(edges, p, x, y);
    forall k | 0 <= k < |p| - 1
      ensures Linked(more, p[k], p[k + 1])
    {
      assert Linked(edges, p[k], p[k + 1]);
    }
    assert Between(more, p, x, y);
  }

  /** A labelling that edges respect is constant along paths. */
  lemma {:induction false} PathKeepsLabel(edges: set<Edge>, mark: map<Node, Node>, path: seq<Node>)
    requires IsPath(edges, path) && path[0] in mark
    requires forall e :: e in edges ==> e.0 in mark && e.1 in mark && mark[e.0] == mark[e.1]
    ensures path[|path| - 1] in mark && mark[path[|path| - 1]] == mark[path[0]]
    decreases |path|
  {
    if |path| > 1 {
      assert Linked(edges, path[0], path[1]);
      var rest := path[1..];
      forall k | 0 <= k < |rest| - 1
        ensures Linked(edges, rest[k], rest[k + 1])
      {
        assert Linked(edges, path[k + 1], path[k + 2]);
      }
      PathKeepsLabel(edges, mark, rest);
    }
  }

  /** The labels are the classes of connectivity. */
  ghost predicate Classes(root: map<Node, Node>, edges: set<Edge>) {
    && (forall e :: e in edges ==> e.0 in root && e.1 in root)
    && forall x, y :: x in root && y in root ==> (root[x] == root[y] <==> Connected(edges, x, y))
  }

  /** Everything labelled like a takes b's mark. */
  ghost function Merged(root: map<Node, Node>, a: Node, b: Node): map<Node, Node>
    requires a in root && b in root
  {
    map x | x in root :: if root[x] == root[a] then root[b] else root[x]
  }

  lemma MergedClasses(root: map<Node, Node>, edges: set<Edge>, a: Node, b: Node)
    requires Classes(root, edges) && a in root && b in root
    ensures Classes(Merged(root, a, b), edges + {(a, b)})
  {
    var more, mark := edges + {(a, b)}, Merged(root, a, b);
    forall e | e in more
      ensures e.0 in mark && e.1 in mark && mark[e.0] == mark[e.1]
    {
      if e in edges {
        EdgeConnected(edges, e.0, e.1);
      }
    }
    forall x, y | x in mark && y in mark
      ensures mark[x] == mark[y] <==> Connected(more, x, y)
    {
      if Connected(more, x, y) {
        LabelsAgree(more, mark, x, y);
      }
      if mark[x] == mark[y] {
        MergedConnected(root, edges, a, b, x, y);
      }
    }
  }

  lemma LabelsAgree(edges: set<Edge>, mark: map<Node, Node>, x: Node, y: Node)
    requires forall e :: e in edges ==> e.0 in mark && e.1 in mark && mark[e.0] == mark[e.1]
    requires x in mark && y in mark && Connected(edges, x, y)
    ensures mark[x] == mark[y]
  {
    var p: seq<Node> :| Between(edges, p, x, y);
    PathKeepsLabel(edges, mark, p);
  }

  lemma MergedConnected(root: map<Node, Node>, edges: set<Edge>, a: Node, b: Node, x: Node, y: Node)
    requires Classes(root, edges) && a in root && b in root && x in root && y in root
    requires Merged(root, a, b)[x] == Merged(root, a, b)[y]
    ensures Connected(edges + {(a, b)}, x, y)
  {
    var more := edges + {(a, b)};
    hide Connected;
    EdgeConnected(more, a, b);
    if root[x] == root[y] {
      ConnectedMore(edges, more, x, y);
    } else if root[x] == root[a] {
      ConnectedMore(edges, more, x, a);
      ConnectedMore(edges, more, b, y);
      ConnectedTransitive(more, x, a, b);
      ConnectedTransitive(more, x, b, y);
    } else {
      ConnectedMore(edges, more, y, a);
      ConnectedMore(edges, more, b, x);
      ConnectedTransitive(more, y, a, b);
      ConnectedTransitive(more, y, b, x);
      ConnectedSymmetric(more, y, x);
    }
  }

  // ------------------------------------------------------------------ union-find

  /** The parents form a forest: heights fall along them, and root names each tree's root. */
  ghost predicate Forest(parent: map<Node, Node>, root: map<Node, Node>, height: map<Node, nat>) {
    && root.Keys == parent.Keys && height.Keys == parent.Keys
    && forall x :: x in parent ==> Hangs(parent, root, height, x)
  }

  ghost predicate Hangs(parent: map<Node, Node>, root: map<Node, Node>, height: map<Node, nat>, x: Node)
    requires x in parent && root.Keys == parent.Keys && height.Keys == parent.Keys
  {
    && parent[x] in parent && root[x] in parent
    && root[parent[x]] == root[x] && parent[root[x]] == root[x]
    && (parent[x] == x ==> root[x] == x)
    && (parent[x] != x ==> height[parent[x]] < height[x])
  }

  lemma HangsAt(parent: map<Node, Node>, root: map<Node, Node>, height: map<Node, nat>, x: Node)
    requires Forest(parent, root, height) && x in parent
    ensures root.Keys == parent.Keys && height.Keys == parent.Keys && Hangs(parent, root, height, x)
  {
  }

  /** A node may hang from its parent's parent. */
  lemma Halved(parent: map<Node, Node>, root: map<Node, Node>, height: map<Node, nat>, x: Node)
    requires Forest(parent, root, height) && x in parent && parent[x] != x && parent[x] in parent
    ensures Forest(parent[x := parent[parent[x]]], root, height)
  {
    hide Hangs;
    var more := parent[x := parent[parent[x]]];
    HangsAt(parent, root, height, x);
    HangsAt(parent, root, height, parent[x]);
    forall y | y in more
      ensures Hangs(more, root, height, y)
    {
      HangsAt(parent, root, height, y);
      HalvedAt(parent, root, height, x, y);
    }
  }

  lemma HalvedAt(parent: map<Node, Node>, root: map<Node, Node>, height: map<Node, nat>, x: Node, y: Node)
    requires root.Keys == parent.Keys && height.Keys == parent.Keys
    requires x in parent && parent[x] != x && parent[x] in parent && y in parent
    requires Hangs(parent, root, height, x) && Hangs(parent, root, height, parent[x]) && Hangs(parent, root, height, y)
    ensures parent[x := parent[parent[x]]].Keys == parent.Keys
    ensures Hangs(parent[x := parent[parent[x]]], root, height, y)
  {
  }

  ghost function Raised(root: map<Node, Node>, height: map<Node, nat>, ra: Node, rb: Node): map<Node, nat>
    requires root.Keys == height.Keys && rb in root
  {
    map x | x in height :: if ra != rb && root[x] == ra then height[x] + height[rb] + 1 else height[x]
  }

  /** One root may hang from another. */
  lemma Hung(parent: map<Node, Node>, root: map<Node, Node>, height: map<Node, nat>, a: Node, b: Node)
    requires Forest(parent, root, height) && a in parent && b in parent
    ensures a in root && b in root && root[a] in parent && root[b] in root && root.Keys == height.Keys
    ensures Forest(parent[root[a] := root[b]], Merged(root, a, b), Raised(root, height, root[a], root[b]))
  {
    hide Hangs;
    HangsAt(parent, root, height, a);
    HangsAt(parent, root, height, b);
    RootIsRoot(parent, root, height, a);
    RootIsRoot(parent, root, height, b);
    var ra, rb := root[a], root[b];
    var more, mark, up := parent[ra := rb], Merged(root, a, b), Raised(root, height, ra, rb);
    assert more.Keys == parent.Keys && mark.Keys == parent.Keys && up.Keys == parent.Keys;
    forall x | x in more
      ensures Hangs(more, mark, up, x)
    {
      HangsAt(parent, root, height, x);
      HungAt(parent, root, height, a, b, x);
    }
  }

  lemma RootIsRoot(parent: map<Node, Node>, root: map<Node, Node>, height: map<Node, nat>, x: Node)
    requires Forest(parent, root, height) && x in parent
    ensures x in root && root[x] in parent && root[x] in root && root[root[x]] == root[x] && parent[root[x]] == root[x]
  {
    HangsAt(parent, root, height, x);
    HangsAt(parent, root, height, root[x]);
  }

  lemma HungAt(parent: map<Node, Node>, root: map<Node, Node>, height: map<Node, nat>, a: Node, b: Node, x: Node)
    requires root.Keys == parent.Keys && height.Keys == parent.Keys && a in parent && b in parent && x in parent
    requires root[a] in parent && root[b] in parent && root[root[a]] == root[a] && root[root[b]] == root[b]
    requires parent[root[a]] == root[a] && parent[root[b]] == root[b]
    requires Hangs(parent, root, height, x)
    ensures var more, mark, up := parent[root[a] := root[b]], Merged(root, a, b),
      Raised(root, height, root[a], root[b]);
      more.Keys == mark.Keys == up.Keys == parent.Keys && Hangs(more, mark, up, x)
  {
    var more, mark, up := parent[root[a] := root[b]], Merged(root, a, b), Raised(root, height, root[a], root[b]);
    assert more.Keys == parent.Keys && mark.Keys == parent.Keys && up.Keys == parent.Keys;
  }

  /** The `parent` dictionary of `components`, with its ghost view: each node's root, a height that falls along
      parents, and the edges joined so far. */
  class UnionFind {
    var parent: map<Node, Node>
    ghost var root: map<Node, Node>
    ghost var height: map<Node, nat>
    ghost var edges: set<Edge>

    ghost predicate Valid()
      reads this
    {
      && root.Keys == parent.Keys
      && Forest(parent, root, height) && Classes(root, edges)
    }

    constructor (nodes: set<Node>)
      ensures Valid() && parent.Keys == nodes && edges == {}
    {
      parent := map x | x in nodes :: x;
      root := map x | x in nodes :: x;
      height := map x | x in nodes :: 0;
      edges := {};
      new;
      ApartAtFirst(nodes);
    }

    /** `find`, halving the path as it climbs. */
    method Find(a: Node) returns (r: Node)
      requires Valid() && a in parent
      modifies this`parent
      ensures Valid() && parent.Keys == old(parent.Keys)
      ensures r == root[a] && r in parent
    {
      hide Forest, Classes;
      r := a;
      HangsAt(parent, root, height, r);
      while parent[r] != r
        invariant Valid() && parent.Keys == old(parent.Keys)
        invariant r in parent && root[r] == root[a] && height.Keys == parent.Keys && parent[r] in parent
        invariant Hangs(parent, root, height, r)
        decreases height[r]
      {
        HangsAt(parent, root, height, parent[r]);
        Halved(parent, root, height, r);
        parent := parent[r := parent[parent[r]]];
        HangsAt(parent, root, height, r);
        r := parent[r];
        HangsAt(parent, root, height, r);
      }
    }

    /** `union` */
    method Union(a: Node, b: Node)
      requires Valid() && a in parent && b in parent
      modifies this
      ensures Valid() && parent.Keys == old(parent.Keys)
      ensures edges == old(edges) + {(a, b)}
    {
      hide Forest, Classes, Hangs, Merged, Raised;
      var rb := Find(b);
      var ra := Find(a);
      MergedClasses(root, edges, a, b);
      Hung(parent, root, height, a, b);
      MergedKeys(root, a, b);
      parent := parent[ra := rb];
      height := Raised(root, height, ra, rb);
      root := Merged(root, a, b);
      edges := edges + {(a, b)};
    }
  }

  lemma MergedKeys(root: map<Node, Node>, a: Node, b: Node)
    requires a in root && b in root
    ensures Merged(root, a, b).Keys == root.Keys
  {
  }

  lemma ApartAtFirst(nodes: set<Node>)
    ensures Classes(map x | x in nodes :: x, {})
  {
    var mark := map x | x in nodes :: x;
    forall x, y | x in mark && y in mark
      ensures mark[x] == mark[y] <==> Connected({}, x, y)
    {
      SelfConnected({}, x);
      if Connected({}, x, y) {
        LabelsAgree({}, mark, x, y);
      }
    }
  }

  // ------------------------------------------------------------------ the number of components

  /** One node of each component. */
  ghost predicate Representatives(reps: set<Node>, nodes: set<Node>, edges: set<Edge>) {
    && reps <= nodes
    && (forall x :: x in nodes ==> exists r :: r in reps && Connected(edges, x, r))
    && forall r, s :: r in reps && s in reps && Connected(edges, r, s) ==> r == s
  }

  /** n is the number of connected components. */
  ghost predicate ComponentCount(n: nat, nodes: set<Node>, edges: set<Edge>) {
    exists reps: set<Node> :: Representatives(reps, nodes, edges) && |reps| == n
  }

  /** There is only one such number. */
  lemma ComponentCountUnique(m: nat, n: nat, nodes: set<Node>, edges: set<Edge>)
    requires ComponentCount(m, nodes, edges) && ComponentCount(n, nodes, edges)
    ensures m == n
  {
    hide Representatives;
    var r: set<Node> :| Representatives(r, nodes, edges) && |r| == m;
    var s: set<Node> :| Representatives(s, nodes, edges) && |s| == n;
    NotMore(r, s, nodes, edges);
    NotMore(s, r, nodes, edges);
  }

  lemma Represented(reps: set<Node>, nodes: set<Node>, edges: set<Edge>, x: Node) returns (y: Node)
    requires Representatives(reps, nodes, edges) && x in nodes
    ensures y in reps && Connected(edges, x, y)
  {
    hide Connected;
    y :| y in reps && Connected(edges, x, y);
  }

  lemma OneRepresentative(reps: set<Node>, nodes: set<Node>, edges: set<Edge>, x: Node, z: Node)
    requires Representatives(reps, nodes, edges) && x in reps && z in reps
    ensures x in nodes && (Connected(edges, x, z) ==> x == z)
  {
    hide Connected;
  }

  lemma NotMore(r: set<Node>, s: set<Node>, nodes: set<Node>, edges: set<Edge>)
    requires Representatives(r, nodes, edges) && Representatives(s, nodes, edges)
    ensures |r| <= |s|
  {
    hide Connected, Representatives;
    var related := (x: Node, y: Node) => Connected(edges, x, y);
    forall x | x in r
      ensures exists y :: y in s && related(x, y)
    {
      OneRepresentative(r, nodes, edges, x, x);
      var y := Represented(s, nodes, edges, x);
      assert related(x, y);
    }
    forall x, z, y | x in r && z in r && y in s && related(x, y) && related(z, y)
      ensures x == z
    {
      ConnectedSymmetric(edges, z, y);
      ConnectedTransitive(edges, x, y, z);
      OneRepresentative(r, nodes, edges, x, z);
    }
    Injection(r, s, related);
  }

  lemma {:induction false} Injection(r: set<Node>, s: set<Node>, related: (Node, Node) -> bool)
    requires forall x :: x in r ==> exists y :: y in s && related(x, y)
    requires forall x, z, y :: x in r && z in r && y in s && related(x, y) && related(z, y) ==> x == z
    ensures |r| <= |s|
    decreases |r|
  {
    if r != {} {
      var x :| x in r;
      var y :| y in s && related(x, y);
      forall z | z in r - {x}
        ensures exists w :: w in s - {y} && related(z, w)
      {
        var w :| w in s && related(z, w);
        assert w != y;
      }
      Injection(r - {x}, s - {y}, related);
    }
  }

  lemma RootsRepresent(root: map<Node, Node>, edges: set<Edge>)
    requires Classes(root, edges) && forall x :: x in root ==> root[x] in root && root[root[x]] == root[x]
    ensures Representatives(set x | x in root :: root[x], root.Keys, edges)
  {
    var reps := set x | x in root :: root[x];
    hide Connected;
    forall x | x in root.Keys
      ensures exists r :: r in reps && Connected(edges, x, r)
    {
      assert root[x] in reps;
      assert root[root[x]] == root[x];
    }
  }

  // ------------------------------------------------------------------ the overlap graph

  function Low(x: real, y: real): real {
    if x <= y then x else y
  }

  function High(x: real, y: real): real {
    if x >= y then x else y
  }

  predicate Overlap(l0: real, r0: real, l1: real, r1: real, eps: real) {
    Low(r0, r1) - High(l0, l1) > eps
  }

  ghost predicate Within(a: real, b: real, l: real, r: real) {
    l <= a && b <= r
  }

  /** Two intervals overlap exactly if some segment longer than eps lies in both. */
  lemma OverlapIff(l0: real, r0: real, l1: real, r1: real, eps: real)
    ensures Overlap(l0, r0, l1, r1, eps) <==>
      exists a, b :: b - a > eps && Within(a, b, l0, r0) && Within(a, b, l1, r1)
  {
    if Overlap(l0, r0, l1, r1, eps) {
      var a, b := High(l0, l1), Low(r0, r1);
      assert Within(a, b, l0, r0) && Within(a, b, l1, r1);
    }
  }

  /** A band between two heights, with its pieces from left to right. */
  datatype Band = Band(v0: real, v1: real, pieces: seq<Piece>)

  ghost predicate GoodBands(bands: seq<Band>) {
    && (forall k :: 0 <= k < |bands| ==> Ordered(bands[k].pieces))
    && forall k :: 0 <= k < |bands| - 1 ==> bands[k].v1 == bands[k + 1].v0
  }

  /** nodes[s][k]: the intervals of slab s in band k. */
  type Table = seq<seq<seq<Interval>>>

  function TableFor(regions: seq<set<Atom>>, bands: seq<Band>): Table {
    seq(|regions|, s requires 0 <= s < |regions| => LineFor(regions[s], bands))
  }

  function LineFor(atoms: set<Atom>, bands: seq<Band>): seq<seq<Interval>> {
    seq(|bands|, k requires 0 <= k < |bands| => IntervalsOf(bands[k].pieces, atoms))
  }

  predicate IsNode(nodes: Table, x: Node) {
    x.slab < |nodes| && x.band < |nodes[x.slab]| && x.index < |nodes[x.slab][x.band]|
  }

  function At(nodes: Table, x: Node): Interval
    requires IsNode(nodes, x)
  {
    nodes[x.slab][x.band][x.index]
  }

  /** Neighbours in the next band, overlapping at the height the two bands share; xAt(e, v) is where element e
      stands at height v. */
  ghost predicate Beside(nodes: Table, bands: seq<Band>, xAt: (nat, real) -> real, eps: real, x: Node, y: Node) {
    && IsNode(nodes, x) && IsNode(nodes, y) && x.slab == y.slab && y.band == x.band + 1 && y.band < |bands|
    && var (v, p, q) := (bands[x.band].v1, At(nodes, x), At(nodes, y));
      Overlap(xAt(p.leftKey, v), xAt(p.rightKey, v), xAt(q.leftKey, v), xAt(q.rightKey, v), eps)
  }

  /** Neighbours in the next slab, overlapping in the same band. */
  ghost predicate Above(nodes: Table, eps: real, x: Node, y: Node) {
    && IsNode(nodes, x) && IsNode(nodes, y) && y.slab == x.slab + 1 && y.band == x.band
    && Overlap(At(nodes, x).left, At(nodes, x).right, At(nodes, y).left, At(nodes, y).right, eps)
  }

  /** The edges are the overlaps: all of them and nothing else. */
  ghost predicate OverlapGraph(edges: set<Edge>, nodes: Table, bands: seq<Band>, xAt: (nat, real) -> real, eps: real) {
    forall x, y :: (x, y) in edges <==> Beside(nodes, bands, xAt, eps, x, y) || Above(nodes, eps, x, y)
  }

  ghost predicate AllNodes(all: set<Node>, nodes: Table) {
    forall x :: x in all <==> IsNode(nodes, x)
  }

  /** Rows: where each interval of a level starts and ends. */
  predicate RowsOverlap(p: seq<(real, real)>, q: seq<(real, real)>, eps: real, i: nat, j: nat) {
    i < |p| && j < |q| && Overlap(p[i].0, p[i].1, q[j].0, q[j].1, eps)
  }

  /** The overlapping pairs of level (s, k) and level (t, h). */
  ghost predicate LevelEdge(s: nat, k: nat, p: seq<(real, real)>, t: nat, h: nat, q: seq<(real, real)>, eps: real,
                            x: Node, y: Node) {
    x.slab == s && x.band == k && y.slab == t && y.band == h && RowsOverlap(p, q, eps, x.index, y.index)
  }

  /** The edges after the pairs before (i, j) of two levels have been joined. */
  ghost predicate JoinedTo(more: set<Edge>, was: set<Edge>, s: nat, k: nat, p: seq<(real, real)>, t: nat, h: nat,
                           q: seq<(real, real)>, eps: real, i: nat, j: nat) {
    forall x, y :: (x, y) in more <==> ((x, y) in was ||
      (LevelEdge(s, k, p, t, h, q, eps, x, y) && (x.index < i || (x.index == i && y.index < j))))
  }

  lemma JoinedStep(more: set<Edge>, was: set<Edge>, s: nat, k: nat, p: seq<(real, real)>, t: nat, h: nat,
                   q: seq<(real, real)>, eps: real, i: nat, j: nat)
    requires JoinedTo(more, was, s, k, p, t, h, q, eps, i, j) && i < |p| && j < |q|
    ensures JoinedTo(if Overlap(p[i].0, p[i].1, q[j].0, q[j].1, eps) then more + {(Node(s, k, i), Node(t, h, j))}
      else more,
                     was, s, k, p, t, h, q, eps, i, j + 1)
  {
    hide Overlap;
  }

  lemma JoinedRow(more: set<Edge>, was: set<Edge>, s: nat, k: nat, p: seq<(real, real)>, t: nat, h: nat,
                  q: seq<(real, real)>, eps: real, i: nat)
    requires JoinedTo(more, was, s, k, p, t, h, q, eps, i, |q|)
    ensures JoinedTo(more, was, s, k, p, t, h, q, eps, i + 1, 0)
  {
    hide Overlap;
  }

  lemma NothingJoined(was: set<Edge>, s: nat, k: nat, p: seq<(real, real)>, t: nat, h: nat, q: seq<(real, real)>,
                      eps: real)
    ensures JoinedTo(was, was, s, k, p, t, h, q, eps, 0, 0)
  {
  }

  ghost predicate Level(nodes: set<Node>, s: nat, k: nat, n: nat) {
    forall i :: 0 <= i < n ==> Node(s, k, i) in nodes
  }

  /** The two innermost loops: each overlapping pair of two levels' intervals is joined. */
  method JoinLevels(uf: UnionFind, s: nat, k: nat, p: seq<(real, real)>, t: nat, h: nat, q: seq<(real, real)>,
                    eps: real)
    requires uf.Valid() && Level(uf.parent.Keys, s, k, |p|) && Level(uf.parent.Keys, t, h, |q|)
    modifies uf
    ensures uf.Valid() && uf.parent.Keys == old(uf.parent.Keys)
    ensures JoinedTo(uf.edges, old(uf.edges), s, k, p, t, h, q, eps, |p|, 0)
  {
    hide Forest, Classes, JoinedTo, Overlap;
    NothingJoined(uf.edges, s, k, p, t, h, q, eps);
    for i := 0 to |p|
      invariant uf.Valid() && uf.parent.Keys == old(uf.parent.Keys)
      invariant JoinedTo(uf.edges, old(uf.edges), s, k, p, t, h, q, eps, i, 0)
    {
      for j := 0 to |q|
        invariant uf.Valid() && uf.parent.Keys == old(uf.parent.Keys)
        invariant JoinedTo(uf.edges, old(uf.edges), s, k, p, t, h, q, eps, i, j)
      {
        JoinedStep(uf.edges, old(uf.edges), s, k, p, t, h, q, eps, i, j);
        if Overlap(p[i].0, p[i].1, q[j].0, q[j].1, eps) {
          uf.Union(Node(s, k, i), Node(t, h, j));
        }
      }
      JoinedRow(uf.edges, old(uf.edges), s, k, p, t, h, q, eps, i);
    }
  }

  // ------------------------------------------------------------------ all levels

  /** The overlaps of the slabs below s, of slab s's bands below k, and from slab s upwards in bands below j. */
  ghost predicate GraphUpTo(edges: set<Edge>, nodes: Table, bands: seq<Band>, xAt: (nat, real) -> real, eps: real,
                            s: nat, k: nat, j: nat) {
    forall x, y :: (x, y) in edges <==>
      ((Beside(nodes, bands, xAt, eps, x, y) && (x.slab < s || (x.slab == s && x.band < k))) ||
       (Above(nodes, eps, x, y) && (x.slab < s || (x.slab == s && x.band < j))))
  }

  function RowsAt(intervals: seq<Interval>, xAt: (nat, real) -> real, v: real): (r: seq<(real, real)>)
    ensures |r| == |intervals|
  {
    seq(|intervals|, i requires 0 <= i < |intervals| => (xAt(intervals[i].leftKey, v), xAt(intervals[i].rightKey, v)))
  }

  function Rows(intervals: seq<Interval>): (r: seq<(real, real)>)
    ensures |r| == |intervals|
  {
    seq(|intervals|, i requires 0 <= i < |intervals| => (intervals[i].left, intervals[i].right))
  }

  ghost predicate Rectangular(nodes: Table, bands: seq<Band>) {
    forall s :: 0 <= s < |nodes| ==> |nodes[s]| == |bands|
  }

  lemma BesideStep(more: set<Edge>, was: set<Edge>, nodes: Table, bands: seq<Band>, xAt: (nat, real) -> real, eps: real,
                   s: nat, k: nat)
    requires Rectangular(nodes, bands) && s < |nodes| && k + 1 < |bands|
    requires GraphUpTo(was, nodes, bands, xAt, eps, s, k, 0)
    requires JoinedTo(more, was, s, k, RowsAt(nodes[s][k], xAt, bands[k].v1),
                      s, k + 1, RowsAt(nodes[s][k + 1], xAt, bands[k].v1), eps, |nodes[s][k]|, 0)
    ensures GraphUpTo(more, nodes, bands, xAt, eps, s, k + 1, 0)
  {
    hide Overlap;
    var p, q := RowsAt(nodes[s][k], xAt, bands[k].v1), RowsAt(nodes[s][k + 1], xAt, bands[k].v1);
    forall x: Node, y: Node
      ensures LevelEdge(s, k, p, s, k + 1, q, eps, x, y) <==>
        (Beside(nodes, bands, xAt, eps, x, y) && x.slab == s && x.band == k)
    {
    }
    hide LevelEdge, Beside, Above;
  }

  lemma AboveStep(more: set<Edge>, was: set<Edge>, nodes: Table, bands: seq<Band>, xAt: (nat, real) -> real, eps: real,
                  s: nat, j: nat)
    requires Rectangular(nodes, bands) && s + 1 < |nodes| && j < |bands|
    requires GraphUpTo(was, nodes, bands, xAt, eps, s, |bands|, j)
    requires JoinedTo(more, was, s, j, Rows(nodes[s][j]), s + 1, j, Rows(nodes[s + 1][j]), eps, |nodes[s][j]|, 0)
    ensures GraphUpTo(more, nodes, bands, xAt, eps, s, |bands|, j + 1)
  {
    hide Overlap;
    var p, q := Rows(nodes[s][j]), Rows(nodes[s + 1][j]);
    forall x: Node, y: Node
      ensures LevelEdge(s, j, p, s + 1, j, q, eps, x, y) <==> (Above(nodes, eps, x, y) && x.slab == s && x.band == j)
    {
    }
    hide LevelEdge, Beside, Above;
  }

  lemma NoEdges(nodes: Table, bands: seq<Band>, xAt: (nat, real) -> real, eps: real)
    ensures GraphUpTo({}, nodes, bands, xAt, eps, 0, 0, 0)
  {
  }

  /** No band lies beyond the last, no slab above the top. */
  lemma LastBand(edges: set<Edge>, nodes: Table, bands: seq<Band>, xAt: (nat, real) -> real, eps: real, s: nat, k: nat)
    requires GraphUpTo(edges, nodes, bands, xAt, eps, s, k, 0) && k + 1 >= |bands|
    ensures GraphUpTo(edges, nodes, bands, xAt, eps, s, |bands|, 0)
  {
    hide Overlap;
  }

  lemma NextSlab(edges: set<Edge>, nodes: Table, bands: seq<Band>, xAt: (nat, real) -> real, eps: real, s: nat, j: nat)
    requires Rectangular(nodes, bands) && GraphUpTo(edges, nodes, bands, xAt, eps, s, |bands|, j)
    requires j >= |bands| || s + 1 >= |nodes|
    ensures GraphUpTo(edges, nodes, bands, xAt, eps, s + 1, 0, 0)
  {
    hide Overlap;
  }

  lemma AllSlabs(edges: set<Edge>, nodes: Table, bands: seq<Band>, xAt: (nat, real) -> real, eps: real)
    requires GraphUpTo(edges, nodes, bands, xAt, eps, |nodes|, 0, 0)
    ensures OverlapGraph(edges, nodes, bands, xAt, eps)
  {
    hide Overlap;
  }

  lemma LevelOf(all: set<Node>, nodes: Table, bands: seq<Band>, s: nat, k: nat)
    requires AllNodes(all, nodes) && Rectangular(nodes, bands) && s < |nodes| && k < |bands|
    ensures k < |nodes[s]| && Level(all, s, k, |nodes[s][k]|)
  {
    forall i | 0 <= i < |nodes[s][k]|
      ensures Node(s, k, i) in all
    {
      assert IsNode(nodes, Node(s, k, i));
    }
  }

  method JoinSlab(uf: UnionFind, nodes: Table, bands: seq<Band>, xAt: (nat, real) -> real, eps: real, s: nat)
    requires uf.Valid() && AllNodes(uf.parent.Keys, nodes) && Rectangular(nodes, bands) && s < |nodes|
    requires GraphUpTo(uf.edges, nodes, bands, xAt, eps, s, 0, 0)
    modifies uf
    ensures uf.Valid() && uf.parent.Keys == old(uf.parent.Keys)
    ensures GraphUpTo(uf.edges, nodes, bands, xAt, eps, s + 1, 0, 0)
  {
    hide Forest, Classes, GraphUpTo, JoinedTo, AllNodes, RowsAt, Rows, Level;
    var k := 0;
    while k + 1 < |bands|
      invariant uf.Valid() && uf.parent.Keys == old(uf.parent.Keys)
      invariant GraphUpTo(uf.edges, nodes, bands, xAt, eps, s, k, 0)
    {
      var v := bands[k].v1;
      LevelOf(uf.parent.Keys, nodes, bands, s, k);
      LevelOf(uf.parent.Keys, nodes, bands, s, k + 1);
      ghost var was := uf.edges;
      JoinLevels(uf, s, k, RowsAt(nodes[s][k], xAt, v), s, k + 1, RowsAt(nodes[s][k + 1], xAt, v), eps);
      BesideStep(uf.edges, was, nodes, bands, xAt, eps, s, k);
      k := k + 1;
    }
    LastBand(uf.edges, nodes, bands, xAt, eps, s, k);
    if s + 1 < |nodes| {
      for j := 0 to |bands|
        invariant uf.Valid() && uf.parent.Keys == old(uf.parent.Keys)
        invariant GraphUpTo(uf.edges, nodes, bands, xAt, eps, s, |bands|, j)
      {
        LevelOf(uf.parent.Keys, nodes, bands, s, j);
        LevelOf(uf.parent.Keys, nodes, bands, s + 1, j);
        ghost var was := uf.edges;
        JoinLevels(uf, s, j, Rows(nodes[s][j]), s + 1, j, Rows(nodes[s + 1][j]), eps);
        AboveStep(uf.edges, was, nodes, bands, xAt, eps, s, j);
      }
      NextSlab(uf.edges, nodes, bands, xAt, eps, s, |bands|);
    } else {
      NextSlab(uf.edges, nodes, bands, xAt, eps, s, 0);
    }
  }

  // ------------------------------------------------------------------ the nodes

  /** The nodes of the levels before band k of slab s. */
  ghost predicate NodesUpTo(all: set<Node>, regions: seq<set<Atom>>, bands: seq<Band>, s: nat, k: nat) {
    forall x :: x in all <==>
      (IsNode(TableFor(regions, bands), x) && (x.slab < s || (x.slab == s && x.band < k)))
  }

  lemma NodesStep(all: set<Node>, more: set<Node>, regions: seq<set<Atom>>, bands: seq<Band>, s: nat, k: nat, n: nat)
    requires NodesUpTo(all, regions, bands, s, k) && s < |regions| && k < |bands|
    requires n == |IntervalsOf(bands[k].pieces, regions[s])|
    requires forall x :: x in more <==> (x in all || (x.slab == s && x.band == k && x.index < n))
    ensures NodesUpTo(more, regions, bands, s, k + 1)
  {
    hide IntervalsOf;
  }

  lemma NodesStart(regions: seq<set<Atom>>, bands: seq<Band>)
    ensures NodesUpTo({}, regions, bands, 0, 0)
  {
  }

  lemma NodesNext(all: set<Node>, regions: seq<set<Atom>>, bands: seq<Band>, s: nat)
    requires NodesUpTo(all, regions, bands, s, |bands|)
    ensures NodesUpTo(all, regions, bands, s + 1, 0)
  {
    hide IntervalsOf;
  }

  lemma NodesAll(all: set<Node>, regions: seq<set<Atom>>, bands: seq<Band>)
    requires NodesUpTo(all, regions, bands, |regions|, 0)
    ensures AllNodes(all, TableFor(regions, bands))
  {
    hide IntervalsOf;
  }

  /** One slab's line of `nodes`, and its nodes added to the others. */
  method SlabNodes(regions: seq<set<Atom>>, bands: seq<Band>, s: nat, before: set<Node>)
    returns (row: seq<seq<Interval>>, all: set<Node>)
    requires GoodBands(bands) && s < |regions| && NodesUpTo(before, regions, bands, s, 0)
    ensures row == LineFor(regions[s], bands) && NodesUpTo(all, regions, bands, s, |bands|)
  {
    hide NodesUpTo, IntervalsOf, Union, Ordered;
    row, all := [], before;
    for k := 0 to |bands|
      invariant |row| == k && forall h :: 0 <= h < k ==> row[h] == IntervalsOf(bands[h].pieces, regions[s])
      invariant NodesUpTo(all, regions, bands, s, k)
    {
      var intervals := Intervals(bands[k].pieces, regions[s]);
      row := row + [intervals];
      ghost var was := all;
      for i := 0 to |intervals|
        invariant forall x :: x in all <==> (x in was || (x.slab == s && x.band == k && x.index < i))
      {
        all := all + {Node(s, k, i)};
      }
      NodesStep(was, all, regions, bands, s, k, |intervals|);
    }
  }

  method Nodes(regions: seq<set<Atom>>, bands: seq<Band>) returns (nodes: Table, all: set<Node>)
    requires GoodBands(bands)
    ensures nodes == TableFor(regions, bands) && AllNodes(all, nodes)
  {
    hide NodesUpTo, LineFor, GoodBands;
    nodes, all := [], {};
    NodesStart(regions, bands);
    for s := 0 to |regions|
      invariant |nodes| == s && forall h :: 0 <= h < s ==> nodes[h] == LineFor(regions[h], bands)
      invariant NodesUpTo(all, regions, bands, s, 0)
    {
      var row;
      row, all := SlabNodes(regions, bands, s, all);
      nodes := nodes + [row];
      NodesNext(all, regions, bands, s);
    }
    NodesAll(all, regions, bands);
  }

  // ------------------------------------------------------------------ the count

  lemma RootsAreRoots(uf: UnionFind)
    requires uf.Valid()
    ensures forall x :: x in uf.root ==> uf.root[x] in uf.root && uf.root[uf.root[x]] == uf.root[x]
  {
    hide Forest, Classes;
    forall x | x in uf.root
      ensures uf.root[x] in uf.root && uf.root[uf.root[x]] == uf.root[x]
    {
      RootIsRoot(uf.parent, uf.root, uf.height, x);
    }
  }

  /** `len({find(a) for a in parent})` */
  method CountRoots(uf: UnionFind) returns (n: nat)
    requires uf.Valid()
    modifies uf`parent
    ensures uf.Valid() && uf.parent.Keys == old(uf.parent.Keys)
    ensures ComponentCount(n, uf.parent.Keys, uf.edges)
  {
    hide Forest, Classes, Representatives;
    var todo, roots: set<Node> := uf.parent.Keys, {};
    while todo != {}
      invariant uf.Valid() && uf.parent.Keys == old(uf.parent.Keys) && todo <= uf.parent.Keys
      invariant forall x :: x in uf.parent.Keys - todo ==> uf.root[x] in roots
      invariant forall r :: r in roots ==> exists x :: x in uf.parent.Keys && uf.root[x] == r
      decreases |todo|
    {
      var a :| a in todo;
      var r := uf.Find(a);
      roots := roots + {r};
      todo := todo - {a};
    }
    RootsAreRoots(uf);
    RootsRepresent(uf.root, uf.edges);
    assert roots == set x | x in uf.root :: uf.root[x];
    return |roots|;
  }

  lemma TableRectangular(regions: seq<set<Atom>>, bands: seq<Band>)
    ensures |TableFor(regions, bands)| == |regions| && Rectangular(TableFor(regions, bands), bands)
  {
  }

  /** `Pair.components`: the number of connected components of the overlap graph over all slabs, bands and
      intervals. */
  method CountComponents(regions: seq<set<Atom>>, bands: seq<Band>, xAt: (nat, real) -> real, eps: real)
    returns (n: nat)
    requires GoodBands(bands)
    ensures exists all: set<Node>, edges: set<Edge> ::
      && AllNodes(all, TableFor(regions, bands)) && OverlapGraph(edges, TableFor(regions, bands), bands, xAt, eps)
      && ComponentCount(n, all, edges)
  {
    hide *;
    var nodes, all := Nodes(regions, bands);
    TableRectangular(regions, bands);
    var uf := new UnionFind(all);
    NoEdges(nodes, bands, xAt, eps);
    for s := 0 to |regions|
      invariant uf.Valid() && uf.parent.Keys == all
      invariant GraphUpTo(uf.edges, nodes, bands, xAt, eps, s, 0, 0)
    {
      JoinSlab(uf, nodes, bands, xAt, eps, s);
    }
    AllSlabs(uf.edges, nodes, bands, xAt, eps);
    n := CountRoots(uf);
    assert ComponentCount(n, all, uf.edges);
  }
}

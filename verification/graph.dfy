/**
 The undirected graph of the library (Grafo): a vertex count, an edge counter
 and one of two adjacency stores fixed at creation, a square boolean matrix
 or one neighbour list per vertex with the newest neighbour first. Vertices
 are 0-based inside the graph; the edge stream read from the input file is
 1-based.
 */
module Graphs {
  import opened Seqs

  /** The representation chosen at creation (TipoRepresentacao). */
  datatype Kind = Matrix | Lists

  /** The adjacency store: `rows[u][v]` is the matrix cell, `lists[u]` the neighbour list of `u`. */
  datatype Store =
    | MatrixStore(rows: seq<seq<bool>>)
    | ListStore(lists: seq<seq<nat>>)

  datatype Graph = Graph(numVertices: nat, numEdges: nat, store: Store)

  /** Traversal order of a matrix row; a neighbour list is always read in stored order. */
  datatype ScanOrder = Ascending | Descending

  function KindOf(g: Graph): Kind {
    if g.store.MatrixStore? then Matrix else Lists
  }

  /** The store has one row (or list) per vertex and names only existing vertices. */
  predicate WellFormed(s: Store, n: nat) {
    match s
    case MatrixStore(rows) =>
      |rows| == n && forall i :: 0 <= i < n ==> |rows[i]| == n
    case ListStore(lists) =>
      |lists| == n && forall i, k :: 0 <= i < n && 0 <= k < |lists[i]| ==> lists[i][k] < n
  }

  predicate Valid(g: Graph) {
    WellFormed(g.store, g.numVertices)
  }

  /** `v` is a neighbour of `u` in the store: the matrix cell is set, or `v` is on `u`'s list. */
  predicate Linked(s: Store, n: nat, u: nat, v: nat)
    requires WellFormed(s, n) && u < n && v < n
  {
    match s
    case MatrixStore(rows) => rows[u][v]
    case ListStore(lists) => v in lists[u]
  }

  predicate Adjacent(g: Graph, u: nat, v: nat)
    requires Valid(g) && u < g.numVertices && v < g.numVertices
  {
    Linked(g.store, g.numVertices, u, v)
  }

  /** Every link has its reverse link. */
  predicate Symmetric(g: Graph)
    requires Valid(g)
  {
    forall u: nat, v: nat :: u < g.numVertices && v < g.numVertices && Adjacent(g, u, v) ==> Adjacent(g, v, u)
  }

  /** The pair `p` of the 1-based edge stream names the 0-based vertices `x` and `y`, in either order. */
  predicate Joins(p: (int, int), x: nat, y: nat) {
    (p.0 == x + 1 && p.1 == y + 1) || (p.0 == y + 1 && p.1 == x + 1)
  }

  /**
   A graph with `n` vertices, no edges and the chosen store (criarGrafo, and
   criarGrafoVazio, which has the same body). The store helpers are not part
   of this model: the matrix is taken to start all zero and the lists empty.
   */
  function Create(n: nat, kind: Kind): (g: Graph)
    ensures Valid(g) && g.numVertices == n && g.numEdges == 0 && KindOf(g) == kind
    ensures forall u: nat, v: nat :: u < n && v < n ==> !Adjacent(g, u, v)
    ensures forall v: nat :: v < n ==> Degree(g, v) == 0
  {
    var store :=
      match kind
      case Matrix => MatrixStore(seq(n, _ => seq(n, _ => false)))
      case Lists => ListStore(seq(n, _ => []));
    var g := Graph(n, 0, store);
    assert forall v: nat :: v < n && g.store.MatrixStore? ==> g.store.rows[v] == seq(n, _ => false);
    forall v: nat | v < n && g.store.MatrixStore?
      ensures CountTrue(g.store.rows[v]) == 0
    {
      CountFalseRow(g.store.rows[v]);
    }
    g
  }

  lemma {:induction false} CountFalseRow(row: seq<bool>)
    requires forall j :: 0 <= j < |row| ==> !row[j]
    ensures CountTrue(row) == 0
  {
    if row != [] {
      CountFalseRow(row[..|row| - 1]);
    }
  }

  /**
   Stores the undirected edge `{u, v}`: both matrix cells are set, or `v` is
   put at the head of `u`'s list and then `u` at the head of `v`'s list.
   This is the edge write of the ingestion loop, and the contract given to
   the matrix and list helpers behind `AddEdge`.
   */
  function Link(s: Store, n: nat, u: nat, v: nat): (r: Store)
    requires WellFormed(s, n) && u < n && v < n
    ensures WellFormed(r, n)
    ensures r.MatrixStore? == s.MatrixStore?
    ensures forall x: nat, y: nat :: x < n && y < n ==>
      (Linked(r, n, x, y) <==> Linked(s, n, x, y) || (x == u && y == v) || (x == v && y == u))
    // The newest neighbour heads the list; every other list is untouched.
    ensures s.ListStore? && u != v ==> r.lists[u] == [v] + s.lists[u] && r.lists[v] == [u] + s.lists[v]
    ensures s.ListStore? && u == v ==> r.lists[u] == [u, u] + s.lists[u]
    ensures s.ListStore? ==> forall x :: 0 <= x < n && x != u && x != v ==> r.lists[x] == s.lists[x]
    // Setting matrix cells again changes nothing.
    ensures s.MatrixStore? && Linked(s, n, u, v) && Linked(s, n, v, u) ==> r == s
    ensures s.MatrixStore? ==> forall x :: 0 <= x < n && x != u && x != v ==> r.rows[x] == s.rows[x]
  {
    match s
    case MatrixStore(rows) =>
      var rows1 := rows[u := rows[u][v := true]];
      var rows2 := rows1[v := rows1[v][u := true]];
      if rows[u][v] && rows[v][u] then
        assert rows[u][v := true] == rows[u];
        assert rows1 == rows;
        assert rows1[v][u := true] == rows1[v];
        MatrixStore(rows2)
      else
        MatrixStore(rows2)
    case ListStore(lists) =>
      var lists1 := lists[u := [v] + lists[u]];
      ListStore(lists1[v := [u] + lists1[v]])
  }

  /** Both endpoints of a 1-based pair lie in [1, n]. */
  predicate InRange(p: (int, int), n: nat) {
    1 <= p.0 <= n && 1 <= p.1 <= n
  }

  /**
   One record of the edge stream: an out-of-range pair is skipped; otherwise
   the edge is stored. The ingestion loop does not touch the edge counter.
   */
  function InsertPair(g: Graph, p: (int, int)): (r: Graph)
    requires Valid(g)
    ensures Valid(r) && r.numVertices == g.numVertices && KindOf(r) == KindOf(g)
    ensures r.numEdges == g.numEdges
    ensures !InRange(p, g.numVertices) ==> r == g
    ensures forall x: nat, y: nat :: x < g.numVertices && y < g.numVertices ==>
      (Adjacent(r, x, y) <==> Adjacent(g, x, y) || Joins(p, x, y))
    ensures InRange(p, g.numVertices) && g.store.ListStore? ==>
      && r.store.ListStore?
      && |r.store.lists[p.0 - 1]| > 0 && r.store.lists[p.0 - 1][0] == p.1 - 1
      && |r.store.lists[p.1 - 1]| > 0 && r.store.lists[p.1 - 1][0] == p.0 - 1
  {
    if InRange(p, g.numVertices) then
      Graph(g.numVertices, g.numEdges, Link(g.store, g.numVertices, p.0 - 1, p.1 - 1))
    else
      g
  }

  /** The ingestion loop over the whole edge stream, in stream order. */
  function ReadEdges(g: Graph, pairs: seq<(int, int)>): (r: Graph)
    requires Valid(g)
    ensures Valid(r) && r.numVertices == g.numVertices && KindOf(r) == KindOf(g)
    ensures r.numEdges == g.numEdges
    ensures forall x: nat, y: nat :: x < g.numVertices && y < g.numVertices ==>
      (Adjacent(r, x, y) <==> Adjacent(g, x, y) || exists i :: 0 <= i < |pairs| && Joins(pairs[i], x, y))
    ensures Symmetric(g) ==> Symmetric(r)
  {
    if pairs == [] then g
    else
      var prefix := pairs[..|pairs| - 1];
      var r := InsertPair(ReadEdges(g, prefix), pairs[|pairs| - 1]);
      assert forall i :: 0 <= i < |prefix| ==> pairs[i] == prefix[i];
      r
  }

  /** adicionarArestaGrafo: stores `{u, v}` and counts one more edge, whatever the store. */
  function AddEdge(g: Graph, u: nat, v: nat): (r: Graph)
    requires Valid(g) && u < g.numVertices && v < g.numVertices
    ensures Valid(r) && r.numVertices == g.numVertices && KindOf(r) == KindOf(g)
    ensures r.numEdges == g.numEdges + 1
    ensures forall x: nat, y: nat :: x < g.numVertices && y < g.numVertices ==>
      (Adjacent(r, x, y) <==> Adjacent(g, x, y) || (x == u && y == v) || (x == v && y == u))
    ensures Symmetric(g) ==> Symmetric(r)
  {
    Graph(g.numVertices, g.numEdges + 1, Link(g.store, g.numVertices, u, v))
  }

  /** Both endpoints of every pair are vertices of an `n`-vertex graph. */
  predicate EdgesWithin(es: seq<(nat, nat)>, n: nat) {
    forall i :: 0 <= i < |es| ==> es[i].0 < n && es[i].1 < n
  }

  /** `AddEdge` applied to each pair in order. */
  function AddEdges(g: Graph, es: seq<(nat, nat)>): (r: Graph)
    requires Valid(g) && EdgesWithin(es, g.numVertices)
    ensures Valid(r) && r.numVertices == g.numVertices && KindOf(r) == KindOf(g)
    ensures r.numEdges == g.numEdges + |es|
    ensures forall x: nat, y: nat :: x < g.numVertices && y < g.numVertices ==>
      (Adjacent(r, x, y) <==>
        (Adjacent(g, x, y) || exists i :: 0 <= i < |es| && ((x, y) == es[i] || (y, x) == es[i])))
  {
    if es == [] then g
    else
      var prefix := es[..|es| - 1];
      var r0 := AddEdges(g, prefix);
      var r := AddEdge(r0, es[|es| - 1].0, es[|es| - 1].1);
      AddEdgesLast(g, es, prefix, r0, r);
      r
  }

  /** The adjacency of `AddEdges` one pair further on. */
  lemma AddEdgesLast(g: Graph, es: seq<(nat, nat)>, prefix: seq<(nat, nat)>, r0: Graph, r: Graph)
    requires Valid(g) && Valid(r0) && Valid(r) && es != [] && EdgesWithin(es, g.numVertices)
    requires prefix == es[..|es| - 1]
    requires r0.numVertices == g.numVertices == r.numVertices
    requires forall x: nat, y: nat :: x < g.numVertices && y < g.numVertices ==>
      (Adjacent(r0, x, y) <==>
        (Adjacent(g, x, y) || exists i :: 0 <= i < |prefix| && ((x, y) == prefix[i] || (y, x) == prefix[i])))
    requires forall x: nat, y: nat :: x < g.numVertices && y < g.numVertices ==>
      (Adjacent(r, x, y) <==> Adjacent(r0, x, y) || (x, y) == es[|es| - 1] || (y, x) == es[|es| - 1])
    ensures forall x: nat, y: nat :: x < g.numVertices && y < g.numVertices ==>
      (Adjacent(r, x, y) <==>
        (Adjacent(g, x, y) || exists i :: 0 <= i < |es| && ((x, y) == es[i] || (y, x) == es[i])))
  {
    var last := |es| - 1;
    forall x: nat, y: nat | x < g.numVertices && y < g.numVertices
      ensures Adjacent(r, x, y) <==>
        (Adjacent(g, x, y) || exists i :: 0 <= i < |es| && ((x, y) == es[i] || (y, x) == es[i]))
    {
      if (x, y) == es[last] || (y, x) == es[last] {
        assert Adjacent(r, x, y);
      } else if exists i :: 0 <= i < |es| && ((x, y) == es[i] || (y, x) == es[i]) {
        var i :| 0 <= i < |es| && ((x, y) == es[i] || (y, x) == es[i]);
        assert i < last && prefix[i] == es[i];
        assert Adjacent(r0, x, y);
      }
    }
  }

  /** The indices `j < k` with `row[j]` set, smallest first. */
  function AscendingScan(row: seq<bool>, k: nat): (r: seq<nat>)
    requires k <= |row|
    ensures forall i :: 0 <= i < |r| ==> r[i] < k
    ensures forall x: nat :: x in r <==> x < k && row[x]
    ensures forall i, j :: 0 <= i < j < |r| ==> r[i] < r[j]
    ensures |r| == CountTrue(row[..k])
  {
    if k == 0 then []
    else
      assert row[..k][..k - 1] == row[..k - 1];
      AscendingScan(row, k - 1) + (if row[k - 1] then [k - 1] else [])
  }

  /** The indices `j < k` with `row[j]` set, largest first. */
  function DescendingScan(row: seq<bool>, k: nat): (r: seq<nat>)
    requires k <= |row|
    ensures forall i :: 0 <= i < |r| ==> r[i] < k
    ensures forall x: nat :: x in r <==> x < k && row[x]
    ensures forall i, j :: 0 <= i < j < |r| ==> r[i] > r[j]
    ensures |r| == CountTrue(row[..k])
  {
    if k == 0 then []
    else
      assert row[..k][..k - 1] == row[..k - 1];
      (if row[k - 1] then [k - 1] else []) + DescendingScan(row, k - 1)
  }

  /**
   The neighbours of `v` in the order a traversal meets them: a matrix row is
   scanned in the requested direction, a list is walked from its head.
   */
  function Neighbors(g: Graph, v: nat, order: ScanOrder): (r: seq<nat>)
    requires Valid(g) && v < g.numVertices
    ensures forall i :: 0 <= i < |r| ==> r[i] < g.numVertices
    ensures forall x: nat :: x < g.numVertices ==> (x in r <==> Adjacent(g, v, x))
    ensures g.store.MatrixStore? && order == Ascending ==> forall i, j :: 0 <= i < j < |r| ==> r[i] < r[j]
    ensures g.store.MatrixStore? && order == Descending ==> forall i, j :: 0 <= i < j < |r| ==> r[i] > r[j]
    ensures g.store.ListStore? ==> r == g.store.lists[v]
    ensures |r| == Degree(g, v)
  {
    match g.store
    case MatrixStore(rows) =>
      var row := rows[v];
      assert row[..|row|] == row;
      if order == Ascending then AscendingScan(row, |row|) else DescendingScan(row, |row|)
    case ListStore(lists) =>
      lists[v]
  }

  /** Degree of `v` as the statistics count it: the row sum, or the list length. */
  function Degree(g: Graph, v: nat): nat
    requires Valid(g) && v < g.numVertices
  {
    match g.store
    case MatrixStore(rows) => CountTrue(rows[v])
    case ListStore(lists) => |lists[v]|
  }

  /** The degree of every vertex, by vertex number. */
  function Degrees(g: Graph): (r: seq<int>)
    requires Valid(g)
    ensures |r| == g.numVertices
    ensures forall v :: 0 <= v < g.numVertices ==> r[v] == Degree(g, v) >= 0
  {
    seq(g.numVertices, v requires 0 <= v < g.numVertices => Degree(g, v))
  }

  /**
   The degree counts neighbour records: in matrix form the vertices adjacent
   to `v`; in list form the entries of its list, which outnumber the distinct
   neighbours exactly when some record is repeated.
   */
  lemma DegreeCounts(g: Graph, v: nat)
    requires Valid(g) && v < g.numVertices
    ensures g.store.MatrixStore? ==> Degree(g, v) == |set w: nat | w < g.numVertices && Adjacent(g, v, w)|
    ensures g.store.ListStore? ==> |set w: nat | w < g.numVertices && Adjacent(g, v, w)| <= Degree(g, v)
    ensures g.store.ListStore? ==>
      (Degree(g, v) == |set w: nat | w < g.numVertices && Adjacent(g, v, w)| <==> Distinct(g.store.lists[v]))
  {
    if g.store.MatrixStore? {
      var row := g.store.rows[v];
      CountTrueIsSize(row);
      assert TrueSet(row) == set w: nat | w < g.numVertices && Adjacent(g, v, w);
    } else {
      var list := g.store.lists[v];
      ElementsSize(list);
      assert Elements(list) == set w: nat | w < g.numVertices && Adjacent(g, v, w);
    }
  }

  /**
   Each entry of the degree array counts what a scan of that vertex meets, in
   either direction; in matrix form that is the number of its neighbours.
   */
  lemma DegreesCount(g: Graph)
    requires Valid(g)
    ensures |Degrees(g)| == g.numVertices
    ensures forall v :: 0 <= v < g.numVertices ==>
      Degrees(g)[v] == |Neighbors(g, v, Ascending)| == |Neighbors(g, v, Descending)|
    ensures g.store.MatrixStore? ==> forall v :: 0 <= v < g.numVertices ==>
      Degrees(g)[v] == |set w: nat | w < g.numVertices && Adjacent(g, v, w)|
  {
    forall v | 0 <= v < g.numVertices
      ensures g.store.MatrixStore? ==> Degrees(g)[v] == |set w: nat | w < g.numVertices && Adjacent(g, v, w)|
    {
      DegreeCounts(g, v);
    }
  }

  function DegreeSum(g: Graph): int
    requires Valid(g)
  {
    Sum(Degrees(g))
  }

  /**
   In list form every stored edge adds one record to each endpoint's list
   (two to the same list for a self-loop), so the degree sum grows by two.
   */
  lemma ListEdgeAddsTwo(g: Graph, u: nat, v: nat)
    requires Valid(g) && g.store.ListStore? && u < g.numVertices && v < g.numVertices
    ensures DegreeSum(AddEdge(g, u, v)) == DegreeSum(g) + 2
  {
    var r := AddEdge(g, u, v);
    var d := Degrees(g);
    if u == v {
      assert Degrees(r) == d[u := d[u] + 2];
      SumUpdate(d, u, d[u] + 2);
    } else {
      var d1 := d[u := d[u] + 1];
      assert Degrees(r) == d1[v := d1[v] + 1];
      SumUpdate(d, u, d[u] + 1);
      SumUpdate(d1, v, d1[v] + 1);
    }
  }

  /**
   In matrix form a new edge between two distinct vertices sets two cells, so
   the degree sum grows by two; a new self-loop sets one cell, so it grows by
   one; repeating an edge already present sets nothing new, so the degree sum
   stays. The edge counter grows by one in every case.
   */
  lemma MatrixEdgeDegreeSum(g: Graph, u: nat, v: nat)
    requires Valid(g) && g.store.MatrixStore? && u < g.numVertices && v < g.numVertices
    requires Adjacent(g, u, v) <==> Adjacent(g, v, u)
    ensures AddEdge(g, u, v).numEdges == g.numEdges + 1
    ensures u != v && !Adjacent(g, u, v) ==> DegreeSum(AddEdge(g, u, v)) == DegreeSum(g) + 2
    ensures u == v && !Adjacent(g, u, v) ==> DegreeSum(AddEdge(g, u, v)) == DegreeSum(g) + 1
    ensures Adjacent(g, u, v) ==> DegreeSum(AddEdge(g, u, v)) == DegreeSum(g)
  {
    if Adjacent(g, u, v) {
      MatrixRepeatDegrees(g, u, v);
    } else if u != v {
      MatrixNewSum(g, u, v);
    } else {
      MatrixLoopDegrees(g, u);
      SumUpdate(Degrees(g), u, Degrees(g)[u] + 1);
    }
  }

  /** A new matrix self-loop raises the degree of its vertex by one. */
  lemma MatrixLoopDegrees(g: Graph, u: nat)
    requires Valid(g) && g.store.MatrixStore? && u < g.numVertices && !Adjacent(g, u, u)
    ensures var d := Degrees(g);
      Degrees(AddEdge(g, u, u)) == d[u := d[u] + 1]
  {
    var rows := g.store.rows;
    var r := AddEdge(g, u, u);
    var d := Degrees(g);
    var row := rows[u][u := true];
    assert row[u := true] == row;
    assert r.store.rows == rows[u := row][u := row];
    assert r.store.rows == rows[u := row];
    CountTrueSet(rows[u], u);
    forall x | 0 <= x < g.numVertices
      ensures Degrees(r)[x] == d[u := d[u] + 1][x]
    {
      if x != u {
        assert r.store.rows[x] == rows[x];
      }
    }
  }

  /** Repeating a matrix edge leaves every degree as it was. */
  lemma MatrixRepeatDegrees(g: Graph, u: nat, v: nat)
    requires Valid(g) && g.store.MatrixStore? && u < g.numVertices && v < g.numVertices
    requires Adjacent(g, u, v) && Adjacent(g, v, u)
    ensures Degrees(AddEdge(g, u, v)) == Degrees(g)
  {
    assert AddEdge(g, u, v).store == g.store;
  }

  /** A new matrix edge between distinct vertices raises exactly their two degrees by one. */
  lemma MatrixNewDegrees(g: Graph, u: nat, v: nat)
    requires Valid(g) && g.store.MatrixStore? && u < g.numVertices && v < g.numVertices
    requires u != v && !Adjacent(g, u, v) && !Adjacent(g, v, u)
    ensures var d := Degrees(g);
      Degrees(AddEdge(g, u, v)) == d[u := d[u] + 1][v := d[v] + 1]
  {
    var rows := g.store.rows;
    var r := AddEdge(g, u, v);
    var d := Degrees(g);
    var d1 := d[u := d[u] + 1];
    var e := d1[v := d[v] + 1];
    assert r.store.rows == rows[u := rows[u][v := true]][v := rows[v][u := true]];
    CountTrueSet(rows[u], v);
    CountTrueSet(rows[v], u);
    forall x | 0 <= x < g.numVertices
      ensures Degrees(r)[x] == e[x]
    {
      if x != u && x != v {
        assert r.store.rows[x] == rows[x];
      }
    }
  }

  lemma MatrixNewSum(g: Graph, u: nat, v: nat)
    requires Valid(g) && g.store.MatrixStore? && u < g.numVertices && v < g.numVertices
    requires u != v && !Adjacent(g, u, v) && !Adjacent(g, v, u)
    ensures DegreeSum(AddEdge(g, u, v)) == DegreeSum(g) + 2
  {
    MatrixNewDegrees(g, u, v);
    SumRaiseTwo(Degrees(g), u, v);
  }

  /**
   A list-form graph built by `AddEdge` alone has a degree sum of exactly
   twice its edge counter.
   */
  lemma {:induction false} ListHandshake(n: nat, es: seq<(nat, nat)>)
    requires EdgesWithin(es, n)
    ensures DegreeSum(AddEdges(Create(n, Lists), es)) == 2 * AddEdges(Create(n, Lists), es).numEdges
  {
    var g0 := Create(n, Lists);
    if es == [] {
      assert Degrees(g0) == seq(n, _ => 0);
      SumZero(n);
    } else {
      var prefix := es[..|es| - 1];
      assert EdgesWithin(prefix, n);
      ListHandshake(n, prefix);
      var last := es[|es| - 1];
      ListEdgeAddsTwo(AddEdges(g0, prefix), last.0, last.1);
    }
  }

  lemma {:induction false} SumZero(n: nat)
    ensures Sum(seq(n, _ => 0)) == 0
  {
    if n > 0 {
      assert seq(n, _ => 0)[..n - 1] == seq(n - 1, _ => 0);
      SumZero(n - 1);
    }
  }

  /** A graph built from nothing by the ingestion loop is symmetric. */
  lemma ReadEdgesSymmetric(n: nat, kind: Kind, pairs: seq<(int, int)>)
    ensures Symmetric(ReadEdges(Create(n, kind), pairs))
  {
  }

  /** The list of `x` after the edge write of pair `p` on top of `acc`. */
  function Prepended(p: (int, int), n: nat, x: nat, acc: seq<nat>): seq<nat> {
    if !InRange(p, n) then acc
    else
      var u, v := p.0 - 1, p.1 - 1;
      if x == u && x == v then [u, v] + acc
      else if x == v then [u] + acc
      else if x == u then [v] + acc
      else acc
  }

  /**
   The list of `x` after the whole stream on top of `acc`, pairs taken
   first to last: each in-range pair naming `x` puts its other end at the head.
   */
  function StoredList(pairs: seq<(int, int)>, n: nat, x: nat, acc: seq<nat>): seq<nat>
    decreases |pairs|
  {
    if pairs == [] then acc else StoredList(pairs[1..], n, x, Prepended(pairs[0], n, x, acc))
  }

  lemma {:induction false} StoredListLast(pairs: seq<(int, int)>, p: (int, int), n: nat, x: nat, acc: seq<nat>)
    ensures StoredList(pairs + [p], n, x, acc) == Prepended(p, n, x, StoredList(pairs, n, x, acc))
    decreases |pairs|
  {
    if pairs == [] {
      assert pairs + [p] == [p];
    } else {
      assert (pairs + [p])[1..] == pairs[1..] + [p];
      StoredListLast(pairs[1..], p, n, x, Prepended(pairs[0], n, x, acc));
    }
  }

  /** Reading two streams one after the other prepends what the second adds to what the first left. */
  lemma {:induction false} StoredListConcat(a: seq<(int, int)>, b: seq<(int, int)>, n: nat, x: nat, acc: seq<nat>)
    ensures StoredList(a + b, n, x, acc) == StoredList(b, n, x, StoredList(a, n, x, acc))
    decreases |a|
  {
    if a == [] {
      assert a + b == b;
    } else {
      assert (a + b)[1..] == a[1..] + b;
      StoredListConcat(a[1..], b, n, x, Prepended(a[0], n, x, acc));
    }
  }

  /** One edge write in list form prepends to each list what `Prepended` says. */
  lemma InsertPairList(g: Graph, p: (int, int), x: nat)
    requires Valid(g) && g.store.ListStore? && x < g.numVertices
    ensures InsertPair(g, p).store.ListStore?
    ensures InsertPair(g, p).store.lists[x] == Prepended(p, g.numVertices, x, g.store.lists[x])
  {
  }

  /** The ingestion loop stores the last pair after all the others. */
  lemma ReadEdgesLast(g: Graph, prefix: seq<(int, int)>, p: (int, int))
    requires Valid(g)
    ensures ReadEdges(g, prefix + [p]) == InsertPair(ReadEdges(g, prefix), p)
  {
    assert (prefix + [p])[..|prefix|] == prefix;
  }

  /**
   In list form the ingestion loop leaves in each vertex's list the other
   end of every in-range pair naming it, newest first, ahead of what the
   list held before.
   */
  lemma {:induction false} ReadEdgesLists(g: Graph, pairs: seq<(int, int)>)
    requires Valid(g) && g.store.ListStore?
    ensures ReadEdges(g, pairs).store.ListStore?
    ensures forall x :: 0 <= x < g.numVertices ==>
      ReadEdges(g, pairs).store.lists[x] == StoredList(pairs, g.numVertices, x, g.store.lists[x])
  {
    if pairs != [] {
      var prefix, p := pairs[..|pairs| - 1], pairs[|pairs| - 1];
      assert pairs == prefix + [p];
      ReadEdgesLists(g, prefix);
      var h := ReadEdges(g, prefix);
      ReadEdgesLast(g, prefix, p);
      forall x | 0 <= x < g.numVertices
        ensures ReadEdges(g, pairs).store.lists[x] == StoredList(pairs, g.numVertices, x, g.store.lists[x])
      {
        InsertPairList(h, p, x);
        StoredListLast(prefix, p, g.numVertices, x, g.store.lists[x]);
      }
    }
  }
}

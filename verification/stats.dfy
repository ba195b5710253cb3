/**
 Degree statistics of a graph (EstatisticasGrafo): the edge count derived
 from the degree sum, the least and greatest degree, and the median degree.
 The mean is a float and is not part of this model.
 */
module DegreeStats {
  import opened Seqs
  import opened Graphs

  datatype Stats = Stats(numVertices: nat, numEdges: int, minDegree: int, maxDegree: int, median: int)

  /** C's `x / 2` on `int`: the quotient truncated toward zero. */
  function Halve(x: int): (r: int)
    ensures x >= 0 ==> 0 <= x - 2 * r <= 1
    ensures x < 0 ==> 0 <= 2 * r - x <= 1
  {
    if x >= 0 then x / 2 else -((-x) / 2)
  }

  /**
   compararInteiros: the difference of the two values, whose sign orders
   them. Degrees are small non-negative numbers, so the C subtraction does not
   overflow on them.
   */
  function Compare(a: int, b: int): (r: int)
    ensures r < 0 <==> a < b
    ensures r == 0 <==> a == b
    ensures r > 0 <==> a > b
  {
    a - b
  }

  /** What qsort leaves under `Compare`, no entry comparing above a later one, is exactly a sorted sequence. */
  lemma CompareOrder(s: seq<int>)
    ensures Sorted(s) <==> forall i, j :: 0 <= i < j < |s| ==> Compare(s[i], s[j]) <= 0
  {
  }

  /** The running minimum of the statistics loop, started at `init`. */
  function MinFrom(init: int, ds: seq<int>): (r: int)
    ensures r <= init && forall i :: 0 <= i < |ds| ==> r <= ds[i]
    ensures r == init || exists i :: 0 <= i < |ds| && r == ds[i]
  {
    if ds == [] then init
    else
      var m := MinFrom(init, ds[..|ds| - 1]);
      if ds[|ds| - 1] < m then ds[|ds| - 1] else m
  }

  /** The running maximum of the statistics loop, started at `init`. */
  function MaxFrom(init: int, ds: seq<int>): (r: int)
    ensures r >= init && forall i :: 0 <= i < |ds| ==> r >= ds[i]
    ensures r == init || exists i :: 0 <= i < |ds| && r == ds[i]
  {
    if ds == [] then init
    else
      var m := MaxFrom(init, ds[..|ds| - 1]);
      if ds[|ds| - 1] > m then ds[|ds| - 1] else m
  }

  /**
   The least degree as the loop computes it: the running minimum starts at
   the vertex count, so it never reports more than the vertex count.
   */
  function MinDegreeAsWritten(g: Graph): (r: int)
    requires Valid(g)
    ensures r <= g.numVertices
    ensures forall v :: 0 <= v < g.numVertices ==> r <= Degree(g, v)
    ensures r == g.numVertices || exists v :: 0 <= v < g.numVertices && r == Degree(g, v)
  {
    MinFrom(g.numVertices, Degrees(g))
  }

  /** The least degree, with the running minimum started at the first degree. */
  function MinDegree(g: Graph): (r: int)
    requires Valid(g) && g.numVertices > 0
    ensures forall v :: 0 <= v < g.numVertices ==> r <= Degree(g, v)
    ensures exists v :: 0 <= v < g.numVertices && r == Degree(g, v)
  {
    MinFrom(Degree(g, 0), Degrees(g))
  }

  /** The greatest degree; the running maximum starts at 0, below every degree. */
  function MaxDegree(g: Graph): (r: int)
    requires Valid(g)
    ensures forall v :: 0 <= v < g.numVertices ==> r >= Degree(g, v)
    ensures g.numVertices > 0 ==> exists v :: 0 <= v < g.numVertices && r == Degree(g, v)
    ensures g.numVertices == 0 ==> r == 0
  {
    MaxFrom(0, Degrees(g))
  }

  /**
   The median of the sorted values: the middle one for an odd count, the
   C-truncated average of the two middle ones for an even count. At least
   half of the values lie on either side of it.
   */
  function Median(ds: seq<int>): (r: int)
    requires |ds| > 0
    ensures |ds| <= 2 * CountSide(ds, r, true) && |ds| <= 2 * CountSide(ds, r, false)
    ensures exists i :: 0 <= i < |ds| && ds[i] <= r
    ensures exists j :: 0 <= j < |ds| && r <= ds[j]
    ensures |ds| % 2 == 1 ==> r in ds
    // The value is that of the middle of any sorted arrangement of the values, which is what qsort leaves.
    ensures forall s :: Sorted(s) && multiset(s) == multiset(ds) ==> |s| == |ds| && r == Middle(s)
  {
    var s := Sort(ds);
    MiddleBetween(s);
    MedianOfSorted(ds, s, Middle(s));
    SortedArrangements(ds);
    Middle(s)
  }

  /** The middle entry of a sequence, or C's truncated average of the two middle entries for an even length. */
  function Middle(s: seq<int>): int
    requires |s| > 0
  {
    var n := |s|;
    if n % 2 == 0 then Halve(s[n / 2 - 1] + s[n / 2]) else s[n / 2]
  }

  /** In a sorted sequence the middle value lies between the two middle entries. */
  lemma MiddleBetween(s: seq<int>)
    requires |s| > 0 && Sorted(s)
    ensures |s| % 2 == 0 ==> s[|s| / 2 - 1] <= Middle(s) <= s[|s| / 2]
    ensures |s| % 2 == 1 ==> Middle(s) == s[|s| / 2]
  {
  }

  /** Every sorted arrangement of `ds` is its sorted copy. */
  lemma SortedArrangements(ds: seq<int>)
    ensures forall s :: Sorted(s) && multiset(s) == multiset(ds) ==> |s| == |ds| && s == Sort(ds)
  {
    forall s | Sorted(s) && multiset(s) == multiset(ds)
      ensures |s| == |ds| && s == Sort(ds)
    {
      assert |s| == |multiset(s)| == |multiset(ds)| == |ds|;
      SortedUnique(s, Sort(ds));
    }
  }

  /** A value between the middle entries of a sorted copy splits the values in halves. */
  lemma MedianOfSorted(ds: seq<int>, s: seq<int>, r: int)
    requires |ds| > 0 && Sorted(s) && multiset(s) == multiset(ds)
    requires |s| == |ds|
    requires |s| % 2 == 0 ==> s[|s| / 2 - 1] <= r <= s[|s| / 2]
    requires |s| % 2 == 1 ==> r == s[|s| / 2]
    ensures |ds| <= 2 * CountSide(ds, r, true) && |ds| <= 2 * CountSide(ds, r, false)
    ensures exists i :: 0 <= i < |ds| && ds[i] <= r
    ensures exists j :: 0 <= j < |ds| && r <= ds[j]
    ensures |ds| % 2 == 1 ==> r in ds
  {
    var n := |s|;
    var m := n / 2;
    if n % 2 == 0 {
      CountAtMostPrefix(s, m, r);
      CountAtLeastSuffix(s, m, r);
    } else {
      CountAtMostPrefix(s, m + 1, r);
      CountAtLeastSuffix(s, m, r);
    }
    CountSidePermutation(s, ds, r, true);
    CountSidePermutation(s, ds, r, false);
    assert s[0] in multiset(ds) && s[n - 1] in multiset(ds) && s[m] in multiset(ds);
  }

  /** The median depends only on the values, not on their order. */
  lemma MedianPermutation(a: seq<int>, b: seq<int>)
    requires |a| > 0 && multiset(a) == multiset(b)
    ensures |b| > 0 && Median(a) == Median(b)
  {
    assert |a| == |multiset(a)| == |b|;
    SortedUnique(Sort(a), Sort(b));
  }

  /**
   calcularEstatisticasGrafo without the mean. The source reads outside its
   degree array for a graph without vertices, so the graph must have one.
   The least degree is the loop's, capped at the vertex count.
   */
  function ComputeStats(g: Graph): (r: Stats)
    requires Valid(g) && g.numVertices > 0
    ensures r.numVertices == g.numVertices
    ensures 2 * r.numEdges <= DegreeSum(g) <= 2 * r.numEdges + 1
    ensures r.minDegree == if MinDegree(g) < g.numVertices then MinDegree(g) else g.numVertices
    ensures forall v :: 0 <= v < g.numVertices ==> r.minDegree <= Degree(g, v) <= r.maxDegree
    ensures exists v :: 0 <= v < g.numVertices && r.maxDegree == Degree(g, v)
    ensures r.minDegree <= r.median <= r.maxDegree
    ensures g.numVertices <= 2 * CountSide(Degrees(g), r.median, true)
    ensures g.numVertices <= 2 * CountSide(Degrees(g), r.median, false)
    ensures forall s :: Sorted(s) && multiset(s) == multiset(Degrees(g)) ==> |s| == g.numVertices && r.median == Middle(s)
    // The median is read off the degrees as qsort arranges them under the comparator.
    ensures forall s :: (forall i, j :: 0 <= i < j < |s| ==> Compare(s[i], s[j]) <= 0) && multiset(s) == multiset(Degrees(g)) ==>
      r.median == Middle(s)
  {
    var ds := Degrees(g);
    forall s | (forall i, j :: 0 <= i < j < |s| ==> Compare(s[i], s[j]) <= 0)
      ensures Sorted(s)
    {
      CompareOrder(s);
    }
    SumNonNegative(ds);
    MinAsWrittenCapped(g);
    Stats(g.numVertices, Halve(DegreeSum(g)), MinDegreeAsWritten(g), MaxDegree(g), Median(ds))
  }

  /** The statistics with the least degree taken over the degrees alone. */
  function CorrectedStats(g: Graph): (r: Stats)
    requires Valid(g) && g.numVertices > 0
    ensures forall v :: 0 <= v < g.numVertices ==> r.minDegree <= Degree(g, v) <= r.maxDegree
    ensures exists v :: 0 <= v < g.numVertices && r.minDegree == Degree(g, v)
    ensures r.minDegree <= r.median <= r.maxDegree
    // Everything but the least degree is as the loop computes it.
    ensures r.numVertices == ComputeStats(g).numVertices && r.numEdges == ComputeStats(g).numEdges
    ensures r.maxDegree == ComputeStats(g).maxDegree && r.median == ComputeStats(g).median
  {
    var c := ComputeStats(g);
    c.(minDegree := MinDegree(g))
  }

  /** The loop's least degree is the true least degree, capped at the vertex count. */
  lemma MinAsWrittenCapped(g: Graph)
    requires Valid(g) && g.numVertices > 0
    ensures MinDegreeAsWritten(g) == if MinDegree(g) < g.numVertices then MinDegree(g) else g.numVertices
  {
  }

  /** In matrix form no degree exceeds the vertex count, so the cap never bites. */
  lemma MatrixMinAgrees(g: Graph)
    requires Valid(g) && g.numVertices > 0 && g.store.MatrixStore?
    ensures MinDegreeAsWritten(g) == MinDegree(g)
    ensures ComputeStats(g) == CorrectedStats(g)
  {
    var v :| 0 <= v < g.numVertices && MinDegree(g) == Degree(g, v);
    assert Degree(g, v) <= |g.store.rows[v]|;
  }

  /**
   In list form a repeated edge or a self-loop can give every vertex more
   neighbours than there are vertices: one vertex with a self-loop has degree
   two, yet the loop reports a least degree of one.
   */
  lemma SelfLoopMinDegree()
    ensures var g := ReadEdges(Create(1, Lists), [(1, 1)]);
      Degree(g, 0) == 2 && MinDegreeAsWritten(g) == 1 && MinDegree(g) == 2
    ensures var g := ReadEdges(Create(1, Lists), [(1, 1)]);
      ComputeStats(g).minDegree == 1 && CorrectedStats(g).minDegree == 2
  {
    var g0 := Create(1, Lists);
    var g := ReadEdges(g0, [(1, 1)]);
    assert [(1, 1)][..0] == [];
    assert g == InsertPair(g0, (1, 1));
    assert g.store.lists[0] == [0, 0];
    assert Degrees(g) == [2];
  }

  /** How many pairs of the edge stream lie in range for `n` vertices. */
  function InRangeCount(pairs: seq<(int, int)>, n: nat): (c: nat)
    ensures c <= |pairs|
  {
    if pairs == [] then 0
    else InRangeCount(pairs[..|pairs| - 1], n) + (if InRange(pairs[|pairs| - 1], n) then 1 else 0)
  }

  /** Storing an in-range pair in list form adds two to the degree sum. */
  lemma ListPairAddsTwo(g: Graph, p: (int, int))
    requires Valid(g) && g.store.ListStore? && InRange(p, g.numVertices)
    ensures DegreeSum(InsertPair(g, p)) == DegreeSum(g) + 2
  {
    var u, v := p.0 - 1, p.1 - 1;
    ListEdgeAddsTwo(g, u, v);
    assert Degrees(InsertPair(g, p)) == Degrees(AddEdge(g, u, v));
  }

  /** In list form the degree sum of an ingested stream is twice its in-range pairs. */
  lemma {:induction false} ListDegreeSum(n: nat, pairs: seq<(int, int)>)
    ensures DegreeSum(ReadEdges(Create(n, Lists), pairs)) == 2 * InRangeCount(pairs, n)
  {
    var g0 := Create(n, Lists);
    if pairs == [] {
      assert Degrees(g0) == seq(n, _ => 0);
      SumZero(n);
    } else {
      var prefix := pairs[..|pairs| - 1];
      ListDegreeSum(n, prefix);
      var g := ReadEdges(g0, prefix);
      if InRange(pairs[|pairs| - 1], n) {
        ListPairAddsTwo(g, pairs[|pairs| - 1]);
      }
    }
  }

  /** The statistics of a list-form graph count every in-range pair of the stream as one edge. */
  lemma ListStatsEdges(n: nat, pairs: seq<(int, int)>)
    requires n > 0
    ensures ComputeStats(ReadEdges(Create(n, Lists), pairs)).numEdges == InRangeCount(pairs, n)
  {
    ListDegreeSum(n, pairs);
  }
}

/**
 What both traversals produce besides their labels: the visit report, one
 line per visited vertex in visit order, and the tree edges derived from it.
 */
module Visits {
  import opened Seqs
  import opened Graphs
  import opened Reachability

  /**
   One line of the visit report: the vertex, its parent and its level. Vertex
   numbers are 0-based here; the report file shows them plus one.
   */
  datatype Visit = Visit(vertex: nat, parent: nat, level: int)

  /** The visited vertices in visit order. */
  function Order(visits: seq<Visit>): (r: seq<nat>)
    ensures |r| == |visits|
    ensures forall i :: 0 <= i < |visits| ==> r[i] == visits[i].vertex
  {
    seq(|visits|, i requires 0 <= i < |visits| => visits[i].vertex)
  }

  /** The tree edges a traversal adds: each visited vertex after the first, joined to its parent. */
  function TreeEdges(visits: seq<Visit>): (r: seq<(nat, nat)>)
    ensures |r| == if visits == [] then 0 else |visits| - 1
    ensures forall i :: 0 <= i < |r| ==> r[i] == (visits[i + 1].vertex, visits[i + 1].parent)
  {
    if visits == [] then []
    else seq(|visits| - 1, i requires 0 <= i < |visits| - 1 => (visits[i + 1].vertex, visits[i + 1].parent))
  }

  /**
   Each tree edge hangs a vertex that no earlier edge reached off one that is
   already reached, starting from the first visited vertex, and the edges reach
   exactly the visited vertices.
   */
  lemma TreeEdgesSpan(visits: seq<Visit>)
    requires Distinct(Order(visits))
    requires forall j :: 0 < j < |visits| ==> visits[j].parent in Order(visits)[..j]
    ensures forall i :: 0 <= i < |TreeEdges(visits)| ==>
      && TreeEdges(visits)[i].1 in Order(visits)[..i + 1]
      && TreeEdges(visits)[i].0 !in Order(visits)[..i + 1]
    ensures forall x :: x in Order(visits) <==>
      ((|visits| > 0 && x == visits[0].vertex) || exists i :: 0 <= i < |TreeEdges(visits)| && TreeEdges(visits)[i].0 == x)
  {
    var es := TreeEdges(visits);
    var order := Order(visits);
    forall x | x in order
      ensures (|visits| > 0 && x == visits[0].vertex) || exists i :: 0 <= i < |es| && es[i].0 == x
    {
      var k :| 0 <= k < |order| && order[k] == x;
      if k > 0 {
        assert es[k - 1].0 == x;
      }
    }
  }

  /**
   Added to `tree0` to give `tree`, the tree edges of a report in which every
   later vertex hangs off an earlier one connect every reported vertex to the
   first. When `tree0` has no edges, the vertices the tree connects to the
   first are exactly the reported ones.
   */
  lemma TreeSpans(tree0: Graph, visits: seq<Visit>, tree: Graph)
    requires Valid(tree0) && visits != [] && TreeFollows(tree0, visits, tree)
    requires forall i :: 0 <= i < |visits| ==> visits[i].vertex < tree0.numVertices && visits[i].parent < tree0.numVertices
    requires forall j :: 0 < j < |visits| ==> visits[j].parent in Order(visits)[..j]
    ensures forall x :: x in Order(visits) ==> Reachable(tree, visits[0].vertex, x)
    ensures (forall x: nat, y: nat :: x < tree0.numVertices && y < tree0.numVertices ==> !Adjacent(tree0, x, y)) ==>
      forall x: nat :: x < tree0.numVertices ==> (Reachable(tree, visits[0].vertex, x) <==> x in Order(visits))
  {
    TreeLinks(tree0, visits, tree);
    ReportedReachable(tree, visits);
    if forall x: nat, y: nat :: x < tree0.numVertices && y < tree0.numVertices ==> !Adjacent(tree0, x, y) {
      TreeEnds(tree0, visits, tree);
      ReachableReported(tree, visits);
    }
  }

  /** Along links joining each later reported vertex to an earlier parent, every reported vertex is reachable from the first. */
  lemma ReportedReachable(tree: Graph, visits: seq<Visit>)
    requires Valid(tree) && visits != []
    requires forall i :: 0 <= i < |visits| ==> visits[i].vertex < tree.numVertices && visits[i].parent < tree.numVertices
    requires forall i :: 0 < i < |visits| ==> visits[i].parent in Order(visits)[..i]
    requires forall i :: 0 < i < |visits| ==> Adjacent(tree, visits[i].parent, visits[i].vertex)
    ensures forall x :: x in Order(visits) ==> Reachable(tree, visits[0].vertex, x)
  {
    forall x | x in Order(visits)
      ensures Reachable(tree, visits[0].vertex, x)
    {
      var j :| 0 <= j < |visits| && Order(visits)[j] == x;
      VisitInBall(tree, visits, j);
    }
  }

  /** When every link ends at a reported vertex, only reported vertices are reachable from the first. */
  lemma ReachableReported(tree: Graph, visits: seq<Visit>)
    requires Valid(tree) && visits != [] && visits[0].vertex < tree.numVertices
    requires forall x: nat, y: nat :: x < tree.numVertices && y < tree.numVertices && Adjacent(tree, x, y) ==> y in Order(visits)
    ensures forall x: nat :: x < tree.numVertices && Reachable(tree, visits[0].vertex, x) ==> x in Order(visits)
  {
    forall x: nat | x < tree.numVertices && Reachable(tree, visits[0].vertex, x)
      ensures x in Order(visits)
    {
      var k :| x in Ball(tree, visits[0].vertex, k);
      BallWithinOrder(tree, visits, k);
    }
  }

  /** Over an edgeless `tree0`, every link of the tree ends at a reported vertex. */
  lemma TreeEnds(tree0: Graph, visits: seq<Visit>, tree: Graph)
    requires Valid(tree0) && TreeFollows(tree0, visits, tree)
    requires forall j :: 0 < j < |visits| ==> visits[j].parent in Order(visits)[..j]
    requires forall x: nat, y: nat :: x < tree0.numVertices && y < tree0.numVertices ==> !Adjacent(tree0, x, y)
    ensures Valid(tree) && tree.numVertices == tree0.numVertices
    ensures forall x: nat, y: nat :: x < tree.numVertices && y < tree.numVertices && Adjacent(tree, x, y) ==> y in Order(visits)
  {
    LinkEnds(tree0, visits, tree);
  }

  /** The tree links every later reported vertex with its parent. */
  lemma TreeLinks(tree0: Graph, visits: seq<Visit>, tree: Graph)
    requires Valid(tree0) && TreeFollows(tree0, visits, tree)
    requires forall i :: 0 <= i < |visits| ==> visits[i].vertex < tree0.numVertices && visits[i].parent < tree0.numVertices
    ensures Valid(tree) && tree.numVertices == tree0.numVertices
    ensures forall j :: 0 < j < |visits| ==> Adjacent(tree, visits[j].parent, visits[j].vertex)
  {
    var es := TreeEdges(visits);
    forall j | 0 < j < |visits|
      ensures Adjacent(tree, visits[j].parent, visits[j].vertex)
    {
      assert (visits[j].vertex, visits[j].parent) == es[j - 1];
    }
  }

  /** `TreeEnds`, from the links the tree edges add rather than from the tree's construction. */
  lemma LinkEnds(tree0: Graph, visits: seq<Visit>, tree: Graph)
    requires Valid(tree0) && Valid(tree) && tree.numVertices == tree0.numVertices
    requires forall x: nat, y: nat :: x < tree0.numVertices && y < tree0.numVertices ==>
      (Adjacent(tree, x, y) <==>
        (Adjacent(tree0, x, y) || exists i :: 0 <= i < |TreeEdges(visits)| && ((x, y) == TreeEdges(visits)[i] || (y, x) == TreeEdges(visits)[i])))
    requires forall j :: 0 < j < |visits| ==> visits[j].parent in Order(visits)[..j]
    requires forall x: nat, y: nat :: x < tree0.numVertices && y < tree0.numVertices ==> !Adjacent(tree0, x, y)
    ensures forall x: nat, y: nat :: x < tree.numVertices && y < tree.numVertices && Adjacent(tree, x, y) ==> y in Order(visits)
  {
    var es := TreeEdges(visits);
    EdgeEnds(visits);
    forall x: nat, y: nat | x < tree.numVertices && y < tree.numVertices && Adjacent(tree, x, y)
      ensures y in Order(visits)
    {
      var i :| 0 <= i < |es| && ((x, y) == es[i] || (y, x) == es[i]);
    }
  }

  /** Both ends of every tree edge are reported vertices. */
  lemma EdgeEnds(visits: seq<Visit>)
    requires forall j :: 0 < j < |visits| ==> visits[j].parent in Order(visits)[..j]
    ensures forall i :: 0 <= i < |TreeEdges(visits)| ==>
      TreeEdges(visits)[i].0 in Order(visits) && TreeEdges(visits)[i].1 in Order(visits)
  {
    var order := Order(visits);
    forall i | 0 <= i < |TreeEdges(visits)|
      ensures TreeEdges(visits)[i].0 in order && TreeEdges(visits)[i].1 in order
    {
      assert visits[i + 1].parent in order[..i + 1];
      assert order[i + 1] == visits[i + 1].vertex;
    }
  }

  /** The `j`-th reported vertex is within `j` hops of the first along edges joining each later vertex to its parent. */
  lemma {:induction false} VisitInBall(tree: Graph, visits: seq<Visit>, j: nat)
    requires Valid(tree) && j < |visits|
    requires forall i :: 0 <= i < |visits| ==> visits[i].vertex < tree.numVertices && visits[i].parent < tree.numVertices
    requires forall i :: 0 < i < |visits| ==> visits[i].parent in Order(visits)[..i]
    requires forall i :: 0 < i < |visits| ==> Adjacent(tree, visits[i].parent, visits[i].vertex)
    ensures visits[j].vertex in Ball(tree, visits[0].vertex, j)
    decreases j
  {
    if j > 0 {
      var i := EarlierIndex(visits, j);
      VisitInBall(tree, visits, i);
      var root, p, v := visits[0].vertex, visits[j].parent, visits[j].vertex;
      StepInto(tree, root, i, j, p, v);
    }
  }

  /** Where in the report the parent of the `j`-th vertex appears. */
  lemma EarlierIndex(visits: seq<Visit>, j: nat) returns (i: nat)
    requires j < |visits| && visits[j].parent in Order(visits)[..j]
    ensures i < j && visits[i].vertex == visits[j].parent
  {
    var order := Order(visits);
    i :| 0 <= i < j && order[..j][i] == visits[j].parent;
  }

  /** When every link of `tree` ends at a reported vertex, so does every hop from the first reported vertex. */
  lemma {:induction false} BallWithinOrder(tree: Graph, visits: seq<Visit>, k: nat)
    requires Valid(tree) && visits != [] && visits[0].vertex < tree.numVertices
    requires forall x: nat, y: nat :: x < tree.numVertices && y < tree.numVertices && Adjacent(tree, x, y) ==> y in Order(visits)
    ensures forall x :: x in Ball(tree, visits[0].vertex, k) ==> x in Order(visits)
    decreases k
  {
    if k > 0 {
      BallWithinOrder(tree, visits, k - 1);
    } else {
      assert Order(visits)[0] == visits[0].vertex;
    }
  }

  lemma OrderAppend(visits: seq<Visit>, v: Visit)
    ensures Order(visits + [v]) == Order(visits) + [v.vertex]
    ensures Order(visits + [v])[..|visits|] == Order(visits)
  {
  }

  /** Appending a visit after the first adds its tree edge, and the tree grows by one `AddEdge`. */
  lemma TreeGrows(tree0: Graph, visits: seq<Visit>, v: Visit)
    requires Valid(tree0) && visits != []
    requires EdgesWithin(TreeEdges(visits), tree0.numVertices)
    requires v.vertex < tree0.numVertices && v.parent < tree0.numVertices
    ensures EdgesWithin(TreeEdges(visits + [v]), tree0.numVertices)
    ensures AddEdges(tree0, TreeEdges(visits + [v])) == AddEdge(AddEdges(tree0, TreeEdges(visits)), v.vertex, v.parent)
  {
    var es := TreeEdges(visits);
    var es1 := TreeEdges(visits + [v]);
    assert |es1| == |es| + 1;
    assert es1[..|es1| - 1] == es by {
      forall i | 0 <= i < |es|
        ensures es1[i] == es[i]
      {
        assert (visits + [v])[i + 1] == visits[i + 1];
      }
    }
    assert es1[|es1| - 1] == (v.vertex, v.parent);
    assert EdgesWithin(es1, tree0.numVertices);
  }

  /**
   The report of a traversal from `start` agrees with its final marks and
   labels: the start comes first as its own parent at level 0, the marked
   vertices are exactly the reported ones, each reported once, each line
   shows the final labels of its vertex, and every later vertex hangs off a
   neighbour reported before it, one level deeper.
   */
  predicate Reports(g: Graph, start: nat, visited: seq<bool>, parents: seq<int>, levels: seq<int>, visits: seq<Visit>)
    requires Valid(g) && start < g.numVertices
    requires |visited| == g.numVertices && |parents| == g.numVertices && |levels| == g.numVertices
  {
    && visited[start] && parents[start] == start && levels[start] == 0
    && |visits| > 0 && visits[0] == Visit(start, start, 0)
    && (forall i :: 0 <= i < |visits| ==> visits[i].vertex < g.numVertices && visits[i].parent < g.numVertices)
    && Distinct(Order(visits))
    && (forall v :: 0 <= v < g.numVertices ==> (visited[v] <==> v in Order(visits)))
    && (forall i :: 0 <= i < |visits| ==>
         visits[i].parent == parents[visits[i].vertex] && visits[i].level == levels[visits[i].vertex])
    && forall j :: 0 < j < |visits| ==>
         && visits[j].parent in Order(visits)[..j]
         && Adjacent(g, visits[j].parent, visits[j].vertex)
         && levels[visits[j].vertex] == levels[visits[j].parent] + 1
  }

  /** The tree is `tree0` plus the tree edges of the report. */
  predicate TreeFollows(tree0: Graph, visits: seq<Visit>, tree: Graph)
    requires Valid(tree0)
  {
    EdgesWithin(TreeEdges(visits), tree0.numVertices) && tree == AddEdges(tree0, TreeEdges(visits))
  }

  /**
   The labels of `v` name a visited neighbour as its parent and put `v` one
   level below it.
   */
  predicate Attached(g: Graph, visited: seq<bool>, parents: seq<int>, levels: seq<int>, v: nat)
    requires Valid(g) && v < g.numVertices
    requires |visited| == g.numVertices && |parents| == g.numVertices && |levels| == g.numVertices
  {
    && 0 <= parents[v] < g.numVertices
    && visited[parents[v]]
    && Adjacent(g, parents[v], v)
    && levels[v] == levels[parents[v]] + 1
  }

  /** Exactly the entries of `marked` carry parent `cur` and level `level`; every other slot is as before. */
  predicate Relabelled(parents0: seq<int>, levels0: seq<int>, parents: seq<int>, levels: seq<int>, marked: seq<nat>, cur: nat, level: int)
    requires |parents| == |parents0| && |levels| == |levels0| == |parents0|
  {
    forall v :: 0 <= v < |parents0| ==>
      if v in marked then parents[v] == cur && levels[v] == level
      else parents[v] == parents0[v] && levels[v] == levels0[v]
  }

  lemma RelabelSnoc(parents0: seq<int>, levels0: seq<int>, parents: seq<int>, levels: seq<int>, marked: seq<nat>, cur: nat, level: int, w: nat)
    requires |parents| == |parents0| && |levels| == |levels0| == |parents0| && w < |parents0|
    requires Relabelled(parents0, levels0, parents, levels, marked, cur, level)
    ensures Relabelled(parents0, levels0, parents[w := cur], levels[w := level], marked + [w], cur, level)
  {
  }
}

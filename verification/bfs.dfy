/**
 Breadth-first traversal with a bounded circular queue that builds a tree
 (bfsComFilaArvore). A vertex is marked and labelled when it is enqueued, so
 it enters the queue at most once; the queue, sized to the vertex count,
 therefore never fills. The report lists the vertices in dequeue order.
 */
module BreadthFirst {
  import opened Seqs
  import opened Graphs
  import opened Reachability
  import opened Visits
  import Queues

  /**
   The entries of `xs` that are unmarked and not seen earlier in `xs`, in
   order: what a scan that marks as it goes enqueues.
   */
  function FirstUnmarked(xs: seq<nat>, visited: seq<bool>): (r: seq<nat>)
    requires forall i :: 0 <= i < |xs| ==> xs[i] < |visited|
    ensures forall i :: 0 <= i < |r| ==> r[i] < |visited| && !visited[r[i]]
    ensures Distinct(r)
    decreases |xs|, 0
  {
    if xs == [] then []
    else
      var k := |xs| - 1;
      FirstUnmarkedMembers(xs[..k], visited);
      FirstUnmarked(xs[..k], visited) + (if visited[xs[k]] || xs[k] in xs[..k] then [] else [xs[k]])
  }

  /** The entries picked are exactly the unmarked values of `xs`. */
  lemma {:induction false} FirstUnmarkedMembers(xs: seq<nat>, visited: seq<bool>)
    requires forall i :: 0 <= i < |xs| ==> xs[i] < |visited|
    ensures forall x :: x in FirstUnmarked(xs, visited) <==> x in xs && !visited[x]
    decreases |xs|, 1
  {
    if xs != [] {
      var k := |xs| - 1;
      FirstUnmarkedMembers(xs[..k], visited);
      assert xs == xs[..k] + [xs[k]];
    }
  }

  /**
   The picks come in scan order: whatever `xs` picks before `y` occurs in
   `xs` before every occurrence of `y`.
   */
  lemma {:induction false} FirstUnmarkedOrder(xs: seq<nat>, visited: seq<bool>)
    requires forall i :: 0 <= i < |xs| ==> xs[i] < |visited|
    ensures ScanOrdered(xs, FirstUnmarked(xs, visited))
    decreases |xs|
  {
    if xs != [] {
      var k := |xs| - 1;
      var pre := xs[..k];
      FirstUnmarkedOrder(pre, visited);
      FirstUnmarkedMembers(pre, visited);
      var r0 := FirstUnmarked(pre, visited);
      var r := FirstUnmarked(xs, visited);
      assert r == r0 + (if visited[xs[k]] || xs[k] in pre then [] else [xs[k]]);
      forall a, b, c | 0 <= a < b < |r| && 0 <= c < |xs| && xs[c] == r[b]
        ensures r[a] in xs[..c]
      {
        OrderedSnoc(xs, r0, r, a, b, c);
      }
      assert ScanOrdered(xs, r);
    }
  }

  /** `x` occurs in `xs` before every occurrence of `y`. */
  predicate Before(xs: seq<nat>, x: int, y: int) {
    forall c :: 0 <= c < |xs| && xs[c] == y ==> x in xs[..c]
  }

  /** `r` lists values of `xs` in the order of their occurrences there. */
  predicate ScanOrdered(xs: seq<nat>, r: seq<nat>) {
    forall a, b :: 0 <= a < b < |r| ==> Before(xs, r[a], r[b])
  }

  /** The inductive step of `FirstUnmarkedOrder` for one pair of picks. */
  lemma OrderedSnoc(xs: seq<nat>, r0: seq<nat>, r: seq<nat>, a: nat, b: nat, c: nat)
    requires |xs| > 0 && ScanOrdered(xs[..|xs| - 1], r0)
    requires forall x :: x in r0 ==> x in xs[..|xs| - 1]
    requires r == r0 || (r == r0 + [xs[|xs| - 1]] && xs[|xs| - 1] !in xs[..|xs| - 1])
    requires a < b < |r| && c < |xs| && xs[c] == r[b]
    ensures r[a] in xs[..c]
  {
    var k := |xs| - 1;
    var pre := xs[..k];
    assert r[a] == r0[a];
    if b < |r0| {
      assert r[b] == r0[b];
      assert Before(pre, r0[a], r0[b]);
      if c < k {
        assert pre[c] == xs[c];
        assert pre[..c] == xs[..c];
      } else {
        assert r0[b] in r0;
        var d :| 0 <= d < k && pre[d] == r0[b];
        assert r0[a] in pre[..d];
        var e :| 0 <= e < d && pre[..d][e] == r0[a];
        assert xs[..c][e] == r0[a];
      }
    } else {
      assert forall i :: 0 <= i < k ==> pre[i] == xs[i];
      assert c == k;
      assert r0[a] in r0;
      assert xs[..c] == pre;
    }
  }

  lemma FirstUnmarkedStep(xs: seq<nat>, k: nat, visited: seq<bool>)
    requires forall i :: 0 <= i < |xs| ==> xs[i] < |visited|
    requires k < |xs|
    ensures FirstUnmarked(xs[..k + 1], visited) ==
      FirstUnmarked(xs[..k], visited) + (if visited[xs[k]] || xs[k] in xs[..k] then [] else [xs[k]])
  {
    assert xs[..k + 1][..k] == xs[..k];
  }

  /** `visited` is `visited0` with the entries of `xs[..k]` marked. */
  predicate MarkedUpTo(visited0: seq<bool>, visited: seq<bool>, xs: seq<nat>, k: nat)
    requires |visited| == |visited0| && k <= |xs|
  {
    forall v :: 0 <= v < |visited0| ==> (visited[v] <==> visited0[v] || v in xs[..k])
  }

  lemma MarkStep(visited0: seq<bool>, visited: seq<bool>, xs: seq<nat>, k: nat)
    requires |visited| == |visited0| && k < |xs| && xs[k] < |visited|
    requires MarkedUpTo(visited0, visited, xs, k)
    ensures MarkedUpTo(visited0, visited[xs[k] := true], xs, k + 1)
  {
    PrefixStep(xs, k);
  }

  /**
   The neighbour scan of the dequeued vertex `cur`: the matrix row from
   index 0 up, or the list from its head. Every unmarked neighbour is marked,
   enqueued and labelled with `cur` as parent one level down. The queue never
   fills: it holds only marked vertices, each once.
   */
  method EnqueueNeighbours(g: Graph, cur: nat, visited0: seq<bool>, queue0: Queues.Queue, parents0: seq<int>, levels0: seq<int>)
    returns (visited: seq<bool>, queue: Queues.Queue, parents: seq<int>, levels: seq<int>)
    requires Valid(g) && cur < g.numVertices
    requires |visited0| == g.numVertices && |parents0| == g.numVertices && |levels0| == g.numVertices
    requires visited0[cur]
    requires Queues.Valid(queue0) && queue0.capacity == g.numVertices
    requires |Queues.Contents(queue0)| <= CountTrue(visited0)
    ensures Queues.Valid(queue) && queue.capacity == queue0.capacity
    ensures |visited| == g.numVertices && |parents| == g.numVertices && |levels| == g.numVertices
    // Every unmarked neighbour is enqueued, in scan order, once; nothing is dropped.
    ensures Queues.Contents(queue) == Queues.Contents(queue0) + FirstUnmarked(Neighbors(g, cur, Ascending), visited0)
    ensures |Queues.Contents(queue)| <= CountTrue(visited)
    // The neighbours of `cur` are marked now; no other mark changes.
    ensures forall v :: 0 <= v < g.numVertices ==> (visited[v] <==> visited0[v] || Adjacent(g, cur, v))
    // The newly marked are labelled from `cur`; no other label changes.
    ensures forall v :: 0 <= v < g.numVertices ==>
      if Adjacent(g, cur, v) && !visited0[v] then parents[v] == cur && levels[v] == levels0[cur] + 1
      else parents[v] == parents0[v] && levels[v] == levels0[v]
  {
    var nbrs := Neighbors(g, cur, Ascending);
    visited, queue, parents, levels := EnqueueUnmarked(nbrs, cur, visited0, queue0, parents0, levels0);
    FirstUnmarkedMembers(nbrs, visited0);
  }

  /** The scan state: marks, queue and labels. */
  datatype Scan = Scan(visited: seq<bool>, queue: Queues.Queue, parents: seq<int>, levels: seq<int>)

  /** One entry of the scan: an unmarked `w` is marked, enqueued and labelled `(cur, level)`. */
  function ScanStep(st: Scan, w: nat, cur: nat, level: int): (r: Scan)
    requires Queues.Valid(st.queue) && st.queue.capacity > 0
    requires w < |st.visited| == |st.parents| == |st.levels|
  {
    if st.visited[w] then st
    else Scan(st.visited[w := true], Queues.Enqueue(st.queue, w), st.parents[w := cur], st.levels[w := level])
  }

  /** After the first `k` entries of `xs`: what the scan has enqueued, marked and labelled. */
  ghost predicate ScannedUpTo(xs: seq<nat>, k: nat, cur: nat, level: int, st0: Scan, st: Scan)
    requires forall i :: 0 <= i < |xs| ==> xs[i] < |st0.visited|
    requires Queues.Valid(st0.queue) && |st0.parents| == |st0.visited| && |st0.levels| == |st0.visited|
    requires k <= |xs|
  {
    var n := |st0.visited|;
    var added := FirstUnmarked(xs[..k], st0.visited);
    && Queues.Valid(st.queue) && st.queue.capacity == st0.queue.capacity
    && |st.visited| == n && |st.parents| == n && |st.levels| == n
    && Queues.Contents(st.queue) == Queues.Contents(st0.queue) + added
    && |Queues.Contents(st.queue)| <= CountTrue(st.visited)
    && MarkedUpTo(st0.visited, st.visited, xs, k)
    && Relabelled(st0.parents, st0.levels, st.parents, st.levels, added, cur, level)
  }

  lemma ScanStepKeeps(xs: seq<nat>, k: nat, cur: nat, level: int, st0: Scan, st: Scan)
    requires forall i :: 0 <= i < |xs| ==> xs[i] < |st0.visited|
    requires Queues.Valid(st0.queue) && |st0.parents| == |st0.visited| && |st0.levels| == |st0.visited|
    requires st0.queue.capacity == |st0.visited|
    requires k < |xs| && ScannedUpTo(xs, k, cur, level, st0, st)
    ensures ScannedUpTo(xs, k + 1, cur, level, st0, ScanStep(st, xs[k], cur, level))
  {
    var w := xs[k];
    FirstUnmarkedStep(xs, k, st0.visited);
    PrefixStep(xs, k);
    if st.visited[w] {
      ScanSkipKeeps(xs, k, cur, level, st0, st);
    } else {
      ScanMarkKeeps(xs, k, cur, level, st0, st);
    }
  }

  lemma ScanSkipKeeps(xs: seq<nat>, k: nat, cur: nat, level: int, st0: Scan, st: Scan)
    requires forall i :: 0 <= i < |xs| ==> xs[i] < |st0.visited|
    requires Queues.Valid(st0.queue) && |st0.parents| == |st0.visited| && |st0.levels| == |st0.visited|
    requires st0.queue.capacity == |st0.visited|
    requires k < |xs| && ScannedUpTo(xs, k, cur, level, st0, st)
    requires st.visited[xs[k]]
    requires FirstUnmarked(xs[..k + 1], st0.visited) == FirstUnmarked(xs[..k], st0.visited)
    requires forall x :: x in xs[..k + 1] <==> x in xs[..k] || x == xs[k]
    ensures ScannedUpTo(xs, k + 1, cur, level, st0, st)
  {
  }

  lemma ScanMarkKeeps(xs: seq<nat>, k: nat, cur: nat, level: int, st0: Scan, st: Scan)
    requires forall i :: 0 <= i < |xs| ==> xs[i] < |st0.visited|
    requires Queues.Valid(st0.queue) && |st0.parents| == |st0.visited| && |st0.levels| == |st0.visited|
    requires st0.queue.capacity == |st0.visited|
    requires k < |xs| && ScannedUpTo(xs, k, cur, level, st0, st)
    requires !st.visited[xs[k]]
    requires FirstUnmarked(xs[..k + 1], st0.visited) == FirstUnmarked(xs[..k], st0.visited) + [xs[k]]
    ensures ScannedUpTo(xs, k + 1, cur, level, st0, ScanStep(st, xs[k], cur, level))
  {
    var w := xs[k];
    var added := FirstUnmarked(xs[..k], st0.visited);
    var r := ScanStep(st, w, cur, level);
    MarkQueue(st, w, cur, level);
    assert Queues.Contents(r.queue) == Queues.Contents(st0.queue) + (added + [w]);
    RelabelSnoc(st0.parents, st0.levels, st.parents, st.levels, added, cur, level, w);
    MarkStep(st0.visited, st.visited, xs, k);
  }

  /** Marking an unmarked vertex makes room for the one it enqueues. */
  lemma MarkQueue(st: Scan, w: nat, cur: nat, level: int)
    requires Queues.Valid(st.queue) && st.queue.capacity == |st.visited| == |st.parents| == |st.levels|
    requires w < |st.visited| && !st.visited[w] && |Queues.Contents(st.queue)| <= CountTrue(st.visited)
    ensures var r := ScanStep(st, w, cur, level);
      && Queues.Valid(r.queue) && r.queue.capacity == st.queue.capacity
      && Queues.Contents(r.queue) == Queues.Contents(st.queue) + [w]
      && |Queues.Contents(r.queue)| <= CountTrue(r.visited)
      && r.visited == st.visited[w := true] && r.parents == st.parents[w := cur] && r.levels == st.levels[w := level]
  {
    CountTrueSet(st.visited, w);
  }

  /** Marks, enqueues and labels the unmarked entries of `nbrs`, in order. */
  method EnqueueUnmarked(nbrs: seq<nat>, cur: nat, visited0: seq<bool>, queue0: Queues.Queue, parents0: seq<int>, levels0: seq<int>)
    returns (visited: seq<bool>, queue: Queues.Queue, parents: seq<int>, levels: seq<int>)
    requires forall i :: 0 <= i < |nbrs| ==> nbrs[i] < |visited0|
    requires cur < |visited0| && visited0[cur]
    requires |parents0| == |visited0| && |levels0| == |visited0|
    requires Queues.Valid(queue0) && queue0.capacity == |visited0|
    requires |Queues.Contents(queue0)| <= CountTrue(visited0)
    ensures Queues.Valid(queue) && queue.capacity == queue0.capacity
    ensures |visited| == |visited0| && |parents| == |visited0| && |levels| == |visited0|
    ensures Queues.Contents(queue) == Queues.Contents(queue0) + FirstUnmarked(nbrs, visited0)
    ensures |Queues.Contents(queue)| <= CountTrue(visited)
    ensures forall v :: 0 <= v < |visited0| ==> (visited[v] <==> visited0[v] || v in nbrs)
    ensures Relabelled(parents0, levels0, parents, levels, FirstUnmarked(nbrs, visited0), cur, levels0[cur] + 1)
  {
    var level := levels0[cur] + 1;
    var st0 := Scan(visited0, queue0, parents0, levels0);
    var st := st0;
    assert nbrs[..0] == [];
    var k := 0;
    while k < |nbrs|
      invariant 0 <= k <= |nbrs|
      invariant ScannedUpTo(nbrs, k, cur, level, st0, st)
    {
      ScanStepKeeps(nbrs, k, cur, level, st0, st);
      st := ScanStep(st, nbrs[k], cur, level);
      k := k + 1;
    }
    assert nbrs[..k] == nbrs;
    visited, queue, parents, levels := st.visited, st.queue, st.parents, st.levels;
  }

  /** The traversal state between two dequeues. */
  datatype Search = Search(queue: Queues.Queue, visited: seq<bool>, parents: seq<int>, levels: seq<int>, visits: seq<Visit>, tree: Graph)

  /** The fixed inputs of one traversal. */
  predicate Setting(g: Graph, start: nat, tree0: Graph, parents0: seq<int>, levels0: seq<int>) {
    && Valid(g) && start < g.numVertices
    && Valid(tree0) && tree0.numVertices == g.numVertices
    && |parents0| == g.numVertices && |levels0| == g.numVertices
  }

  /** Sizes and vertex ranges. */
  predicate QueueShaped(g: Graph, s: Search)
    requires Valid(g)
  {
    var n := g.numVertices;
    && Queues.Valid(s.queue) && s.queue.capacity == n
    && |s.visited| == n && |s.parents| == n && |s.levels| == n
    && (forall i :: 0 <= i < |Queues.Contents(s.queue)| ==> 0 <= Queues.Contents(s.queue)[i] < n)
    && (forall i :: 0 <= i < |s.visits| ==> s.visits[i].vertex < n && s.visits[i].parent < n)
    && Valid(s.tree) && s.tree.numVertices == n
  }

  /** Reported then queued: every marked vertex once, nothing else. */
  function Seen(s: Search): (r: seq<int>)
    requires Queues.Valid(s.queue)
    ensures |r| == |s.visits| + |Queues.Contents(s.queue)|
    ensures forall i :: 0 <= i < |s.visits| ==> r[i] == s.visits[i].vertex
    ensures forall i :: 0 <= i < |Queues.Contents(s.queue)| ==> r[|s.visits| + i] == Queues.Contents(s.queue)[i]
  {
    Order(s.visits) + Queues.Contents(s.queue)
  }

  predicate Marked(g: Graph, s: Search)
    requires Valid(g) && QueueShaped(g, s)
  {
    && Distinct(Seen(s)) && |s.visits| <= g.numVertices
    && forall v :: 0 <= v < g.numVertices ==> (s.visited[v] <==> v in Seen(s))
  }

  /** The start comes first with its own labels; reports show current labels; unmarked labels are untouched. */
  predicate Labelled(g: Graph, start: nat, parents0: seq<int>, levels0: seq<int>, s: Search)
    requires Valid(g) && start < g.numVertices && |parents0| == g.numVertices && |levels0| == g.numVertices
    requires QueueShaped(g, s)
  {
    && s.visited[start] && s.parents[start] == start && s.levels[start] == 0
    && (|s.visits| == 0 ==> Queues.Contents(s.queue) == [start])
    && (|s.visits| > 0 ==> s.visits[0] == Visit(start, start, 0))
    && (forall i :: 0 <= i < |s.visits| ==>
         s.visits[i].parent == s.parents[s.visits[i].vertex] && s.visits[i].level == s.levels[s.visits[i].vertex])
    && forall v :: 0 <= v < g.numVertices && !s.visited[v] ==> s.parents[v] == parents0[v] && s.levels[v] == levels0[v]
  }

  /** Reported and queued vertices other than the start hang off a reported neighbour, one level down. */
  predicate Hung(g: Graph, start: nat, s: Search)
    requires Valid(g) && QueueShaped(g, s)
  {
    Descended(g, s) && QueueAttached(g, start, s)
  }

  /** Each report after the first names a neighbour reported before it as parent, one level up. */
  predicate Descended(g: Graph, s: Search)
    requires Valid(g) && QueueShaped(g, s)
  {
    forall j :: 0 < j < |s.visits| ==>
      && s.visits[j].parent in Order(s.visits)[..j]
      && Adjacent(g, s.visits[j].parent, s.visits[j].vertex)
      && s.levels[s.visits[j].vertex] == s.levels[s.visits[j].parent] + 1
  }

  /** Each queued vertex other than the start has a reported neighbour as parent, one level up. */
  predicate QueueAttached(g: Graph, start: nat, s: Search)
    requires Valid(g) && QueueShaped(g, s)
  {
    var q := Queues.Contents(s.queue);
    forall i :: 0 <= i < |q| && q[i] != start ==>
      && 0 <= s.parents[q[i]] < g.numVertices
      && s.parents[q[i]] in Order(s.visits)
      && Adjacent(g, s.parents[q[i]], q[i])
      && s.levels[q[i]] == s.levels[s.parents[q[i]]] + 1
  }

  /** The level of a marked vertex is its hop distance from `start`. */
  ghost predicate Exact(g: Graph, start: nat, s: Search)
    requires Valid(g) && start < g.numVertices && |s.visited| == g.numVertices && |s.levels| == g.numVertices
  {
    && (forall v :: 0 <= v < g.numVertices && s.visited[v] ==> s.levels[v] >= 0)
    && forall v {:trigger IsDistance(g, start, v, s.levels[v])} ::
         0 <= v < g.numVertices && s.visited[v] ==> s.levels[v] >= 0 && IsDistance(g, start, v, s.levels[v])
  }

  /** Queued levels rise by at most one from front to back; reported levels never fall and stay at or below the front. */
  predicate Layered(g: Graph, s: Search)
    requires Valid(g) && QueueShaped(g, s)
  {
    var q := Queues.Contents(s.queue);
    && (forall i, j :: 0 <= i <= j < |q| ==> s.levels[q[i]] <= s.levels[q[j]] <= s.levels[q[i]] + 1)
    && (forall i, j :: 0 <= i <= j < |s.visits| ==> s.visits[i].level <= s.visits[j].level)
    && (|q| > 0 ==> forall i :: 0 <= i < |s.visits| ==> s.visits[i].level <= s.levels[q[0]])
  }

  /** Everything within the front vertex's level of hops is already marked. */
  ghost predicate Frontier(g: Graph, start: nat, s: Search)
    requires Valid(g) && start < g.numVertices && QueueShaped(g, s)
  {
    var q := Queues.Contents(s.queue);
    |q| > 0 && s.levels[q[0]] >= 0 ==>
      forall v {:trigger v in Ball(g, start, s.levels[q[0]])} :: v in Ball(g, start, s.levels[q[0]]) ==> s.visited[v]
  }

  /** Every neighbour of a reported vertex is marked. */
  predicate Closed(g: Graph, s: Search)
    requires Valid(g) && QueueShaped(g, s)
  {
    forall i, y: nat {:trigger Adjacent(g, s.visits[i].vertex, y)} ::
      0 <= i < |s.visits| && y < g.numVertices && Adjacent(g, s.visits[i].vertex, y) ==> s.visited[y]
  }

  /**
   A marked vertex other than the start has a reported parent, and the
   parent comes no later than any reported neighbour: it was marked by the
   first of its neighbours to be expanded.
   */
  predicate Earliest(g: Graph, start: nat, s: Search)
    requires Valid(g) && QueueShaped(g, s)
  {
    && (forall v :: 0 <= v < g.numVertices && v != start && s.visited[v] ==> s.parents[v] in Order(s.visits))
    && forall i, v :: 0 <= i < |s.visits| && 0 <= v < g.numVertices && v != start && s.visited[v] && Adjacent(g, s.visits[i].vertex, v) ==>
         s.parents[v] !in Order(s.visits)[i + 1..]
  }

  /** Marked vertices with the same parent are seen in the order of that parent's scan. */
  predicate Siblings(g: Graph, s: Search)
    requires Valid(g) && QueueShaped(g, s)
  {
    SiblingsIn(g, s.parents, Seen(s))
  }

  /** After the first entry, entries of `seen` with the same parent come in the order of that parent's scan. */
  predicate SiblingsIn(g: Graph, parents: seq<int>, seen: seq<int>)
    requires Valid(g) && |parents| == g.numVertices
  {
    forall a, b ::
      && 0 < a < b < |seen| && 0 <= seen[a] < g.numVertices && 0 <= seen[b] < g.numVertices
      && 0 <= parents[seen[b]] < g.numVertices && parents[seen[a]] == parents[seen[b]]
      ==> Before(Neighbors(g, parents[seen[b]], Ascending), seen[a], seen[b])
  }

  ghost predicate QueueInv(g: Graph, start: nat, tree0: Graph, parents0: seq<int>, levels0: seq<int>, s: Search)
    requires Setting(g, start, tree0, parents0, levels0)
  {
    && QueueShaped(g, s) && Marked(g, s) && Labelled(g, start, parents0, levels0, s) && Hung(g, start, s)
    && Exact(g, start, s) && Layered(g, s) && Frontier(g, start, s) && Closed(g, s) && TreeFollows(tree0, s.visits, s.tree)
    && Earliest(g, start, s) && Siblings(g, s)
  }

  /**
   The traversal from `start`. The caller supplies a cleared mark array,
   parent and level arrays of one slot per vertex, and the tree graph to
   extend; the marks, labels, report and extended tree are returned.
   */
  method Traverse(g: Graph, start: nat, visited0: seq<bool>, tree0: Graph, parents0: seq<int>, levels0: seq<int>)
    returns (visited: seq<bool>, tree: Graph, parents: seq<int>, levels: seq<int>, visits: seq<Visit>)
    requires Valid(g) && start < g.numVertices
    requires |visited0| == g.numVertices && |parents0| == g.numVertices && |levels0| == g.numVertices
    requires forall v :: 0 <= v < |visited0| ==> !visited0[v]
    requires Valid(tree0) && tree0.numVertices == g.numVertices
    ensures |visited| == g.numVertices && |parents| == g.numVertices && |levels| == g.numVertices
    // The start is reported first; the marked vertices are the reported ones, each once, and
    // every later vertex hangs off a neighbour reported before it, one level deeper.
    ensures Reports(g, start, visited, parents, levels, visits)
    // Exactly the vertices reachable from the start are marked.
    ensures forall v :: 0 <= v < g.numVertices ==> (visited[v] <==> Reachable(g, start, v))
    // The level of a reached vertex is its hop distance; unreached vertices keep their labels.
    ensures forall v :: 0 <= v < g.numVertices && visited[v] ==> levels[v] >= 0 && IsDistance(g, start, v, levels[v])
    ensures forall v :: 0 <= v < g.numVertices && !visited[v] ==> parents[v] == parents0[v] && levels[v] == levels0[v]
    // Reports come in order of level.
    ensures forall i, j :: 0 <= i <= j < |visits| ==> visits[i].level <= visits[j].level
    // The parent is the first reported neighbour: no report before it is adjacent.
    ensures forall j, k :: 0 < j < |visits| && 0 <= k < |visits| && visits[k].vertex == visits[j].parent ==>
      forall i :: 0 <= i < k ==> !Adjacent(g, visits[i].vertex, visits[j].vertex)
    // Vertices with the same parent are reported in the order of the parent's ascending scan.
    ensures forall j1, j2 :: 0 < j1 < j2 < |visits| && visits[j1].parent == visits[j2].parent ==>
      Before(Neighbors(g, visits[j2].parent, Ascending), visits[j1].vertex, visits[j2].vertex)
    // One tree edge per reported vertex after the start, to its parent.
    ensures TreeFollows(tree0, visits, tree) && tree.numEdges == tree0.numEdges + |visits| - 1
  {
    var s := Explore(g, start, visited0, tree0, parents0, levels0);
    visited, tree, parents, levels, visits := s.visited, s.tree, s.parents, s.levels, s.visits;
  }

  /** Runs the traversal and hands out a final state that keeps the promises. */
  method Explore(g: Graph, start: nat, visited0: seq<bool>, tree0: Graph, parents0: seq<int>, levels0: seq<int>) returns (s: Search)
    requires Setting(g, start, tree0, parents0, levels0)
    requires |visited0| == g.numVertices && forall v :: 0 <= v < |visited0| ==> !visited0[v]
    ensures QueueShaped(g, s) && Finished(g, start, tree0, parents0, levels0, s)
  {
    s := Run(g, start, visited0, tree0, parents0, levels0);
    ReachOutcome(g, start, tree0, parents0, levels0, s);
    ReportsOutcome(g, start, tree0, parents0, levels0, s);
  }

  /** What the final state promises about the marks, the labels, the report and the tree. */
  ghost predicate Finished(g: Graph, start: nat, tree0: Graph, parents0: seq<int>, levels0: seq<int>, s: Search)
    requires Setting(g, start, tree0, parents0, levels0) && QueueShaped(g, s)
  {
    && Reports(g, start, s.visited, s.parents, s.levels, s.visits)
    && (forall v :: 0 <= v < g.numVertices ==> (s.visited[v] <==> Reachable(g, start, v)))
    && (forall v :: 0 <= v < g.numVertices && s.visited[v] ==> s.levels[v] >= 0 && IsDistance(g, start, v, s.levels[v]))
    && (forall v :: 0 <= v < g.numVertices && !s.visited[v] ==> s.parents[v] == parents0[v] && s.levels[v] == levels0[v])
    && (forall i, j :: 0 <= i <= j < |s.visits| ==> s.visits[i].level <= s.visits[j].level)
    && (forall j, k :: 0 < j < |s.visits| && 0 <= k < |s.visits| && s.visits[k].vertex == s.visits[j].parent ==>
         forall i :: 0 <= i < k ==> !Adjacent(g, s.visits[i].vertex, s.visits[j].vertex))
    && (forall j1, j2 :: 0 < j1 < j2 < |s.visits| && s.visits[j1].parent == s.visits[j2].parent ==>
         Before(Neighbors(g, s.visits[j2].parent, Ascending), s.visits[j1].vertex, s.visits[j2].vertex))
    && TreeFollows(tree0, s.visits, s.tree) && s.tree.numEdges == tree0.numEdges + |s.visits| - 1
  }

  /** Queues the start, then expands the front vertex until the queue is empty. */
  method Run(g: Graph, start: nat, visited0: seq<bool>, tree0: Graph, parents0: seq<int>, levels0: seq<int>) returns (s: Search)
    requires Setting(g, start, tree0, parents0, levels0)
    requires |visited0| == g.numVertices && forall v :: 0 <= v < |visited0| ==> !visited0[v]
    ensures QueueInv(g, start, tree0, parents0, levels0, s) && Queues.Contents(s.queue) == []
  {
    s := Search(Queues.Enqueue(Queues.New(g.numVertices), start), visited0[start := true], parents0[start := start], levels0[start := 0], [], tree0);
    Init(g, start, visited0, tree0, parents0, levels0, s);
    while !Queues.IsEmpty(s.queue)
      invariant QueueInv(g, start, tree0, parents0, levels0, s)
      decreases g.numVertices - |s.visits|
    {
      s := VisitFront(g, start, tree0, parents0, levels0, s);
    }
  }

  lemma Init(g: Graph, start: nat, visited0: seq<bool>, tree0: Graph, parents0: seq<int>, levels0: seq<int>, s: Search)
    requires Setting(g, start, tree0, parents0, levels0)
    requires |visited0| == g.numVertices && forall v :: 0 <= v < |visited0| ==> !visited0[v]
    requires s == Search(Queues.Enqueue(Queues.New(g.numVertices), start), visited0[start := true],
                         parents0[start := start], levels0[start := 0], [], tree0)
    ensures QueueInv(g, start, tree0, parents0, levels0, s)
  {
    assert Queues.Contents(s.queue) == [start];
    InitShaped(g, start, visited0, tree0, parents0, levels0, s);
    InitLabelled(g, start, visited0, parents0, levels0, s);
    InitTree(g, tree0, s);
    InitLayered(g, start, s);
    InitDistances(g, start, visited0, s);
  }

  /** The start alone is queued, marked and labelled; nothing is reported yet. */
  predicate Initial(g: Graph, start: nat, visited0: seq<bool>, parents0: seq<int>, levels0: seq<int>, s: Search)
    requires Valid(g) && start < g.numVertices
  {
    && |visited0| == g.numVertices && (forall v :: 0 <= v < |visited0| ==> !visited0[v])
    && |parents0| == g.numVertices && |levels0| == g.numVertices
    && Queues.Valid(s.queue) && s.queue.capacity == g.numVertices && Queues.Contents(s.queue) == [start]
    && s.visited == visited0[start := true] && s.parents == parents0[start := start] && s.levels == levels0[start := 0]
    && s.visits == []
  }

  lemma InitShaped(g: Graph, start: nat, visited0: seq<bool>, tree0: Graph, parents0: seq<int>, levels0: seq<int>, s: Search)
    requires Setting(g, start, tree0, parents0, levels0)
    requires Initial(g, start, visited0, parents0, levels0, s) && s.tree == tree0
    ensures QueueShaped(g, s) && Marked(g, s)
  {
    assert Seen(s) == [start];
  }

  lemma InitLabelled(g: Graph, start: nat, visited0: seq<bool>, parents0: seq<int>, levels0: seq<int>, s: Search)
    requires Valid(g) && start < g.numVertices
    requires Initial(g, start, visited0, parents0, levels0, s) && QueueShaped(g, s)
    ensures Labelled(g, start, parents0, levels0, s) && Hung(g, start, s) && Earliest(g, start, s) && Siblings(g, s)
  {
    assert Seen(s) == [start];
  }

  lemma InitTree(g: Graph, tree0: Graph, s: Search)
    requires Valid(g) && Valid(tree0) && tree0.numVertices == g.numVertices
    requires QueueShaped(g, s) && s.visits == [] && s.tree == tree0
    ensures Closed(g, s) && TreeFollows(tree0, s.visits, s.tree)
  {
    assert TreeEdges(s.visits) == [];
  }

  lemma InitLayered(g: Graph, start: nat, s: Search)
    requires Valid(g) && QueueShaped(g, s) && Queues.Contents(s.queue) == [start] && s.visits == []
    ensures Layered(g, s)
  {
    var q := Queues.Contents(s.queue);
    forall i, j | 0 <= i <= j < |q|
      ensures s.levels[q[i]] <= s.levels[q[j]] <= s.levels[q[i]] + 1
    {
      assert i == j == 0;
    }
  }

  lemma InitDistances(g: Graph, start: nat, visited0: seq<bool>, s: Search)
    requires Valid(g) && start < g.numVertices
    requires QueueShaped(g, s) && Queues.Contents(s.queue) == [start]
    requires |visited0| == g.numVertices && (forall v :: 0 <= v < |visited0| ==> !visited0[v])
    requires |s.levels| == g.numVertices && s.levels[start] == 0 && s.visited == visited0[start := true]
    ensures Exact(g, start, s) && Frontier(g, start, s)
  {
    assert IsDistance(g, start, start, 0);
    forall v | v in Ball(g, start, 0)
      ensures s.visited[v]
    {
    }
  }

  /** When the queue runs dry the marks are the reachable vertices, at their distances. */
  lemma ReachOutcome(g: Graph, start: nat, tree0: Graph, parents0: seq<int>, levels0: seq<int>, s: Search)
    requires Setting(g, start, tree0, parents0, levels0)
    requires QueueInv(g, start, tree0, parents0, levels0, s) && Queues.Contents(s.queue) == []
    ensures forall v :: 0 <= v < g.numVertices ==> (s.visited[v] <==> Reachable(g, start, v))
    ensures forall v :: 0 <= v < g.numVertices && s.visited[v] ==> s.levels[v] >= 0 && IsDistance(g, start, v, s.levels[v])
  {
    assert Seen(s) == Order(s.visits);
    Exhausted(g, start, s);
    Distances(g, start, s);
  }

  /** When the queue runs dry the report keeps the promises about parents and order. */
  lemma ReportsOutcome(g: Graph, start: nat, tree0: Graph, parents0: seq<int>, levels0: seq<int>, s: Search)
    requires Setting(g, start, tree0, parents0, levels0)
    requires QueueInv(g, start, tree0, parents0, levels0, s) && Queues.Contents(s.queue) == []
    ensures Reports(g, start, s.visited, s.parents, s.levels, s.visits)
    ensures forall j, k :: 0 < j < |s.visits| && 0 <= k < |s.visits| && s.visits[k].vertex == s.visits[j].parent ==>
      forall i :: 0 <= i < k ==> !Adjacent(g, s.visits[i].vertex, s.visits[j].vertex)
    ensures forall j1, j2 :: 0 < j1 < j2 < |s.visits| && s.visits[j1].parent == s.visits[j2].parent ==>
      Before(Neighbors(g, s.visits[j2].parent, Ascending), s.visits[j1].vertex, s.visits[j2].vertex)
  {
    assert Seen(s) == Order(s.visits);
    FinalReports(g, start, parents0, levels0, s);
  }

  /** The exact levels of the invariant, read off for the final state. */
  lemma Distances(g: Graph, start: nat, s: Search)
    requires Valid(g) && start < g.numVertices && |s.visited| == g.numVertices && |s.levels| == g.numVertices
    requires Exact(g, start, s)
    ensures forall v :: 0 <= v < g.numVertices && s.visited[v] ==> s.levels[v] >= 0 && IsDistance(g, start, v, s.levels[v])
  {
    forall v | 0 <= v < g.numVertices && s.visited[v]
      ensures s.levels[v] >= 0 && IsDistance(g, start, v, s.levels[v])
    {
      assert IsDistance(g, start, v, s.levels[v]);
    }
  }

  /** With the queue empty the invariant's report clauses are the promised ones. */
  lemma FinalReports(g: Graph, start: nat, parents0: seq<int>, levels0: seq<int>, s: Search)
    requires Valid(g) && start < g.numVertices && |parents0| == g.numVertices && |levels0| == g.numVertices
    requires QueueShaped(g, s) && Marked(g, s) && Labelled(g, start, parents0, levels0, s) && Descended(g, s)
    requires Earliest(g, start, s) && Siblings(g, s)
    requires Seen(s) == Order(s.visits) && Queues.Contents(s.queue) == []
    ensures Reports(g, start, s.visited, s.parents, s.levels, s.visits)
    ensures forall j, k :: 0 < j < |s.visits| && 0 <= k < |s.visits| && s.visits[k].vertex == s.visits[j].parent ==>
      forall i :: 0 <= i < k ==> !Adjacent(g, s.visits[i].vertex, s.visits[j].vertex)
    ensures forall j1, j2 :: 0 < j1 < j2 < |s.visits| && s.visits[j1].parent == s.visits[j2].parent ==>
      Before(Neighbors(g, s.visits[j2].parent, Ascending), s.visits[j1].vertex, s.visits[j2].vertex)
  {
    EarliestFirst(g, start, s.visited, s.parents, s.visits);
    SiblingsFinal(g, s.parents, s.visits);
  }

  /** The no-later-than bound of `Earliest`, stated on the final arrays. */
  predicate Bounded(g: Graph, start: nat, visited: seq<bool>, parents: seq<int>, visits: seq<Visit>)
    requires Valid(g) && |visited| == g.numVertices && |parents| == g.numVertices
    requires forall i :: 0 <= i < |visits| ==> visits[i].vertex < g.numVertices
  {
    forall i, v :: 0 <= i < |visits| && 0 <= v < g.numVertices && v != start && visited[v] && Adjacent(g, visits[i].vertex, v) ==>
      parents[v] !in Order(visits)[i + 1..]
  }

  /** A parent bounded by every reported neighbour has no reported neighbour before it. */
  lemma EarliestFirst(g: Graph, start: nat, visited: seq<bool>, parents: seq<int>, visits: seq<Visit>)
    requires Valid(g) && start < g.numVertices && |visited| == g.numVertices && |parents| == g.numVertices
    requires forall i :: 0 <= i < |visits| ==> visits[i].vertex < g.numVertices
    requires |visits| > 0 && visits[0].vertex == start && Distinct(Order(visits))
    requires forall v :: 0 <= v < g.numVertices ==> (visited[v] <==> v in Order(visits))
    requires forall i :: 0 <= i < |visits| ==> visits[i].parent == parents[visits[i].vertex]
    requires Bounded(g, start, visited, parents, visits)
    ensures forall j, k :: 0 < j < |visits| && 0 <= k < |visits| && visits[k].vertex == visits[j].parent ==>
      forall i :: 0 <= i < k ==> !Adjacent(g, visits[i].vertex, visits[j].vertex)
  {
    forall j, k, i | 0 < j < |visits| && 0 <= k < |visits| && visits[k].vertex == visits[j].parent && 0 <= i < k
      ensures !Adjacent(g, visits[i].vertex, visits[j].vertex)
    {
      var v := visits[j].vertex;
      assert Order(visits)[0] == start && Order(visits)[j] == v;
      assert v in Order(visits);
      assert Order(visits)[i + 1..][k - i - 1] == parents[v];
    }
  }

  /** Seen and report coincide at the end, so sibling order carries over to the report. */
  lemma SiblingsFinal(g: Graph, parents: seq<int>, visits: seq<Visit>)
    requires Valid(g) && |parents| == g.numVertices
    requires forall i :: 0 <= i < |visits| ==> visits[i].vertex < g.numVertices && visits[i].parent < g.numVertices
    requires forall i :: 0 <= i < |visits| ==> visits[i].parent == parents[visits[i].vertex]
    requires SiblingsIn(g, parents, Order(visits))
    ensures forall j1, j2 :: 0 < j1 < j2 < |visits| && visits[j1].parent == visits[j2].parent ==>
      Before(Neighbors(g, visits[j2].parent, Ascending), visits[j1].vertex, visits[j2].vertex)
  {
    forall j1, j2 | 0 < j1 < j2 < |visits| && visits[j1].parent == visits[j2].parent
      ensures Before(Neighbors(g, visits[j2].parent, Ascending), visits[j1].vertex, visits[j2].vertex)
    {
      assert Order(visits)[j1] == visits[j1].vertex && Order(visits)[j2] == visits[j2].vertex;
    }
  }

  /** With the queue empty, the marks are closed under adjacency and so hold everything reachable. */
  lemma Exhausted(g: Graph, start: nat, s: Search)
    requires Valid(g) && start < g.numVertices && QueueShaped(g, s) && s.visited[start]
    requires Exact(g, start, s) && Closed(g, s)
    requires forall v :: 0 <= v < g.numVertices ==> (s.visited[v] <==> v in Order(s.visits))
    ensures forall v :: 0 <= v < g.numVertices ==> (s.visited[v] <==> Reachable(g, start, v))
  {
    var n := g.numVertices;
    var m := set v: nat | v < n && s.visited[v];
    forall x: nat, y: nat | x in m && x < n && y < n && Adjacent(g, x, y)
      ensures y in m
    {
      assert x in Order(s.visits);
      var i :| 0 <= i < |s.visits| && Order(s.visits)[i] == x;
      assert s.visits[i].vertex == x;
    }
    forall v | 0 <= v < n
      ensures s.visited[v] <==> Reachable(g, start, v)
    {
      if s.visited[v] {
        assert IsDistance(g, start, v, s.levels[v]);
      } else if Reachable(g, start, v) {
        var k: nat :| v in Ball(g, start, k);
        ClosedHoldsBalls(g, start, m, k);
      }
    }
  }

  /**
   `r` is `s` after dequeuing the front vertex, reporting it, adding its tree
   edge and scanning its neighbours, which marks and enqueues `added`.
   */
  predicate Steps(g: Graph, start: nat, s: Search, added: seq<nat>, r: Search)
    requires Valid(g) && start < g.numVertices && QueueShaped(g, s)
  {
    var n := g.numVertices;
    var q := Queues.Contents(s.queue);
    && |q| > 0 && 0 <= s.parents[q[0]] < n
    && var cur := q[0];
    && Queues.Valid(r.queue) && r.queue.capacity == n
    && |r.visited| == n && |r.parents| == n && |r.levels| == n
    && Queues.Contents(r.queue) == q[1..] + added
    && Distinct(added)
    && (forall i :: 0 <= i < |added| ==> added[i] < n && !s.visited[added[i]] && r.visited[added[i]])
    && r.visits == s.visits + [Visit(cur, s.parents[cur], s.levels[cur])]
    && r.tree == (if cur != start then AddEdge(s.tree, cur, s.parents[cur]) else s.tree)
    && (forall v :: 0 <= v < n ==> (r.visited[v] <==> s.visited[v] || Adjacent(g, cur, v)))
    && (forall v :: 0 <= v < n && r.visited[v] && !s.visited[v] ==> v in added)
    && forall v :: 0 <= v < n ==>
      if r.visited[v] && !s.visited[v] then r.parents[v] == cur && r.levels[v] == s.levels[cur] + 1
      else r.parents[v] == s.parents[v] && r.levels[v] == s.levels[v]
  }

  /** Dequeues, reports and expands the front vertex. */
  method VisitFront(g: Graph, start: nat, tree0: Graph, parents0: seq<int>, levels0: seq<int>, s: Search) returns (r: Search)
    requires Setting(g, start, tree0, parents0, levels0)
    requires QueueInv(g, start, tree0, parents0, levels0, s) && Queues.Contents(s.queue) != []
    ensures QueueInv(g, start, tree0, parents0, levels0, r)
    ensures |r.visits| == |s.visits| + 1
  {
    FrontFacts(g, start, parents0, levels0, s);
    r := ExpandFront(g, start, s);
    ghost var added := FirstUnmarked(Neighbors(g, Queues.Contents(s.queue)[0], Ascending), s.visited);
    StepKeeps(g, start, tree0, parents0, levels0, s, added, r);
  }

  /** Dequeues the front vertex, reports it, hangs it in the tree and queues its unmarked neighbours. */
  method ExpandFront(g: Graph, start: nat, s: Search) returns (r: Search)
    requires Valid(g) && start < g.numVertices && QueueShaped(g, s)
    requires var q := Queues.Contents(s.queue);
      && |q| > 0 && s.visited[q[0]] && 0 <= s.parents[q[0]] < g.numVertices && |q[1..]| <= CountTrue(s.visited)
    ensures Steps(g, start, s, FirstUnmarked(Neighbors(g, Queues.Contents(s.queue)[0], Ascending), s.visited), r)
  {
    var dequeued := Queues.Dequeue(s.queue);
    var cur := dequeued.1;
    var rec := Visit(cur, s.parents[cur], s.levels[cur]);
    var tree := if cur != start then AddEdge(s.tree, cur, s.parents[cur]) else s.tree;
    var visited, queue, parents, levels := EnqueueNeighbours(g, cur, s.visited, dequeued.0, s.parents, s.levels);
    FirstUnmarkedMembers(Neighbors(g, cur, Ascending), s.visited);
    r := Search(queue, visited, parents, levels, s.visits + [rec], tree);
  }

  /** The front vertex is a marked vertex with a parent, and the rest of the queue fits the marks. */
  lemma FrontFacts(g: Graph, start: nat, parents0: seq<int>, levels0: seq<int>, s: Search)
    requires Valid(g) && start < g.numVertices && |parents0| == g.numVertices && |levels0| == g.numVertices
    requires QueueShaped(g, s) && Marked(g, s) && Labelled(g, start, parents0, levels0, s) && Hung(g, start, s)
    requires Queues.Contents(s.queue) != []
    ensures var q := Queues.Contents(s.queue);
      && 0 <= q[0] < g.numVertices && s.visited[q[0]] && 0 <= s.parents[q[0]] < g.numVertices
      && |q[1..]| <= CountTrue(s.visited)
  {
    QueueCount(g, s);
    FrontParent(g, start, s);
  }

  /** The queue holds marked vertices without repeats, so the part behind the front is no longer than the marks. */
  lemma QueueCount(g: Graph, s: Search)
    requires Valid(g) && QueueShaped(g, s) && Marked(g, s) && Queues.Contents(s.queue) != []
    ensures var q := Queues.Contents(s.queue);
      && 0 <= q[0] < g.numVertices && s.visited[q[0]] && |q[1..]| <= CountTrue(s.visited)
  {
    var q := Queues.Contents(s.queue);
    var seen := Seen(s);
    var k := |s.visits|;
    var tail := q[1..];
    assert seen == Order(s.visits) + q;
    assert seen[k] == q[0];
    assert seen[k + 1..] == tail;
    DistinctDrop(seen, k + 1);
    forall i | 0 <= i < |tail|
      ensures 0 <= tail[i] < |s.visited| && s.visited[tail[i]]
    {
      assert tail[i] == q[i + 1];
      assert tail[i] in seen;
    }
    CountTrueAtLeast(s.visited, tail);
  }

  lemma FrontParent(g: Graph, start: nat, s: Search)
    requires Valid(g) && start < g.numVertices && QueueShaped(g, s) && QueueAttached(g, start, s)
    requires s.parents[start] == start && Queues.Contents(s.queue) != []
    ensures 0 <= s.parents[Queues.Contents(s.queue)[0]] < g.numVertices
  {
  }

  lemma StepKeeps(g: Graph, start: nat, tree0: Graph, parents0: seq<int>, levels0: seq<int>, s: Search, added: seq<nat>, r: Search)
    requires Setting(g, start, tree0, parents0, levels0)
    requires QueueInv(g, start, tree0, parents0, levels0, s)
    requires Steps(g, start, s, added, r)
    requires added == FirstUnmarked(Neighbors(g, Queues.Contents(s.queue)[0], Ascending), s.visited)
    ensures QueueInv(g, start, tree0, parents0, levels0, r)
    ensures |r.visits| == |s.visits| + 1
  {
    StepShaped(g, start, s, added, r);
    StepMarked(g, start, s, added, r);
    StepLabelled(g, start, parents0, levels0, s, added, r);
    StepDescended(g, start, parents0, levels0, s, added, r);
    StepPending(g, start, s, added, r);
    StepExact(g, start, s, added, r);
    StepLayered(g, start, s, added, r);
    StepFrontier(g, start, s, added, r);
    StepClosed(g, start, s, added, r);
    StepGrown(g, start, tree0, parents0, levels0, s, added, r);
    StepEarliest(g, start, s, added, r);
    SeenStart(g, start, parents0, levels0, s);
    StepSiblings(g, start, s, added, r);
  }

  /** The start is seen first. */
  lemma SeenStart(g: Graph, start: nat, parents0: seq<int>, levels0: seq<int>, s: Search)
    requires Valid(g) && start < g.numVertices && |parents0| == g.numVertices && |levels0| == g.numVertices
    requires QueueShaped(g, s) && Labelled(g, start, parents0, levels0, s)
    ensures |Seen(s)| > 0 && Seen(s)[0] == start
  {
  }

  /** The front vertex is not yet reported. */
  lemma FrontUnreported(g: Graph, s: Search)
    requires Valid(g) && QueueShaped(g, s) && Marked(g, s) && Queues.Contents(s.queue) != []
    ensures Queues.Contents(s.queue)[0] !in Order(s.visits)
  {
    var seen := Seen(s);
    forall i | 0 <= i < |s.visits|
      ensures Order(s.visits)[i] != Queues.Contents(s.queue)[0]
    {
      assert seen[i] == Order(s.visits)[i];
      assert seen[|s.visits|] == Queues.Contents(s.queue)[0];
    }
  }

  /**
   The vertices marked by a step hang off the vertex just reported; a
   vertex marked earlier keeps its parent, which a neighbour reported before
   the step already bounds.
   */
  lemma StepEarliest(g: Graph, start: nat, s: Search, added: seq<nat>, r: Search)
    requires Valid(g) && start < g.numVertices && QueueShaped(g, s) && QueueShaped(g, r)
    requires Marked(g, s) && Closed(g, s) && Earliest(g, start, s) && Steps(g, start, s, added, r)
    ensures Earliest(g, start, r)
  {
    var cur := Queues.Contents(s.queue)[0];
    OrderAppend(s.visits, r.visits[|s.visits|]);
    FrontUnreported(g, s);
    EarliestStep(g, start, s, cur, r);
  }

  lemma EarliestStep(g: Graph, start: nat, s: Search, cur: nat, r: Search)
    requires Valid(g) && QueueShaped(g, s) && QueueShaped(g, r)
    requires Closed(g, s) && Earliest(g, start, s)
    requires Order(r.visits) == Order(s.visits) + [cur] && cur !in Order(s.visits)
    requires forall i :: 0 <= i < |s.visits| ==> r.visits[i] == s.visits[i]
    requires forall v :: 0 <= v < g.numVertices && r.visited[v] ==>
      if s.visited[v] then r.parents[v] == s.parents[v] else r.parents[v] == cur
    ensures Earliest(g, start, r)
  {
    var m := |s.visits|;
    forall v | 0 <= v < g.numVertices && v != start && r.visited[v]
      ensures r.parents[v] in Order(r.visits)
    {
      if s.visited[v] {
        var k :| 0 <= k < m && Order(s.visits)[k] == s.parents[v];
        assert Order(r.visits)[k] == s.parents[v];
      } else {
        assert Order(r.visits)[m] == cur;
      }
    }
    forall i, v | 0 <= i < |r.visits| && 0 <= v < g.numVertices && v != start && r.visited[v] && Adjacent(g, r.visits[i].vertex, v)
      ensures r.parents[v] !in Order(r.visits)[i + 1..]
    {
      if i < m {
        assert r.visits[i] == s.visits[i];
        assert Order(r.visits)[i + 1..] == Order(s.visits)[i + 1..] + [cur];
      } else {
        assert Order(r.visits)[i + 1..] == [];
      }
    }
  }

  /**
   A step appends the front's unmarked neighbours in scan order; none of
   them shares a parent with a vertex seen before, since those hang off
   reported vertices.
   */
  lemma StepSiblings(g: Graph, start: nat, s: Search, added: seq<nat>, r: Search)
    requires Valid(g) && start < g.numVertices && QueueShaped(g, s) && QueueShaped(g, r)
    requires Marked(g, s) && Earliest(g, start, s) && Siblings(g, s) && Steps(g, start, s, added, r)
    requires |Seen(s)| > 0 && Seen(s)[0] == start
    requires added == FirstUnmarked(Neighbors(g, Queues.Contents(s.queue)[0], Ascending), s.visited)
    ensures Siblings(g, r)
  {
    var cur := Queues.Contents(s.queue)[0];
    OrderAppend(s.visits, r.visits[|s.visits|]);
    SeenGrows(s, cur, added, r);
    FrontUnreported(g, s);
    FirstUnmarkedOrder(Neighbors(g, cur, Ascending), s.visited);
    OldParents(g, start, s, cur, r);
    SiblingsStep(g, s, cur, added, r);
  }

  /** A vertex seen before the step, other than the start, keeps a parent other than the front. */
  lemma OldParents(g: Graph, start: nat, s: Search, cur: nat, r: Search)
    requires Valid(g) && QueueShaped(g, s) && QueueShaped(g, r) && Marked(g, s) && Earliest(g, start, s)
    requires |Seen(s)| > 0 && Seen(s)[0] == start && cur !in Order(s.visits)
    requires forall v :: 0 <= v < g.numVertices && s.visited[v] ==> r.parents[v] == s.parents[v]
    ensures forall a :: 0 < a < |Seen(s)| ==>
      0 <= Seen(s)[a] < g.numVertices && r.parents[Seen(s)[a]] == s.parents[Seen(s)[a]] != cur
  {
    var seen := Seen(s);
    SeenRange(g, s);
    forall a | 0 < a < |seen|
      ensures r.parents[seen[a]] == s.parents[seen[a]] != cur
    {
      assert seen[a] != seen[0];
      assert seen[a] in seen;
    }
  }

  lemma SiblingsStep(g: Graph, s: Search, cur: nat, added: seq<nat>, r: Search)
    requires Valid(g) && QueueShaped(g, s) && QueueShaped(g, r) && Siblings(g, s) && cur < g.numVertices
    requires Seen(r) == Seen(s) + added
    requires forall a :: 0 < a < |Seen(s)| ==>
      0 <= Seen(s)[a] < g.numVertices && r.parents[Seen(s)[a]] == s.parents[Seen(s)[a]] != cur
    requires forall i :: 0 <= i < |added| ==> added[i] < g.numVertices && r.parents[added[i]] == cur
    requires ScanOrdered(Neighbors(g, cur, Ascending), added)
    ensures Siblings(g, r)
  {
    SiblingsAppend(g, s.parents, r.parents, Seen(s), cur, added);
  }

  lemma SiblingsAppend(g: Graph, parents: seq<int>, parents': seq<int>, before: seq<int>, cur: nat, added: seq<nat>)
    requires Valid(g) && |parents| == g.numVertices && |parents'| == g.numVertices && cur < g.numVertices
    requires SiblingsIn(g, parents, before)
    requires forall a :: 0 < a < |before| ==> 0 <= before[a] < g.numVertices && parents'[before[a]] == parents[before[a]] != cur
    requires forall i :: 0 <= i < |added| ==> added[i] < g.numVertices && parents'[added[i]] == cur
    requires ScanOrdered(Neighbors(g, cur, Ascending), added)
    ensures SiblingsIn(g, parents', before + added)
  {
    var after := before + added;
    var m := |before|;
    forall a, b |
      && 0 < a < b < |after| && 0 <= after[a] < g.numVertices && 0 <= after[b] < g.numVertices
      && 0 <= parents'[after[b]] < g.numVertices && parents'[after[a]] == parents'[after[b]]
      ensures Before(Neighbors(g, parents'[after[b]], Ascending), after[a], after[b])
    {
      if b < m {
        assert after[a] == before[a] && after[b] == before[b];
      } else if a >= m {
        assert after[a] == added[a - m] && after[b] == added[b - m];
      }
    }
  }

  /** The front is the start exactly before the first report. */
  lemma FrontIsStart(g: Graph, start: nat, parents0: seq<int>, levels0: seq<int>, s: Search)
    requires Valid(g) && start < g.numVertices && |parents0| == g.numVertices && |levels0| == g.numVertices
    requires QueueShaped(g, s) && Marked(g, s) && Labelled(g, start, parents0, levels0, s)
    requires Queues.Contents(s.queue) != []
    ensures Queues.Contents(s.queue)[0] == start <==> |s.visits| == 0
  {
    var seen := Seen(s);
    if |s.visits| > 0 {
      assert seen[0] == start;
      assert seen[|s.visits|] == Queues.Contents(s.queue)[0];
    }
  }

  lemma StepShaped(g: Graph, start: nat, s: Search, added: seq<nat>, r: Search)
    requires Valid(g) && start < g.numVertices && QueueShaped(g, s)
    requires Steps(g, start, s, added, r)
    ensures QueueShaped(g, r)
  {
    var q := Queues.Contents(s.queue);
    var q2 := Queues.Contents(r.queue);
    forall i | 0 <= i < |q2|
      ensures 0 <= q2[i] < g.numVertices
    {
      if i < |q| - 1 {
        assert q2[i] == q[i + 1];
      } else {
        assert q2[i] == added[i - (|q| - 1)];
      }
    }
  }

  /** The new report line and the newly enqueued vertices extend the seen sequence, still without repeats. */
  lemma StepMarked(g: Graph, start: nat, s: Search, added: seq<nat>, r: Search)
    requires Valid(g) && start < g.numVertices && QueueShaped(g, s) && QueueShaped(g, r)
    requires Marked(g, s) && Steps(g, start, s, added, r)
    ensures Marked(g, r)
  {
    var q := Queues.Contents(s.queue);
    StepLabels(g, start, s, added, r);
    OrderAppend(s.visits, r.visits[|s.visits|]);
    MarkedStep(g, s, q[0], added, r);
  }

  lemma MarkedStep(g: Graph, s: Search, cur: nat, added: seq<nat>, r: Search)
    requires Valid(g) && QueueShaped(g, s) && QueueShaped(g, r) && Marked(g, s)
    requires var q := Queues.Contents(s.queue);
      && |q| > 0 && q[0] == cur && Queues.Contents(r.queue) == q[1..] + added
    requires Order(r.visits) == Order(s.visits) + [cur]
    requires Distinct(added) && forall i :: 0 <= i < |added| ==> added[i] < g.numVertices && !s.visited[added[i]]
    requires forall v :: 0 <= v < g.numVertices ==> (r.visited[v] <==> s.visited[v] || v in added)
    ensures Marked(g, r)
  {
    var n := g.numVertices;
    SeenGrows(s, cur, added, r);
    DistinctConcat(Seen(s), added);
    forall v | 0 <= v < n
      ensures r.visited[v] <==> v in Seen(r)
    {
      assert v in Seen(r) <==> v in Seen(s) || v in added;
    }
    SeenRange(g, r);
    DistinctLength(Seen(r), n);
  }

  /** A step moves the front into the report and appends `added` to the queue. */
  lemma SeenGrows(s: Search, cur: nat, added: seq<nat>, r: Search)
    requires Queues.Valid(s.queue) && Queues.Valid(r.queue)
    requires var q := Queues.Contents(s.queue);
      && |q| > 0 && q[0] == cur && Queues.Contents(r.queue) == q[1..] + added
    requires Order(r.visits) == Order(s.visits) + [cur]
    ensures Seen(r) == Seen(s) + added
  {
    var q := Queues.Contents(s.queue);
    assert q == [cur] + q[1..];
  }

  lemma SeenRange(g: Graph, s: Search)
    requires Valid(g) && QueueShaped(g, s)
    ensures forall i :: 0 <= i < |Seen(s)| ==> 0 <= Seen(s)[i] < g.numVertices
  {
    forall i | 0 <= i < |Seen(s)|
      ensures 0 <= Seen(s)[i] < g.numVertices
    {
      if i < |s.visits| {
        assert Seen(s)[i] == s.visits[i].vertex;
      } else {
        assert Seen(s)[i] == Queues.Contents(s.queue)[i - |s.visits|];
      }
    }
  }

  lemma StepLabelled(g: Graph, start: nat, parents0: seq<int>, levels0: seq<int>, s: Search, added: seq<nat>, r: Search)
    requires Valid(g) && start < g.numVertices && |parents0| == g.numVertices && |levels0| == g.numVertices
    requires QueueShaped(g, s) && QueueShaped(g, r)
    requires Marked(g, s) && Labelled(g, start, parents0, levels0, s) && Steps(g, start, s, added, r)
    ensures Labelled(g, start, parents0, levels0, r)
  {
    var q := Queues.Contents(s.queue);
    var seen := Seen(s);
    FrontIsStart(g, start, parents0, levels0, s);
    assert seen[|s.visits|] == q[0];
    forall i | 0 <= i < |s.visits|
      ensures s.visited[s.visits[i].vertex]
    {
      assert seen[i] == s.visits[i].vertex;
    }
  }

  lemma StepDescended(g: Graph, start: nat, parents0: seq<int>, levels0: seq<int>, s: Search, added: seq<nat>, r: Search)
    requires Valid(g) && start < g.numVertices && |parents0| == g.numVertices && |levels0| == g.numVertices
    requires QueueShaped(g, s) && QueueShaped(g, r)
    requires Marked(g, s) && Labelled(g, start, parents0, levels0, s) && Hung(g, start, s) && Steps(g, start, s, added, r)
    ensures Descended(g, r)
  {
    var q := Queues.Contents(s.queue);
    FrontIsStart(g, start, parents0, levels0, s);
    StepLabels(g, start, s, added, r);
    DescendedStep(g, s, q[0], r);
  }

  lemma StepPending(g: Graph, start: nat, s: Search, added: seq<nat>, r: Search)
    requires Valid(g) && start < g.numVertices && QueueShaped(g, s) && QueueShaped(g, r)
    requires Marked(g, s) && QueueAttached(g, start, s) && Steps(g, start, s, added, r)
    ensures QueueAttached(g, start, r)
  {
    var q := Queues.Contents(s.queue);
    StepLabels(g, start, s, added, r);
    PendingStep(g, start, s, q[0], added, r);
  }

  /**
   What a step does to the labels: marked vertices keep theirs, the newly
   marked ones hang off the expanded vertex `cur`.
   */
  lemma StepLabels(g: Graph, start: nat, s: Search, added: seq<nat>, r: Search)
    requires Valid(g) && start < g.numVertices && QueueShaped(g, s) && Marked(g, s) && Steps(g, start, s, added, r)
    ensures var q := Queues.Contents(s.queue);
      var cur := q[0];
      && s.visited[cur]
      && (forall i :: 0 <= i < |q| ==> s.visited[q[i]] && r.parents[q[i]] == s.parents[q[i]] && r.levels[q[i]] == s.levels[q[i]])
      && (forall i :: 0 <= i < |s.visits| ==>
           s.visited[s.visits[i].vertex]
           && r.parents[s.visits[i].vertex] == s.parents[s.visits[i].vertex]
           && r.levels[s.visits[i].vertex] == s.levels[s.visits[i].vertex])
      && (forall i :: 0 <= i < |added| ==>
           added[i] < g.numVertices && !s.visited[added[i]] && Adjacent(g, cur, added[i])
           && r.parents[added[i]] == cur && r.levels[added[i]] == s.levels[cur] + 1)
      && forall v :: 0 <= v < g.numVertices ==> (r.visited[v] <==> s.visited[v] || v in added)
  {
    var q := Queues.Contents(s.queue);
    var seen := Seen(s);
    forall i | 0 <= i < |q|
      ensures s.visited[q[i]]
    {
      assert seen[|s.visits| + i] == q[i];
    }
    forall i | 0 <= i < |s.visits|
      ensures s.visited[s.visits[i].vertex]
    {
      assert seen[i] == s.visits[i].vertex;
    }
  }

  lemma DescendedStep(g: Graph, s: Search, cur: nat, r: Search)
    requires Valid(g) && QueueShaped(g, s) && QueueShaped(g, r) && Descended(g, s) && cur < g.numVertices
    requires 0 <= s.parents[cur] < g.numVertices
    requires |s.visits| > 0 ==>
      && s.parents[cur] in Order(s.visits)
      && Adjacent(g, s.parents[cur], cur) && s.levels[cur] == s.levels[s.parents[cur]] + 1
    requires r.visits == s.visits + [Visit(cur, s.parents[cur], s.levels[cur])]
    requires forall i :: 0 <= i < |s.visits| ==> r.levels[s.visits[i].vertex] == s.levels[s.visits[i].vertex]
    requires r.levels[cur] == s.levels[cur]
    ensures Descended(g, r)
  {
    OrderAppend(s.visits, r.visits[|s.visits|]);
    forall x | x in Order(s.visits)
      ensures r.levels[x] == s.levels[x]
    {
      var i :| 0 <= i < |s.visits| && Order(s.visits)[i] == x;
    }
    forall j | 0 < j < |r.visits|
      ensures r.visits[j].parent in Order(r.visits)[..j]
      ensures Adjacent(g, r.visits[j].parent, r.visits[j].vertex)
      ensures r.levels[r.visits[j].vertex] == r.levels[r.visits[j].parent] + 1
    {
      if j < |s.visits| {
        assert Order(r.visits)[..j] == Order(s.visits)[..j];
        assert r.visits[j] == s.visits[j];
        assert s.visits[j].parent in Order(s.visits);
      } else {
        assert Order(r.visits)[..j] == Order(s.visits);
      }
    }
  }

  lemma PendingStep(g: Graph, start: nat, s: Search, cur: nat, added: seq<nat>, r: Search)
    requires Valid(g) && QueueShaped(g, s) && QueueShaped(g, r) && QueueAttached(g, start, s) && cur < g.numVertices
    requires var q := Queues.Contents(s.queue);
      && |q| > 0 && q[0] == cur
      && Queues.Contents(r.queue) == q[1..] + added
      && (forall i :: 0 <= i < |q| ==> r.parents[q[i]] == s.parents[q[i]] && r.levels[q[i]] == s.levels[q[i]])
    requires Order(r.visits) == Order(s.visits) + [cur]
    requires forall i :: 0 <= i < |s.visits| ==> r.levels[s.visits[i].vertex] == s.levels[s.visits[i].vertex]
    requires forall i :: 0 <= i < |added| ==>
      added[i] < g.numVertices && Adjacent(g, cur, added[i])
      && r.parents[added[i]] == cur && r.levels[added[i]] == s.levels[cur] + 1
    ensures QueueAttached(g, start, r)
  {
    var q := Queues.Contents(s.queue);
    var q2 := Queues.Contents(r.queue);
    forall x | x in Order(s.visits)
      ensures x in Order(r.visits) && r.levels[x] == s.levels[x]
    {
      var i :| 0 <= i < |s.visits| && Order(s.visits)[i] == x;
    }
    assert cur in Order(r.visits);
    forall i | 0 <= i < |q2| && q2[i] != start
      ensures 0 <= r.parents[q2[i]] < g.numVertices
      ensures r.parents[q2[i]] in Order(r.visits)
      ensures Adjacent(g, r.parents[q2[i]], q2[i])
      ensures r.levels[q2[i]] == r.levels[r.parents[q2[i]]] + 1
    {
      if i < |q| - 1 {
        assert q2[i] == q[i + 1];
      } else {
        assert q2[i] == added[i - (|q| - 1)];
      }
    }
  }

  lemma StepExact(g: Graph, start: nat, s: Search, added: seq<nat>, r: Search)
    requires Valid(g) && start < g.numVertices && QueueShaped(g, s) && QueueShaped(g, r)
    requires Marked(g, s) && Exact(g, start, s) && Frontier(g, start, s) && Steps(g, start, s, added, r)
    ensures Exact(g, start, r)
  {
    FrontLevel(g, start, s);
    ExactNext(g, start, s, Queues.Contents(s.queue)[0], r);
  }

  lemma ExactNext(g: Graph, start: nat, s: Search, cur: nat, r: Search)
    requires Valid(g) && start < g.numVertices && cur < g.numVertices
    requires |s.visited| == g.numVertices && |s.levels| == g.numVertices
    requires |r.visited| == g.numVertices && |r.levels| == g.numVertices
    requires s.visited[cur]
    requires Exact(g, start, s)
    requires forall v :: 0 <= v < g.numVertices && !s.visited[v] ==> v !in Ball(g, start, s.levels[cur])
    requires forall v :: 0 <= v < g.numVertices ==> (r.visited[v] <==> s.visited[v] || Adjacent(g, cur, v))
    requires forall v :: 0 <= v < g.numVertices ==>
      if r.visited[v] && !s.visited[v] then r.levels[v] == s.levels[cur] + 1 else r.levels[v] == s.levels[v]
    ensures Exact(g, start, r)
  {
    var level: nat := s.levels[cur];
    assert IsDistance(g, start, cur, level);
    forall v | 0 <= v < g.numVertices && r.visited[v]
      ensures r.levels[v] >= 0 && IsDistance(g, start, v, r.levels[v])
    {
      if !s.visited[v] {
        NextDistance(g, start, cur, v, level);
      } else {
        var d: nat := s.levels[v];
        assert IsDistance(g, start, v, d);
      }
    }
  }

  /** The front vertex is marked at a level whose ball is already marked. */
  lemma FrontLevel(g: Graph, start: nat, s: Search)
    requires Valid(g) && start < g.numVertices && QueueShaped(g, s)
    requires Marked(g, s) && Exact(g, start, s) && Frontier(g, start, s) && Queues.Contents(s.queue) != []
    ensures var cur := Queues.Contents(s.queue)[0];
      && 0 <= cur < g.numVertices && s.visited[cur] && s.levels[cur] >= 0
      && forall v :: 0 <= v < g.numVertices && !s.visited[v] ==> v !in Ball(g, start, s.levels[cur])
  {
    assert Seen(s)[|s.visits|] == Queues.Contents(s.queue)[0];
  }

  lemma StepLayered(g: Graph, start: nat, s: Search, added: seq<nat>, r: Search)
    requires Valid(g) && start < g.numVertices && QueueShaped(g, s) && QueueShaped(g, r)
    requires Marked(g, s) && Layered(g, s) && Steps(g, start, s, added, r)
    ensures Layered(g, r)
  {
    var q := Queues.Contents(s.queue);
    StepLabels(g, start, s, added, r);
    LayeredStep(g, s, q[0], s.levels[q[0]], added, r);
  }

  lemma LayeredStep(g: Graph, s: Search, cur: nat, level: int, added: seq<nat>, r: Search)
    requires Valid(g) && QueueShaped(g, s) && QueueShaped(g, r) && Layered(g, s)
    requires var q := Queues.Contents(s.queue);
      && |q| > 0 && q[0] == cur && s.levels[cur] == level
      && Queues.Contents(r.queue) == q[1..] + added
      && (forall i :: 0 <= i < |q| ==> r.levels[q[i]] == s.levels[q[i]])
    requires forall i :: 0 <= i < |added| ==> added[i] < g.numVertices && r.levels[added[i]] == level + 1
    requires |r.visits| == |s.visits| + 1 && r.visits[|s.visits|].level == level
    requires forall i :: 0 <= i < |s.visits| ==> r.visits[i] == s.visits[i]
    ensures Layered(g, r)
  {
    var q := Queues.Contents(s.queue);
    var q2 := Queues.Contents(r.queue);
    forall i | 0 <= i < |q2|
      ensures level <= r.levels[q2[i]] <= level + 1
      ensures i >= |q| - 1 ==> r.levels[q2[i]] == level + 1
    {
      if i < |q| - 1 {
        assert q2[i] == q[i + 1];
      } else {
        assert q2[i] == added[i - (|q| - 1)];
      }
    }
    forall i, j | 0 <= i <= j < |q2|
      ensures r.levels[q2[i]] <= r.levels[q2[j]] <= r.levels[q2[i]] + 1
    {
      if j < |q| - 1 {
        assert q2[i] == q[i + 1] && q2[j] == q[j + 1];
      }
    }
  }

  /**
   The front level after a step is the old one or one more. When it moves
   on, every vertex one hop past the old level is already marked: its
   neighbour at the old level has been reported or is the vertex just
   expanded, since nothing of that level is left in the queue.
   */
  lemma StepFrontier(g: Graph, start: nat, s: Search, added: seq<nat>, r: Search)
    requires Valid(g) && start < g.numVertices && QueueShaped(g, s) && QueueShaped(g, r)
    requires Marked(g, s) && Exact(g, start, s) && Layered(g, s) && Frontier(g, start, s) && Closed(g, s)
    requires Steps(g, start, s, added, r)
    ensures Frontier(g, start, r)
  {
    var q := Queues.Contents(s.queue);
    var cur := q[0];
    StepLabels(g, start, s, added, r);
    FrontLevel(g, start, s);
    var level: nat := s.levels[cur];
    NextFront(g, s, cur, level, added, r);
    var q2 := Queues.Contents(r.queue);
    if |q2| > 0 {
      if r.levels[q2[0]] == level {
        FrontStays(g, start, s, level, r);
      } else {
        BackIsDone(g, s);
        FrontRises(g, start, s, cur, level, r);
      }
    }
  }

  /** The front level after a step, and what a rise says about the queue left behind `cur`. */
  lemma NextFront(g: Graph, s: Search, cur: nat, level: nat, added: seq<nat>, r: Search)
    requires Valid(g) && QueueShaped(g, s) && QueueShaped(g, r) && Layered(g, s)
    requires var q := Queues.Contents(s.queue);
      && |q| > 0 && q[0] == cur && s.levels[cur] == level
      && Queues.Contents(r.queue) == q[1..] + added
      && (forall i :: 0 <= i < |q| ==> r.levels[q[i]] == s.levels[q[i]])
    requires forall i :: 0 <= i < |added| ==> added[i] < g.numVertices && r.levels[added[i]] == level + 1
    ensures var q := Queues.Contents(s.queue); var q2 := Queues.Contents(r.queue);
      |q2| > 0 ==>
        && (r.levels[q2[0]] == level || r.levels[q2[0]] == level + 1)
        && (r.levels[q2[0]] == level + 1 ==> forall i :: 1 <= i < |q| ==> s.levels[q[i]] == level + 1)
  {
    var q := Queues.Contents(s.queue);
    var q2 := Queues.Contents(r.queue);
    if |q2| > 0 {
      if |q| > 1 {
        assert q2[0] == q[1];
        forall i | 1 <= i < |q|
          ensures s.levels[q[1]] <= s.levels[q[i]] <= level + 1
        {
        }
      } else {
        assert q2[0] == added[0];
      }
    }
  }

  /** The front stays at its level: the ball of that level was marked and stays marked. */
  lemma FrontStays(g: Graph, start: nat, s: Search, level: nat, r: Search)
    requires Valid(g) && start < g.numVertices && QueueShaped(g, s) && QueueShaped(g, r)
    requires forall v :: 0 <= v < g.numVertices && !s.visited[v] ==> v !in Ball(g, start, level)
    requires forall v :: 0 <= v < g.numVertices && s.visited[v] ==> r.visited[v]
    requires var q2 := Queues.Contents(r.queue); |q2| > 0 && r.levels[q2[0]] == level
    ensures Frontier(g, start, r)
  {
  }

  /** Every marked vertex is reported, at the front, or queued behind it. */
  lemma BackIsDone(g: Graph, s: Search)
    requires Valid(g) && QueueShaped(g, s) && Marked(g, s) && Queues.Contents(s.queue) != []
    ensures var q := Queues.Contents(s.queue);
      forall x :: 0 <= x < g.numVertices && s.visited[x] ==>
        x in Order(s.visits) || x == q[0] || exists i :: 1 <= i < |q| && q[i] == x
  {
    var q := Queues.Contents(s.queue);
    forall x | 0 <= x < g.numVertices && s.visited[x]
      ensures x in Order(s.visits) || x == q[0] || exists i :: 1 <= i < |q| && q[i] == x
    {
      SeenSplit(s, x);
    }
  }

  lemma SeenSplit(s: Search, x: int)
    requires Queues.Valid(s.queue) && x in Seen(s) && Queues.Contents(s.queue) != []
    ensures var q := Queues.Contents(s.queue);
      x in Order(s.visits) || x == q[0] || exists i :: 1 <= i < |q| && q[i] == x
  {
    assert Seen(s) == Order(s.visits) + Queues.Contents(s.queue);
    InConcat(Order(s.visits), Queues.Contents(s.queue), x);
  }

  lemma FrontRises(g: Graph, start: nat, s: Search, cur: nat, level: nat, r: Search)
    requires Valid(g) && start < g.numVertices && QueueShaped(g, s) && QueueShaped(g, r) && cur < g.numVertices
    requires Exact(g, start, s) && Closed(g, s)
    requires forall v :: 0 <= v < g.numVertices && !s.visited[v] ==> v !in Ball(g, start, level)
    requires forall v :: 0 <= v < g.numVertices ==> (s.visited[v] || Adjacent(g, cur, v) ==> r.visited[v])
    requires var q := Queues.Contents(s.queue);
      && |q| > 0 && q[0] == cur
      && (forall i :: 1 <= i < |q| ==> s.levels[q[i]] == level + 1)
      && forall x :: 0 <= x < g.numVertices && s.visited[x] ==>
           x in Order(s.visits) || x == q[0] || exists i :: 1 <= i < |q| && q[i] == x
    requires var q2 := Queues.Contents(r.queue); |q2| > 0 && r.levels[q2[0]] == level + 1
    ensures Frontier(g, start, r)
  {
    var n := g.numVertices;
    var q := Queues.Contents(s.queue);
    var b := Ball(g, start, level);
    forall y | y in Ball(g, start, level + 1)
      ensures r.visited[y]
    {
      if y !in b {
        assert y in Step(g, b);
        var x: nat :| x in b && y < n && Adjacent(g, x, y);
        assert s.visited[x];
        if x in Order(s.visits) {
          var k :| 0 <= k < |s.visits| && Order(s.visits)[k] == x;
          assert s.visits[k].vertex == x;
        } else if x != cur {
          var i :| 1 <= i < |q| && q[i] == x;
          assert IsDistance(g, start, x, s.levels[x]);
          DistanceIsLeast(g, start, x, s.levels[x], level);
        }
      }
    }
  }

  lemma StepClosed(g: Graph, start: nat, s: Search, added: seq<nat>, r: Search)
    requires Valid(g) && start < g.numVertices && QueueShaped(g, s) && QueueShaped(g, r)
    requires Closed(g, s) && Steps(g, start, s, added, r)
    ensures Closed(g, r)
  {
  }

  lemma StepGrown(g: Graph, start: nat, tree0: Graph, parents0: seq<int>, levels0: seq<int>, s: Search, added: seq<nat>, r: Search)
    requires Setting(g, start, tree0, parents0, levels0)
    requires QueueShaped(g, s) && QueueShaped(g, r)
    requires Marked(g, s) && Labelled(g, start, parents0, levels0, s) && TreeFollows(tree0, s.visits, s.tree) && Steps(g, start, s, added, r)
    ensures TreeFollows(tree0, r.visits, r.tree)
  {
    FrontIsStart(g, start, parents0, levels0, s);
    var rec := r.visits[|s.visits|];
    if s.visits == [] {
      assert TreeEdges(r.visits) == [];
    } else {
      TreeGrows(tree0, s.visits, rec);
    }
  }
}

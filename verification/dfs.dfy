/**
 Depth-first traversal with a bounded stack that builds a tree
 (dfsComPilhaArvore). A vertex is marked when popped, so a vertex may sit
 on the stack several times; a popped vertex that is already marked is
 skipped. Labels are written on every push attempt, so the last write
 before the vertex is popped wins, and they are written even when the
 stack is full and the push itself is dropped.
 */
module DepthFirst {
  import opened Seqs
  import opened Graphs
  import opened Reachability
  import opened Visits
  import Stacks

  /** The entries of `xs` not yet marked, in order. */
  function Unmarked(xs: seq<nat>, visited: seq<bool>): (r: seq<nat>)
    requires forall i :: 0 <= i < |xs| ==> xs[i] < |visited|
    ensures forall i :: 0 <= i < |r| ==> r[i] < |visited| && !visited[r[i]]
    ensures |r| <= |xs|
  {
    if xs == [] then []
    else (if visited[xs[0]] then [] else [xs[0]]) + Unmarked(xs[1..], visited)
  }

  /** Exactly the unmarked entries are kept. */
  lemma {:induction false} UnmarkedMembers(xs: seq<nat>, visited: seq<bool>)
    requires forall i :: 0 <= i < |xs| ==> xs[i] < |visited|
    ensures forall x :: x in Unmarked(xs, visited) <==> x in xs && !visited[x]
    decreases |xs|
  {
    if xs != [] {
      UnmarkedMembers(xs[1..], visited);
      assert xs == [xs[0]] + xs[1..];
    }
  }

  /** Filtering a concatenation filters each part. */
  lemma {:induction false} UnmarkedAppend(a: seq<nat>, b: seq<nat>, visited: seq<bool>)
    requires forall i :: 0 <= i < |a| ==> a[i] < |visited|
    requires forall i :: 0 <= i < |b| ==> b[i] < |visited|
    ensures Unmarked(a + b, visited) == Unmarked(a, visited) + Unmarked(b, visited)
    decreases |a|
  {
    if a == [] {
      assert a + b == b;
    } else {
      assert (a + b)[1..] == a[1..] + b;
      UnmarkedAppend(a[1..], b, visited);
    }
  }

  lemma UnmarkedStep(xs: seq<nat>, k: nat, visited: seq<bool>)
    requires forall i :: 0 <= i < |xs| ==> xs[i] < |visited|
    requires k < |xs|
    ensures Unmarked(xs[..k + 1], visited) == Unmarked(xs[..k], visited) + (if visited[xs[k]] then [] else [xs[k]])
  {
    assert xs[..k + 1] == xs[..k] + [xs[k]];
    UnmarkedAppend(xs[..k], [xs[k]], visited);
  }

  /** The longest prefix of `xs` that fits in `room` slots. */
  function Fit(xs: seq<nat>, room: int): (r: seq<nat>)
    ensures room <= 0 ==> r == []
    ensures 0 <= room < |xs| ==> r == xs[..room]
    ensures |xs| <= room ==> r == xs
    ensures |r| <= |xs| && forall i :: 0 <= i < |r| ==> r[i] == xs[i]
  {
    if room <= 0 then [] else if room < |xs| then xs[..room] else xs
  }

  /**
   One pass of the main loop seen on the marks and the stack items alone:
   the top item is popped; if it is unmarked it is marked and what fits of
   its unmarked neighbours is pushed, in scan order.
   */
  function PopStep(g: Graph, visited: seq<bool>, items: seq<int>, capacity: nat): (r: (seq<bool>, seq<int>))
    requires Valid(g) && |visited| == g.numVertices && items != []
    requires forall i :: 0 <= i < |items| ==> 0 <= items[i] < g.numVertices
    ensures |r.0| == g.numVertices
    ensures forall i :: 0 <= i < |r.1| ==> 0 <= r.1[i] < g.numVertices
  {
    var cur := items[|items| - 1];
    var rest := items[..|items| - 1];
    if visited[cur] then (visited, rest)
    else
      var marked := visited[cur := true];
      var pushed := Fit(Unmarked(Neighbors(g, cur, Descending), marked), capacity - |rest|);
      (marked, rest + pushed)
  }

  /**
   The marks the main loop ends with, from the given marks and stack items,
   with a stack of `capacity` slots. Marks are never cleared.
   */
  function Settle(g: Graph, visited: seq<bool>, items: seq<int>, capacity: nat): (r: seq<bool>)
    requires Valid(g) && |visited| == g.numVertices
    requires forall i :: 0 <= i < |items| ==> 0 <= items[i] < g.numVertices
    ensures |r| == g.numVertices
    ensures forall v :: 0 <= v < g.numVertices && visited[v] ==> r[v]
    decreases g.numVertices - CountTrue(visited), |items|
  {
    if items == [] then visited
    else
      CountTrueSet(visited, items[|items| - 1]);
      var next := PopStep(g, visited, items, capacity);
      Settle(g, next.0, next.1, capacity)
  }

  /**
   The neighbour scan of the visited vertex `cur`: the matrix row from the
   highest index down, or the list from its head. Every unmarked neighbour is
   pushed and labelled with `cur` as parent one level down; the pushes that
   find the stack full are dropped, the labels are written regardless.
   */
  method PushNeighbours(g: Graph, cur: nat, visited: seq<bool>, stack0: Stacks.Stack, parents0: seq<int>, levels0: seq<int>)
    returns (stack: Stacks.Stack, parents: seq<int>, levels: seq<int>)
    requires Valid(g) && cur < g.numVertices
    requires |visited| == g.numVertices && |parents0| == g.numVertices && |levels0| == g.numVertices
    requires visited[cur]
    requires Stacks.Valid(stack0)
    ensures Stacks.Valid(stack) && stack.capacity == stack0.capacity
    ensures |parents| == g.numVertices && |levels| == g.numVertices
    // What fits of the unmarked neighbours, in scan order, lands on top of the old items.
    ensures Stacks.Items(stack) ==
      Stacks.Items(stack0) + Fit(Unmarked(Neighbors(g, cur, Descending), visited), stack0.capacity - |Stacks.Items(stack0)|)
    // Every unmarked neighbour is relabelled from `cur`, pushed or not; nothing else changes.
    ensures forall v :: 0 <= v < g.numVertices ==>
      if Adjacent(g, cur, v) && !visited[v] then parents[v] == cur && levels[v] == levels0[cur] + 1
      else parents[v] == parents0[v] && levels[v] == levels0[v]
  {
    var nbrs := Neighbors(g, cur, Descending);
    stack, parents, levels := PushUnmarked(nbrs, cur, visited, stack0, parents0, levels0);
    UnmarkedMembers(nbrs, visited);
  }

  /** Pushes and labels the unmarked entries of `nbrs`, in order. */
  method PushUnmarked(nbrs: seq<nat>, cur: nat, visited: seq<bool>, stack0: Stacks.Stack, parents0: seq<int>, levels0: seq<int>)
    returns (stack: Stacks.Stack, parents: seq<int>, levels: seq<int>)
    requires forall i :: 0 <= i < |nbrs| ==> nbrs[i] < |visited|
    requires cur < |visited| && visited[cur]
    requires |parents0| == |visited| && |levels0| == |visited|
    requires Stacks.Valid(stack0)
    ensures Stacks.Valid(stack) && stack.capacity == stack0.capacity
    ensures |parents| == |visited| && |levels| == |visited|
    ensures Stacks.Items(stack) ==
      Stacks.Items(stack0) + Fit(Unmarked(nbrs, visited), stack0.capacity - |Stacks.Items(stack0)|)
    ensures Relabelled(parents0, levels0, parents, levels, Unmarked(nbrs, visited), cur, levels0[cur] + 1)
  {
    var n := |visited|;
    var base := Stacks.Items(stack0);
    var room := stack0.capacity - |base|;
    var level := levels0[cur] + 1;
    stack, parents, levels := stack0, parents0, levels0;
    ghost var added: seq<nat> := [];
    var k := 0;
    while k < |nbrs|
      invariant 0 <= k <= |nbrs|
      invariant Stacks.Valid(stack) && stack.capacity == stack0.capacity
      invariant |parents| == n && |levels| == n
      invariant added == Unmarked(nbrs[..k], visited)
      invariant Stacks.Items(stack) == base + Fit(added, room)
      invariant Relabelled(parents0, levels0, parents, levels, added, cur, level)
    {
      var w := nbrs[k];
      UnmarkedStep(nbrs, k, visited);
      if !visited[w] {
        PushFits(stack, base, added, w);
        stack := Stacks.Push(stack, w);
        RelabelSnoc(parents0, levels0, parents, levels, added, cur, level, w);
        parents := parents[w := cur];
        levels := levels[w := level];
        added := added + [w];
      }
      k := k + 1;
    }
    assert nbrs[..k] == nbrs;
  }

  /** A push onto a stack holding `base` plus what fitted of `added` leaves `base` plus what fits of `added + [w]`. */
  lemma PushFits(s: Stacks.Stack, base: seq<int>, added: seq<nat>, w: nat)
    requires Stacks.Valid(s) && |base| <= s.capacity
    requires Stacks.Items(s) == base + Fit(added, s.capacity - |base|)
    ensures Stacks.Items(Stacks.Push(s, w)) == base + Fit(added + [w], s.capacity - |base|)
  {
    var room := s.capacity - |base|;
    if |added| < room {
      assert |Stacks.Items(s)| < s.capacity;
      assert Fit(added + [w], room) == added + [w];
    } else {
      assert |Stacks.Items(s)| == s.capacity;
      assert Fit(added + [w], room) == Fit(added, room);
    }
  }

  /**
   The traversal state between two pops, together with the labels the caller
   supplied, which the frame on unmarked vertices refers to.
   */
  datatype Search = Search(stack: Stacks.Stack, visited: seq<bool>, parents: seq<int>, levels: seq<int>, visits: seq<Visit>, tree: Graph,
                           parents0: seq<int>, levels0: seq<int>)

  /** Sizes and vertex ranges. */
  predicate StackShaped(g: Graph, s: Search)
    requires Valid(g)
  {
    var n := g.numVertices;
    && Stacks.Valid(s.stack)
    && |s.visited| == n && |s.parents| == n && |s.levels| == n && |s.parents0| == n && |s.levels0| == n
    && (forall i :: 0 <= i < |Stacks.Items(s.stack)| ==> 0 <= Stacks.Items(s.stack)[i] < n)
    && (forall i :: 0 <= i < |s.visits| ==> s.visits[i].vertex < n && s.visits[i].parent < n)
    && Valid(s.tree) && s.tree.numVertices == n
  }

  /** The marked vertices are exactly the reported ones, each reported once with its current labels. */
  predicate Reported(g: Graph, s: Search)
    requires Valid(g) && StackShaped(g, s)
  {
    && Distinct(Order(s.visits)) && |s.visits| <= g.numVertices
    && (forall v :: 0 <= v < g.numVertices ==> (s.visited[v] <==> v in Order(s.visits)))
    && forall i :: 0 <= i < |s.visits| ==>
      s.visits[i].parent == s.parents[s.visits[i].vertex] && s.visits[i].level == s.levels[s.visits[i].vertex]
  }

  /** The report starts at `start`; every later vertex hangs off an earlier neighbour, one level down. */
  predicate Rooted(g: Graph, start: nat, s: Search)
    requires Valid(g) && start < g.numVertices && StackShaped(g, s)
  {
    && s.parents[start] == start && s.levels[start] == 0
    && (|s.visits| > 0 ==> s.visits[0] == Visit(start, start, 0))
    && forall j :: 0 < j < |s.visits| ==>
      && s.visits[j].parent in Order(s.visits)[..j]
      && Adjacent(g, s.visits[j].parent, s.visits[j].vertex)
      && s.levels[s.visits[j].vertex] == s.levels[s.visits[j].parent] + 1
  }

  /** A marked vertex lies within its level of hops from `start`. */
  ghost predicate Ranked(g: Graph, start: nat, s: Search)
    requires Valid(g) && start < g.numVertices && StackShaped(g, s)
  {
    forall v :: 0 <= v < g.numVertices && s.visited[v] ==> s.levels[v] >= 0 && v in Ball(g, start, s.levels[v])
  }

  /**
   Before the first pop the stack holds just `start` and nothing is marked;
   afterwards every unmarked stack entry is attached to a marked neighbour.
   */
  predicate StackAttached(g: Graph, start: nat, s: Search)
    requires Valid(g) && start < g.numVertices && StackShaped(g, s)
  {
    var items := Stacks.Items(s.stack);
    && (|s.visits| == 0 ==> items == [start] && forall v :: 0 <= v < g.numVertices ==> !s.visited[v])
    && (|s.visits| > 0 ==> s.visited[start] && forall i :: 0 <= i < |items| && !s.visited[items[i]] ==>
          Attached(g, s.visited, s.parents, s.levels, items[i]))
  }

  /** The index of the last entry of `visits` whose vertex has `v` as a neighbour, or -1 when none has. */
  function LastAdjacent(g: Graph, visits: seq<Visit>, v: nat): (r: int)
    requires Valid(g) && v < g.numVertices
    requires forall i :: 0 <= i < |visits| ==> visits[i].vertex < g.numVertices
    ensures -1 <= r < |visits|
    ensures r >= 0 ==> Adjacent(g, visits[r].vertex, v)
    ensures forall i :: r < i < |visits| ==> !Adjacent(g, visits[i].vertex, v)
  {
    if visits == [] then -1
    else if Adjacent(g, visits[|visits| - 1].vertex, v) then |visits| - 1
    else LastAdjacent(g, visits[..|visits| - 1], v)
  }

  /**
   The labels of `v` as the neighbour scans of the reported vertices
   `scanned` leave them: written by the last of them that has `v` as a
   neighbour, or the caller's when none has.
   */
  predicate WrittenBy(g: Graph, s: Search, scanned: seq<Visit>, v: nat)
    requires Valid(g) && v < g.numVertices && StackShaped(g, s)
    requires forall i :: 0 <= i < |scanned| ==> scanned[i].vertex < g.numVertices
  {
    var i := LastAdjacent(g, scanned, v);
    if i < 0 then s.parents[v] == s.parents0[v] && s.levels[v] == s.levels0[v]
    else s.parents[v] == scanned[i].vertex && s.levels[v] == scanned[i].level + 1
  }

  /**
   Every unmarked vertex other than the start carries the labels the scans
   of `scanned` wrote last, whether or not its push found room.
   */
  predicate LastWritten(g: Graph, start: nat, s: Search, scanned: seq<Visit>)
    requires Valid(g) && StackShaped(g, s)
    requires forall i :: 0 <= i < |scanned| ==> scanned[i].vertex < g.numVertices
  {
    forall v {:trigger WrittenBy(g, s, scanned, v)} :: 0 <= v < g.numVertices && v != start && !s.visited[v] ==>
      WrittenBy(g, s, scanned, v)
  }

  /**
   Each report names as parent the last earlier report that has it as a
   neighbour: no report before an adjacent one is the parent.
   */
  predicate LastParents(g: Graph, visits: seq<Visit>)
    requires Valid(g)
    requires forall i :: 0 <= i < |visits| ==> visits[i].vertex < g.numVertices
  {
    forall i, j :: 0 <= i < j < |visits| && Adjacent(g, visits[i].vertex, visits[j].vertex) ==>
      visits[j].parent !in Order(visits)[..i]
  }

  /** Everything but the labels of the unmarked vertices, which a scan in progress changes. */
  ghost predicate StackCore(g: Graph, start: nat, tree0: Graph, s: Search)
    requires Valid(g) && start < g.numVertices && Valid(tree0) && tree0.numVertices == g.numVertices
  {
    && StackShaped(g, s) && Reported(g, s) && Rooted(g, start, s) && Ranked(g, start, s)
    && StackAttached(g, start, s) && TreeFollows(tree0, s.visits, s.tree) && LastParents(g, s.visits)
  }

  ghost predicate StackInv(g: Graph, start: nat, tree0: Graph, s: Search)
    requires Valid(g) && start < g.numVertices && Valid(tree0) && tree0.numVertices == g.numVertices
  {
    StackCore(g, start, tree0, s) && LastWritten(g, start, s, s.visits)
  }

  /**
   The traversal from `start` with a stack of `capacity` slots; the source
   sizes the stack to the vertex count. The caller supplies a cleared mark
   array, parent and level arrays of one slot per vertex, and the tree graph
   to extend; the marks, labels, report and extended tree are returned.
   */
  method Traverse(g: Graph, start: nat, capacity: nat, visited0: seq<bool>, tree0: Graph, parents0: seq<int>, levels0: seq<int>)
    returns (visited: seq<bool>, tree: Graph, parents: seq<int>, levels: seq<int>, visits: seq<Visit>)
    requires Valid(g) && start < g.numVertices && capacity > 0
    requires |visited0| == g.numVertices && |parents0| == g.numVertices && |levels0| == g.numVertices
    requires forall v :: 0 <= v < |visited0| ==> !visited0[v]
    requires Valid(tree0) && tree0.numVertices == g.numVertices
    ensures |visited| == g.numVertices && |parents| == g.numVertices && |levels| == g.numVertices
    // The start is reported first; exactly the marked vertices are reported, once each, with their final labels,
    // each later one hanging off a neighbour reported before it, one level deeper.
    ensures Reports(g, start, visited, parents, levels, visits)
    // A marked vertex is reachable, within as many hops as its level.
    ensures forall v :: 0 <= v < g.numVertices && visited[v] ==> levels[v] >= 0 && v in Ball(g, start, levels[v])
    // One tree edge per reported vertex after the start, to its parent.
    ensures TreeFollows(tree0, visits, tree) && tree.numEdges == tree0.numEdges + |visits| - 1
    // The marks are those the pop loop leaves, pushes dropped on a full stack included.
    ensures visited == Settle(g, visited0, [start], capacity)
    // A stack with more slots than the degree sum drops nothing, and then exactly the reachable vertices are marked.
    ensures capacity > DegreeSum(g) ==> forall v :: 0 <= v < g.numVertices ==> (visited[v] <==> Reachable(g, start, v))
    // Each later vertex names as parent the last vertex reported before it that has it as a neighbour.
    ensures forall j, k :: 0 < j < |visits| && 0 <= k < j && visits[k].vertex == visits[j].parent ==>
      forall i :: k < i < j ==> !Adjacent(g, visits[i].vertex, visits[j].vertex)
    // An unmarked vertex that no reported vertex has as a neighbour keeps the caller's labels.
    ensures forall v :: 0 <= v < g.numVertices && !visited[v] && (forall i :: 0 <= i < |visits| ==> !Adjacent(g, visits[i].vertex, v)) ==>
      parents[v] == parents0[v] && levels[v] == levels0[v]
    // Any other unmarked vertex carries the labels written by the last reported vertex that has it as a neighbour.
    ensures forall v, i :: 0 <= v < g.numVertices && !visited[v] && 0 <= i < |visits| && Adjacent(g, visits[i].vertex, v) ==>
      && 0 <= parents[v] < g.numVertices && parents[v] in Order(visits) && parents[v] !in Order(visits)[..i]
      && Adjacent(g, parents[v], v) && levels[v] == levels[parents[v]] + 1
    // With more slots than the degree sum every unmarked vertex keeps the caller's labels.
    ensures capacity > DegreeSum(g) ==> forall v :: 0 <= v < g.numVertices && !visited[v] ==>
      parents[v] == parents0[v] && levels[v] == levels0[v]
  {
    var s := Explore(g, start, capacity, visited0, tree0, parents0, levels0);
    visited, tree, parents, levels, visits := s.visited, s.tree, s.parents, s.levels, s.visits;
    LastParentIsLast(g, s.visits);
    UnmarkedLabels(g, start, s);
    if capacity > DegreeSum(g) {
      RoomyStack(g, start, capacity, visited0, visited, levels);
      RoomyUntouched(g, start, visited, visits);
    }
  }

  /** Before the first pop: only `start` on the stack, nothing marked, `start` labelled as the root. */
  lemma InitialSearch(g: Graph, start: nat, capacity: nat, visited0: seq<bool>, tree0: Graph, parents0: seq<int>, levels0: seq<int>, s0: Search)
    requires Valid(g) && start < g.numVertices && capacity > 0
    requires |visited0| == g.numVertices && |parents0| == g.numVertices && |levels0| == g.numVertices
    requires forall v :: 0 <= v < |visited0| ==> !visited0[v]
    requires Valid(tree0) && tree0.numVertices == g.numVertices
    requires s0 == Search(Stacks.Push(Stacks.New(capacity), start), visited0, parents0[start := start], levels0[start := 0], [], tree0,
                          parents0, levels0)
    ensures StackInv(g, start, tree0, s0)
    ensures Stacks.Items(s0.stack) == [start] && s0.stack.capacity == capacity
  {
    assert Stacks.Items(s0.stack) == [start];
    assert StackShaped(g, s0) && Reported(g, s0) && Rooted(g, start, s0) && Ranked(g, start, s0);
    assert StackAttached(g, start, s0) && TreeFollows(tree0, s0.visits, s0.tree);
  }

  /** When the marks are the reachable vertices, no reported vertex has an unmarked neighbour. */
  lemma RoomyUntouched(g: Graph, start: nat, visited: seq<bool>, visits: seq<Visit>)
    requires Valid(g) && start < g.numVertices && |visited| == g.numVertices
    requires forall v :: 0 <= v < g.numVertices ==> (visited[v] <==> Reachable(g, start, v))
    requires forall i :: 0 <= i < |visits| ==> visits[i].vertex < g.numVertices && visited[visits[i].vertex]
    ensures forall v :: 0 <= v < g.numVertices && !visited[v] ==> forall i :: 0 <= i < |visits| ==> !Adjacent(g, visits[i].vertex, v)
  {
    forall v, i | 0 <= v < g.numVertices && !visited[v] && 0 <= i < |visits| && Adjacent(g, visits[i].vertex, v)
      ensures false
    {
      var p := visits[i].vertex;
      var k :| p in Ball(g, start, k);
      StepOut(g, start, k, p, v);
    }
  }

  /** With more slots than the degree sum the traversal marks exactly the vertices reachable from `start`. */
  lemma RoomyStack(g: Graph, start: nat, capacity: nat, visited0: seq<bool>, visited: seq<bool>, levels: seq<int>)
    requires Valid(g) && start < g.numVertices && capacity > DegreeSum(g)
    requires |visited0| == g.numVertices && |levels| == g.numVertices
    requires forall v :: 0 <= v < |visited0| ==> !visited0[v]
    requires visited == Settle(g, visited0, [start], capacity) && visited[start]
    requires forall v :: 0 <= v < g.numVertices && visited[v] ==> levels[v] >= 0 && v in Ball(g, start, levels[v])
    ensures forall v :: 0 <= v < g.numVertices ==> (visited[v] <==> Reachable(g, start, v))
  {
    MaskedBounds(Degrees(g), visited0);
    SettleReachesAll(g, visited0, [start], capacity);
    MarksReachable(g, start, visited, levels);
  }

  /** Pushes the start, labelled as the root, and runs the main loop. */
  method Explore(g: Graph, start: nat, capacity: nat, visited0: seq<bool>, tree0: Graph, parents0: seq<int>, levels0: seq<int>)
    returns (s: Search)
    requires Valid(g) && start < g.numVertices && capacity > 0
    requires |visited0| == g.numVertices && |parents0| == g.numVertices && |levels0| == g.numVertices
    requires forall v :: 0 <= v < |visited0| ==> !visited0[v]
    requires Valid(tree0) && tree0.numVertices == g.numVertices
    ensures StackShaped(g, s) && Finished(g, start, tree0, s)
    ensures LastParents(g, s.visits) && LastWritten(g, start, s, s.visits)
    ensures s.visited == Settle(g, visited0, [start], capacity)
    ensures s.parents0 == parents0 && s.levels0 == levels0
  {
    var s0 := Search(Stacks.Push(Stacks.New(capacity), start), visited0, parents0[start := start], levels0[start := 0], [], tree0,
                     parents0, levels0);
    InitialSearch(g, start, capacity, visited0, tree0, parents0, levels0, s0);
    s := Run(g, start, tree0, s0);
    Finishes(g, start, tree0, s);
  }

  /** What the final state promises about the report, the levels and the tree. */
  ghost predicate Finished(g: Graph, start: nat, tree0: Graph, s: Search)
    requires Valid(g) && start < g.numVertices && Valid(tree0) && tree0.numVertices == g.numVertices && StackShaped(g, s)
  {
    && Reports(g, start, s.visited, s.parents, s.levels, s.visits)
    && (forall v :: 0 <= v < g.numVertices && s.visited[v] ==> s.levels[v] >= 0 && v in Ball(g, start, s.levels[v]))
    && TreeFollows(tree0, s.visits, s.tree) && s.tree.numEdges == tree0.numEdges + |s.visits| - 1
  }

  /** The invariant with the stack empty gives the final promises. */
  lemma Finishes(g: Graph, start: nat, tree0: Graph, s: Search)
    requires Valid(g) && start < g.numVertices && Valid(tree0) && tree0.numVertices == g.numVertices
    requires StackShaped(g, s) && Reported(g, s) && Rooted(g, start, s) && Ranked(g, start, s)
    requires StackAttached(g, start, s) && TreeFollows(tree0, s.visits, s.tree) && Stacks.Items(s.stack) == []
    ensures Finished(g, start, tree0, s)
  {
    assert |s.visits| > 0;
    FinishedReports(g, start, s);
  }

  /** The report clauses of the invariant, once something is reported. */
  lemma FinishedReports(g: Graph, start: nat, s: Search)
    requires Valid(g) && start < g.numVertices
    requires StackShaped(g, s) && Reported(g, s) && Rooted(g, start, s) && |s.visits| > 0 && s.visited[start]
    ensures Reports(g, start, s.visited, s.parents, s.levels, s.visits)
  {
  }

  /** The main loop: pops until the stack is empty, expanding each vertex not yet marked. */
  method Run(g: Graph, start: nat, tree0: Graph, s0: Search) returns (s: Search)
    requires Valid(g) && start < g.numVertices && Valid(tree0) && tree0.numVertices == g.numVertices
    requires StackInv(g, start, tree0, s0)
    ensures StackInv(g, start, tree0, s) && Stacks.Items(s.stack) == []
    ensures s.visited == Settle(g, s0.visited, Stacks.Items(s0.stack), s0.stack.capacity)
    ensures s.parents0 == s0.parents0 && s.levels0 == s0.levels0
  {
    s := s0;
    ghost var c := s0.stack.capacity;
    while !Stacks.IsEmpty(s.stack)
      invariant StackInv(g, start, tree0, s) && s.stack.capacity == c
      invariant s.parents0 == s0.parents0 && s.levels0 == s0.levels0
      invariant Settle(g, s.visited, Stacks.Items(s.stack), c) == Settle(g, s0.visited, Stacks.Items(s0.stack), c)
      decreases g.numVertices - |s.visits|, |Stacks.Items(s.stack)|
    {
      s := Step(g, start, tree0, s);
    }
  }

  /** One pass of the main loop: pops the top entry and expands it unless it is already marked. */
  method Step(g: Graph, start: nat, tree0: Graph, s: Search) returns (r: Search)
    requires Valid(g) && start < g.numVertices && Valid(tree0) && tree0.numVertices == g.numVertices
    requires StackInv(g, start, tree0, s) && Stacks.Items(s.stack) != []
    ensures StackInv(g, start, tree0, r) && r.stack.capacity == s.stack.capacity
    ensures r.parents0 == s.parents0 && r.levels0 == s.levels0
    ensures (r.visited, Stacks.Items(r.stack)) == PopStep(g, s.visited, Stacks.Items(s.stack), s.stack.capacity)
    ensures |s.visits| < |r.visits| || (r.visits == s.visits && |Stacks.Items(r.stack)| < |Stacks.Items(s.stack)|)
  {
    var popped := Stacks.Pop(s.stack);
    var cur := popped.1;
    ghost var items := Stacks.Items(s.stack);
    assert cur == items[|items| - 1];
    assert Stacks.Items(popped.0) == items[..|items| - 1];
    if !s.visited[cur] {
      r := VisitVertex(g, start, tree0, s, popped.0, cur);
    } else {
      SkipKeeps(g, start, tree0, s, popped.0, cur);
      r := s.(stack := popped.0);
    }
  }

  /** Read off the last-writer invariant: the labels of each unmarked vertex, by whether a report has it as a neighbour. */
  lemma UnmarkedLabels(g: Graph, start: nat, s: Search)
    requires Valid(g) && start < g.numVertices && StackShaped(g, s) && s.visited[start] && Distinct(Order(s.visits))
    requires forall i :: 0 <= i < |s.visits| ==> s.visits[i].level == s.levels[s.visits[i].vertex]
    requires LastWritten(g, start, s, s.visits)
    ensures forall v :: 0 <= v < g.numVertices && !s.visited[v] && (forall i :: 0 <= i < |s.visits| ==> !Adjacent(g, s.visits[i].vertex, v)) ==>
      s.parents[v] == s.parents0[v] && s.levels[v] == s.levels0[v]
    ensures forall v, i :: 0 <= v < g.numVertices && !s.visited[v] && 0 <= i < |s.visits| && Adjacent(g, s.visits[i].vertex, v) ==>
      && 0 <= s.parents[v] < g.numVertices && s.parents[v] in Order(s.visits) && s.parents[v] !in Order(s.visits)[..i]
      && Adjacent(g, s.parents[v], v) && s.levels[v] == s.levels[s.parents[v]] + 1
  {
    forall v | 0 <= v < g.numVertices && !s.visited[v]
      ensures WrittenBy(g, s, s.visits, v)
    {
    }
    forall v, i | 0 <= v < g.numVertices && !s.visited[v] && 0 <= i < |s.visits| && Adjacent(g, s.visits[i].vertex, v)
      ensures 0 <= s.parents[v] < g.numVertices && s.parents[v] in Order(s.visits) && s.parents[v] !in Order(s.visits)[..i]
    {
      var last := LastAdjacent(g, s.visits, v);
      assert Order(s.visits)[last] == s.visits[last].vertex;
    }
  }

  /** With reports distinct, a parent that is the last earlier adjacent report has no adjacent report after it. */
  lemma LastParentIsLast(g: Graph, visits: seq<Visit>)
    requires Valid(g)
    requires forall i :: 0 <= i < |visits| ==> visits[i].vertex < g.numVertices
    requires Distinct(Order(visits)) && LastParents(g, visits)
    ensures forall j, k :: 0 < j < |visits| && 0 <= k < j && visits[k].vertex == visits[j].parent ==>
      forall i :: k < i < j ==> !Adjacent(g, visits[i].vertex, visits[j].vertex)
  {
    forall j, k, i | 0 < j < |visits| && 0 <= k < j && visits[k].vertex == visits[j].parent && k < i < j
      ensures !Adjacent(g, visits[i].vertex, visits[j].vertex)
    {
      assert Order(visits)[..i][k] == visits[j].parent;
    }
  }

  /** Popping an entry that is already marked only shrinks the stack. */
  lemma SkipKeeps(g: Graph, start: nat, tree0: Graph, s: Search, stack: Stacks.Stack, cur: nat)
    requires Valid(g) && start < g.numVertices && Valid(tree0) && tree0.numVertices == g.numVertices
    requires StackInv(g, start, tree0, s)
    requires Stacks.Valid(stack) && stack.capacity == s.stack.capacity
    requires Stacks.Items(stack) + [cur] == Stacks.Items(s.stack)
    requires cur < g.numVertices && s.visited[cur]
    ensures StackInv(g, start, tree0, s.(stack := stack))
  {
    SkipStack(g, start, tree0, s, stack, cur);
    SkipRecords(g, start, tree0, s, s.(stack := stack));
  }

  /** The shorter stack still holds vertices, each marked or attached. */
  lemma SkipStack(g: Graph, start: nat, tree0: Graph, s: Search, stack: Stacks.Stack, cur: nat)
    requires Valid(g) && start < g.numVertices && Valid(tree0) && tree0.numVertices == g.numVertices
    requires StackInv(g, start, tree0, s)
    requires Stacks.Valid(stack) && Stacks.Items(stack) + [cur] == Stacks.Items(s.stack)
    requires cur < g.numVertices && s.visited[cur]
    ensures StackShaped(g, s.(stack := stack)) && StackAttached(g, start, s.(stack := stack))
  {
    var items := Stacks.Items(s.stack);
    assert forall i :: 0 <= i < |Stacks.Items(stack)| ==> Stacks.Items(stack)[i] == items[i];
  }

  /** The parts of the invariant that do not look at the stack carry over to `t`, which differs from `s` only there. */
  lemma SkipRecords(g: Graph, start: nat, tree0: Graph, s: Search, t: Search)
    requires Valid(g) && start < g.numVertices && Valid(tree0) && tree0.numVertices == g.numVertices
    requires StackInv(g, start, tree0, s) && StackShaped(g, t)
    requires t == s.(stack := t.stack)
    ensures Reported(g, t) && Rooted(g, start, t) && Ranked(g, start, t)
    ensures TreeFollows(tree0, t.visits, t.tree) && LastParents(g, t.visits) && LastWritten(g, start, t, t.visits)
  {
    forall v | 0 <= v < g.numVertices && v != start && !t.visited[v]
      ensures WrittenBy(g, t, t.visits, v)
    {
      assert WrittenBy(g, s, s.visits, v);
    }
  }

  /**
   Marks and reports a popped unmarked vertex, adds its tree edge, and pushes
   its unmarked neighbours.
   */
  method VisitVertex(g: Graph, start: nat, tree0: Graph, s: Search, stack: Stacks.Stack, cur: nat)
    returns (r: Search)
    requires Valid(g) && start < g.numVertices && Valid(tree0) && tree0.numVertices == g.numVertices
    requires StackInv(g, start, tree0, s)
    requires Stacks.Valid(stack) && stack.capacity == s.stack.capacity
    requires Stacks.Items(stack) + [cur] == Stacks.Items(s.stack)
    requires cur < g.numVertices && !s.visited[cur]
    ensures StackInv(g, start, tree0, r)
    ensures |r.visits| == |s.visits| + 1 && r.visits[|s.visits|].vertex == cur
    ensures r.visited == s.visited[cur := true] && r.stack.capacity == stack.capacity
    ensures r.parents0 == s.parents0 && r.levels0 == s.levels0
    ensures (r.visited, Stacks.Items(r.stack)) == PopStep(g, s.visited, Stacks.Items(s.stack), s.stack.capacity)
  {
    ghost var items := Stacks.Items(s.stack);
    assert cur == items[|items| - 1] && Stacks.Items(stack) == items[..|items| - 1];
    var marked := MarkPopped(g, start, tree0, s, stack, cur);
    r := ExpandPopped(g, start, tree0, marked, cur);
  }

  /** Marks and reports a popped unmarked vertex and adds its tree edge. */
  method MarkPopped(g: Graph, start: nat, tree0: Graph, s: Search, stack: Stacks.Stack, cur: nat)
    returns (marked: Search)
    requires Valid(g) && start < g.numVertices && Valid(tree0) && tree0.numVertices == g.numVertices
    requires StackInv(g, start, tree0, s)
    requires Stacks.Valid(stack) && stack.capacity == s.stack.capacity
    requires Stacks.Items(stack) + [cur] == Stacks.Items(s.stack)
    requires cur < g.numVertices && !s.visited[cur]
    ensures Expandable(g, start, tree0, marked, cur)
    ensures |marked.visits| == |s.visits| + 1
    ensures marked.visited == s.visited[cur := true] && marked.stack == stack
    ensures marked.parents0 == s.parents0 && marked.levels0 == s.levels0
  {
    var items := Stacks.Items(s.stack);
    assert cur == items[|items| - 1];
    Visit1(g, start, s.visited, s.parents, s.levels, s.visits, cur);
    var rec := Visit(cur, s.parents[cur], s.levels[cur]);
    var tree := if cur != start then AddEdge(s.tree, cur, s.parents[cur]) else s.tree;
    marked := s.(stack := stack, visited := s.visited[cur := true], visits := s.visits + [rec], tree := tree);
    MarkKeeps(g, start, tree0, s, stack, cur, marked);
  }

  /** Pushes and relabels the unmarked neighbours of the just-marked vertex `cur`. */
  method ExpandPopped(g: Graph, start: nat, tree0: Graph, s: Search, cur: nat)
    returns (r: Search)
    requires Valid(g) && start < g.numVertices && Valid(tree0) && tree0.numVertices == g.numVertices
    requires Expandable(g, start, tree0, s, cur)
    ensures StackInv(g, start, tree0, r)
    ensures r.visits == s.visits && r.visited == s.visited && r.stack.capacity == s.stack.capacity
    ensures r.parents0 == s.parents0 && r.levels0 == s.levels0
    ensures Stacks.Items(r.stack) ==
      Stacks.Items(s.stack) + Fit(Unmarked(Neighbors(g, cur, Descending), s.visited), s.stack.capacity - |Stacks.Items(s.stack)|)
  {
    var stack, parents, levels := PushNeighbours(g, cur, s.visited, s.stack, s.parents, s.levels);
    r := s.(stack := stack, parents := parents, levels := levels);
    ghost var added := Fit(Unmarked(Neighbors(g, cur, Descending), s.visited), s.stack.capacity - |Stacks.Items(s.stack)|);
    PushedNeighbours(g, cur, s.visited, s.stack.capacity - |Stacks.Items(s.stack)|);
    PushKeeps(g, start, tree0, s, cur, r, added);
  }

  /** Facts about a popped unmarked vertex that the loop body relies on. */
  lemma Visit1(g: Graph, start: nat, visited: seq<bool>, parents: seq<int>, levels: seq<int>, visits: seq<Visit>, cur: nat)
    requires Valid(g) && start < g.numVertices && cur < g.numVertices
    requires |visited| == g.numVertices && |parents| == g.numVertices && |levels| == g.numVertices
    requires !visited[cur]
    requires |visits| == 0 ==> cur == start
    requires |visits| > 0 ==> visited[start] && Attached(g, visited, parents, levels, cur)
    requires forall v :: 0 <= v < g.numVertices && visited[v] ==> levels[v] >= 0 && v in Ball(g, start, levels[v])
    requires parents[start] == start && levels[start] == 0
    ensures 0 <= parents[cur] < g.numVertices && levels[cur] >= 0
    ensures cur in Ball(g, start, levels[cur])
  {
    if |visits| > 0 {
      StepOut(g, start, levels[parents[cur]], parents[cur], cur);
    }
  }

  /**
   `s` has just reported `cur`, whose neighbour scan is still to come: the
   unmarked labels are those the earlier reports' scans wrote.
   */
  ghost predicate Expandable(g: Graph, start: nat, tree0: Graph, s: Search, cur: nat)
    requires Valid(g) && start < g.numVertices && Valid(tree0) && tree0.numVertices == g.numVertices
  {
    && StackCore(g, start, tree0, s) && |s.visits| > 0
    && cur < g.numVertices && s.visits[|s.visits| - 1].vertex == cur && s.visited[cur]
    && LastWritten(g, start, s, s.visits[..|s.visits| - 1])
  }

  /** `marked` is `s` after popping `cur` off onto `stack` and marking and reporting it. */
  predicate Marks(g: Graph, start: nat, s: Search, stack: Stacks.Stack, cur: nat, marked: Search)
    requires Valid(g) && start < g.numVertices && StackShaped(g, s)
  {
    && Stacks.Valid(stack) && stack.capacity == s.stack.capacity
    && Stacks.Items(stack) + [cur] == Stacks.Items(s.stack)
    && cur < g.numVertices && !s.visited[cur]
    && 0 <= s.parents[cur] < g.numVertices
    && marked.stack == stack && marked.visited == s.visited[cur := true]
    && marked.parents == s.parents && marked.levels == s.levels
    && marked.parents0 == s.parents0 && marked.levels0 == s.levels0
    && marked.visits == s.visits + [Visit(cur, s.parents[cur], s.levels[cur])]
    && marked.tree == if cur != start then AddEdge(s.tree, cur, s.parents[cur]) else s.tree
  }

  /** Marking and reporting the popped vertex keeps the invariant. */
  lemma MarkKeeps(g: Graph, start: nat, tree0: Graph, s: Search, stack: Stacks.Stack, cur: nat, marked: Search)
    requires Valid(g) && start < g.numVertices && Valid(tree0) && tree0.numVertices == g.numVertices
    requires StackInv(g, start, tree0, s) && Marks(g, start, s, stack, cur, marked)
    requires s.levels[cur] >= 0 && cur in Ball(g, start, s.levels[cur])
    ensures Expandable(g, start, tree0, marked, cur)
  {
    MarkRecords(g, start, tree0, s, stack, cur, marked);
    MarkLinks(g, start, tree0, s, stack, cur, marked);
    MarkLastParents(g, start, s, stack, cur, marked);
    OrderAppend(s.visits, marked.visits[|s.visits|]);
  }

  /** The sizes, the report and the levels survive the marking. */
  lemma MarkRecords(g: Graph, start: nat, tree0: Graph, s: Search, stack: Stacks.Stack, cur: nat, marked: Search)
    requires Valid(g) && start < g.numVertices && Valid(tree0) && tree0.numVertices == g.numVertices
    requires StackInv(g, start, tree0, s) && Marks(g, start, s, stack, cur, marked)
    requires s.levels[cur] >= 0 && cur in Ball(g, start, s.levels[cur])
    ensures StackShaped(g, marked) && Reported(g, marked) && Rooted(g, start, marked) && Ranked(g, start, marked)
  {
    MarkShaped(g, start, s, stack, cur, marked);
    MarkReported(g, start, s, stack, cur, marked);
    MarkRooted(g, start, s, stack, cur, marked);
    MarkRanked(g, start, s, stack, cur, marked);
  }

  /** The stack entries, the tree and the unmarked labels stay accounted for after the marking. */
  lemma MarkLinks(g: Graph, start: nat, tree0: Graph, s: Search, stack: Stacks.Stack, cur: nat, marked: Search)
    requires Valid(g) && start < g.numVertices && Valid(tree0) && tree0.numVertices == g.numVertices
    requires StackInv(g, start, tree0, s) && Marks(g, start, s, stack, cur, marked)
    ensures StackShaped(g, marked) && StackAttached(g, start, marked)
    ensures TreeFollows(tree0, marked.visits, marked.tree) && LastWritten(g, start, marked, s.visits)
  {
    MarkShaped(g, start, s, stack, cur, marked);
    MarkPending(g, start, s, stack, cur, marked);
    MarkGrown(g, start, tree0, s, stack, cur, marked);
    MarkWritten(g, start, s, stack, cur, marked);
  }

  lemma MarkShaped(g: Graph, start: nat, s: Search, stack: Stacks.Stack, cur: nat, marked: Search)
    requires Valid(g) && start < g.numVertices && StackShaped(g, s)
    requires Marks(g, start, s, stack, cur, marked)
    ensures StackShaped(g, marked)
  {
    var items := Stacks.Items(s.stack);
    assert forall i :: 0 <= i < |Stacks.Items(stack)| ==> Stacks.Items(stack)[i] == items[i];
  }

  lemma MarkReported(g: Graph, start: nat, s: Search, stack: Stacks.Stack, cur: nat, marked: Search)
    requires Valid(g) && start < g.numVertices && StackShaped(g, s) && StackShaped(g, marked)
    requires Reported(g, s)
    requires Marks(g, start, s, stack, cur, marked)
    ensures Reported(g, marked)
  {
    OrderAppend(s.visits, marked.visits[|s.visits|]);
    DistinctLength(Order(marked.visits), g.numVertices);
  }

  lemma MarkRooted(g: Graph, start: nat, s: Search, stack: Stacks.Stack, cur: nat, marked: Search)
    requires Valid(g) && start < g.numVertices && StackShaped(g, s) && StackShaped(g, marked)
    requires Reported(g, s) && Rooted(g, start, s) && StackAttached(g, start, s)
    requires Marks(g, start, s, stack, cur, marked)
    ensures Rooted(g, start, marked)
  {
    var items := Stacks.Items(s.stack);
    assert cur == items[|items| - 1];
    if |s.visits| > 0 {
      assert Attached(g, s.visited, s.parents, s.levels, cur);
      assert s.parents[cur] in Order(s.visits);
    }
    HangsOffSnoc(g, s.visits, s.levels, Visit(cur, s.parents[cur], s.levels[cur]));
  }

  /** Appending a visit that hangs one level below an already reported neighbour keeps every later visit hanging off an earlier one. */
  lemma HangsOffSnoc(g: Graph, visits: seq<Visit>, levels: seq<int>, rec: Visit)
    requires Valid(g) && |levels| == g.numVertices
    requires forall i :: 0 <= i < |visits| ==> visits[i].vertex < g.numVertices && visits[i].parent < g.numVertices
    requires rec.vertex < g.numVertices && rec.parent < g.numVertices
    requires forall j :: 0 < j < |visits| ==>
      && visits[j].parent in Order(visits)[..j]
      && Adjacent(g, visits[j].parent, visits[j].vertex)
      && levels[visits[j].vertex] == levels[visits[j].parent] + 1
    requires |visits| > 0 ==>
      rec.parent in Order(visits) && Adjacent(g, rec.parent, rec.vertex) && levels[rec.vertex] == levels[rec.parent] + 1
    ensures forall j :: 0 < j < |visits + [rec]| ==>
      && (visits + [rec])[j].parent in Order(visits + [rec])[..j]
      && Adjacent(g, (visits + [rec])[j].parent, (visits + [rec])[j].vertex)
      && levels[(visits + [rec])[j].vertex] == levels[(visits + [rec])[j].parent] + 1
  {
    var k := |visits|;
    var longer := visits + [rec];
    OrderAppend(visits, rec);
    forall j | 0 < j < |longer|
      ensures longer[j].parent in Order(longer)[..j]
      ensures Adjacent(g, longer[j].parent, longer[j].vertex)
      ensures levels[longer[j].vertex] == levels[longer[j].parent] + 1
    {
      if j < k {
        assert longer[j] == visits[j];
        assert Order(longer)[..j] == Order(visits)[..j];
      }
    }
  }

  lemma MarkRanked(g: Graph, start: nat, s: Search, stack: Stacks.Stack, cur: nat, marked: Search)
    requires Valid(g) && start < g.numVertices && StackShaped(g, s) && StackShaped(g, marked)
    requires Ranked(g, start, s) && Marks(g, start, s, stack, cur, marked)
    requires s.levels[cur] >= 0 && cur in Ball(g, start, s.levels[cur])
    ensures Ranked(g, start, marked)
  {
  }

  lemma MarkPending(g: Graph, start: nat, s: Search, stack: Stacks.Stack, cur: nat, marked: Search)
    requires Valid(g) && start < g.numVertices && StackShaped(g, s) && StackShaped(g, marked)
    requires StackAttached(g, start, s)
    requires Marks(g, start, s, stack, cur, marked)
    ensures StackAttached(g, start, marked)
  {
    var items := Stacks.Items(s.stack);
    assert cur == items[|items| - 1];
    assert forall i :: 0 <= i < |Stacks.Items(stack)| ==> Stacks.Items(stack)[i] == items[i];
  }

  lemma MarkGrown(g: Graph, start: nat, tree0: Graph, s: Search, stack: Stacks.Stack, cur: nat, marked: Search)
    requires Valid(g) && start < g.numVertices && Valid(tree0) && tree0.numVertices == g.numVertices
    requires StackShaped(g, s) && StackShaped(g, marked)
    requires TreeFollows(tree0, s.visits, s.tree) && StackAttached(g, start, s)
    requires Marks(g, start, s, stack, cur, marked)
    ensures TreeFollows(tree0, marked.visits, marked.tree)
  {
    var rec := marked.visits[|s.visits|];
    var items := Stacks.Items(s.stack);
    assert cur == items[|items| - 1];
    if s.visits == [] {
      assert TreeEdges(marked.visits) == [];
    } else {
      TreeGrows(tree0, s.visits, rec);
    }
  }

  /** Pushing and relabelling the unmarked neighbours of the marked vertex `cur` keeps the invariant. */
  lemma PushKeeps(g: Graph, start: nat, tree0: Graph, s: Search, cur: nat, r: Search, added: seq<nat>)
    requires Valid(g) && start < g.numVertices && Valid(tree0) && tree0.numVertices == g.numVertices
    requires Expandable(g, start, tree0, s, cur)
    requires r.visited == s.visited && r.visits == s.visits && r.tree == s.tree
    requires r.parents0 == s.parents0 && r.levels0 == s.levels0
    requires Stacks.Valid(r.stack) && r.stack.capacity == s.stack.capacity
    requires |r.parents| == g.numVertices && |r.levels| == g.numVertices
    requires forall x :: x in added ==> x < g.numVertices && !s.visited[x] && Adjacent(g, cur, x)
    requires Stacks.Items(r.stack) == Stacks.Items(s.stack) + added
    requires forall v :: 0 <= v < g.numVertices ==>
      if Adjacent(g, cur, v) && !s.visited[v] then r.parents[v] == cur && r.levels[v] == s.levels[cur] + 1
      else r.parents[v] == s.parents[v] && r.levels[v] == s.levels[v]
    ensures StackInv(g, start, tree0, r)
  {
    var n := g.numVertices;
    var oldItems := Stacks.Items(s.stack);
    PushShaped(g, s, r, oldItems, added);
    assert forall v :: 0 <= v < n && s.visited[v] ==> r.parents[v] == s.parents[v] && r.levels[v] == s.levels[v];
    PushLabels(g, start, tree0, s, r);
    PushPending(g, start, s, cur, r, oldItems, added);
    assert s.visits[|s.visits| - 1].level == s.levels[cur];
    PushWritten(g, start, s, cur, r);
  }

  /** Marking the popped vertex changes no label, and its own scan is still to come. */
  lemma MarkWritten(g: Graph, start: nat, s: Search, stack: Stacks.Stack, cur: nat, marked: Search)
    requires Valid(g) && start < g.numVertices && StackShaped(g, s) && StackShaped(g, marked)
    requires LastWritten(g, start, s, s.visits) && Marks(g, start, s, stack, cur, marked)
    ensures LastWritten(g, start, marked, s.visits)
  {
    forall v | 0 <= v < g.numVertices && v != start && !marked.visited[v]
      ensures WrittenBy(g, marked, s.visits, v)
    {
      assert WrittenBy(g, s, s.visits, v);
    }
  }

  /**
   The popped vertex's labels were written by the last reported vertex that
   has it as a neighbour, so its report names that vertex as parent.
   */
  lemma MarkLastParents(g: Graph, start: nat, s: Search, stack: Stacks.Stack, cur: nat, marked: Search)
    requires Valid(g) && start < g.numVertices && StackShaped(g, s) && StackShaped(g, marked)
    requires Reported(g, s) && StackAttached(g, start, s) && LastParents(g, s.visits) && LastWritten(g, start, s, s.visits)
    requires Marks(g, start, s, stack, cur, marked)
    ensures LastParents(g, marked.visits)
  {
    var m := |s.visits|;
    var items := Stacks.Items(s.stack);
    assert cur == items[|items| - 1];
    OrderAppend(s.visits, marked.visits[m]);
    if m > 0 {
      assert Attached(g, s.visited, s.parents, s.levels, cur);
      var p := s.parents[cur];
      assert p in Order(s.visits);
      var t :| 0 <= t < m && Order(s.visits)[t] == p;
      assert WrittenBy(g, s, s.visits, cur);
      var last := LastAdjacent(g, s.visits, cur);
      assert last >= t;
      assert p == s.visits[last].vertex;
      LastParentSnoc(g, s.visits, marked.visits[m], last);
    }
  }

  /** Appending a report whose parent is the report at `last`, with no adjacent report after it, keeps parents last. */
  lemma LastParentSnoc(g: Graph, visits: seq<Visit>, rec: Visit, last: nat)
    requires Valid(g)
    requires forall i :: 0 <= i < |visits| ==> visits[i].vertex < g.numVertices
    requires rec.vertex < g.numVertices && Distinct(Order(visits)) && LastParents(g, visits)
    requires last < |visits| && rec.parent == visits[last].vertex
    requires forall i :: last < i < |visits| ==> !Adjacent(g, visits[i].vertex, rec.vertex)
    ensures LastParents(g, visits + [rec])
  {
    var longer := visits + [rec];
    var m := |visits|;
    OrderAppend(visits, rec);
    forall i, j | 0 <= i < j < |longer| && Adjacent(g, longer[i].vertex, longer[j].vertex)
      ensures longer[j].parent !in Order(longer)[..i]
    {
      if j < m {
        assert Order(longer)[..i] == Order(visits)[..i];
        assert longer[i] == visits[i] && longer[j] == visits[j];
      } else {
        assert i <= last;
        assert Order(longer)[..i] == Order(visits)[..i];
        assert Order(visits)[last] == rec.parent;
      }
    }
  }

  /**
   The scan of the last report `cur` relabels exactly its unmarked
   neighbours, so the last writer of every unmarked vertex is now up to date.
   */
  lemma PushWritten(g: Graph, start: nat, s: Search, cur: nat, r: Search)
    requires Valid(g) && StackShaped(g, s) && StackShaped(g, r) && |s.visits| > 0
    requires s.visits[|s.visits| - 1].vertex == cur && s.visits[|s.visits| - 1].level == s.levels[cur]
    requires LastWritten(g, start, s, s.visits[..|s.visits| - 1])
    requires r.visited == s.visited && r.visits == s.visits
    requires r.parents0 == s.parents0 && r.levels0 == s.levels0
    requires forall v :: 0 <= v < g.numVertices ==>
      if Adjacent(g, cur, v) && !s.visited[v] then r.parents[v] == cur && r.levels[v] == s.levels[cur] + 1
      else r.parents[v] == s.parents[v] && r.levels[v] == s.levels[v]
    ensures LastWritten(g, start, r, r.visits)
  {
    var before := s.visits[..|s.visits| - 1];
    forall v | 0 <= v < g.numVertices && v != start && !r.visited[v]
      ensures WrittenBy(g, r, r.visits, v)
    {
      assert WrittenBy(g, s, before, v);
      PushWrittenAt(g, s, cur, r, v);
    }
  }

  /** The relabelling by `cur`'s scan, at one unmarked vertex. */
  lemma PushWrittenAt(g: Graph, s: Search, cur: nat, r: Search, v: nat)
    requires Valid(g) && StackShaped(g, s) && StackShaped(g, r) && |s.visits| > 0 && v < g.numVertices
    requires s.visits[|s.visits| - 1].vertex == cur && s.visits[|s.visits| - 1].level == s.levels[cur]
    requires WrittenBy(g, s, s.visits[..|s.visits| - 1], v) && !s.visited[v]
    requires r.visits == s.visits && r.parents0 == s.parents0 && r.levels0 == s.levels0
    requires if Adjacent(g, cur, v) then r.parents[v] == cur && r.levels[v] == s.levels[cur] + 1
      else r.parents[v] == s.parents[v] && r.levels[v] == s.levels[v]
    ensures WrittenBy(g, r, r.visits, v)
  {
    var before := s.visits[..|s.visits| - 1];
    if !Adjacent(g, cur, v) {
      assert LastAdjacent(g, s.visits, v) == LastAdjacent(g, before, v);
    }
  }

  /** What fits of the unmarked neighbours are unmarked neighbours. */
  lemma PushedNeighbours(g: Graph, cur: nat, visited: seq<bool>, room: int)
    requires Valid(g) && cur < g.numVertices && |visited| == g.numVertices
    ensures forall x :: x in Fit(Unmarked(Neighbors(g, cur, Descending), visited), room) ==>
      x < g.numVertices && !visited[x] && Adjacent(g, cur, x)
  {
    var u := Unmarked(Neighbors(g, cur, Descending), visited);
    UnmarkedMembers(Neighbors(g, cur, Descending), visited);
    assert forall x :: x in Fit(u, room) ==> x in u;
  }

  lemma PushShaped(g: Graph, s: Search, r: Search, oldItems: seq<int>, added: seq<nat>)
    requires Valid(g) && StackShaped(g, s)
    requires r.parents0 == s.parents0 && r.levels0 == s.levels0
    requires oldItems == Stacks.Items(s.stack)
    requires forall x :: x in added ==> x < g.numVertices
    requires r.visited == s.visited && r.visits == s.visits && r.tree == s.tree
    requires Stacks.Valid(r.stack) && r.stack.capacity == s.stack.capacity
    requires |r.parents| == g.numVertices && |r.levels| == g.numVertices
    requires Stacks.Items(r.stack) == oldItems + added
    ensures StackShaped(g, r)
  {
    var items := Stacks.Items(r.stack);
    forall i | 0 <= i < |items|
      ensures 0 <= items[i] < g.numVertices
    {
      if i >= |oldItems| {
        assert items[i] in added;
      }
    }
  }

  /** Only unmarked labels change, so everything said about marked vertices carries over. */
  lemma PushLabels(g: Graph, start: nat, tree0: Graph, s: Search, r: Search)
    requires Valid(g) && start < g.numVertices && Valid(tree0) && tree0.numVertices == g.numVertices
    requires StackShaped(g, s) && StackShaped(g, r)
    requires Reported(g, s) && Rooted(g, start, s) && Ranked(g, start, s) && TreeFollows(tree0, s.visits, s.tree)
    requires |s.visits| > 0 && s.visits[0].vertex == start
    requires r.visited == s.visited && r.visits == s.visits && r.tree == s.tree
    requires forall v :: 0 <= v < g.numVertices && s.visited[v] ==> r.parents[v] == s.parents[v] && r.levels[v] == s.levels[v]
    ensures Reported(g, r) && Rooted(g, start, r) && Ranked(g, start, r) && TreeFollows(tree0, r.visits, r.tree)
  {
    PushReported(g, s, r);
    PushRooted(g, start, s, r);
    PushRanked(g, start, s, r);
  }

  lemma PushReported(g: Graph, s: Search, r: Search)
    requires Valid(g) && StackShaped(g, s) && StackShaped(g, r) && Reported(g, s)
    requires r.visited == s.visited && r.visits == s.visits
    requires forall v :: 0 <= v < g.numVertices && s.visited[v] ==> r.parents[v] == s.parents[v] && r.levels[v] == s.levels[v]
    ensures Reported(g, r)
  {
  }

  lemma PushRooted(g: Graph, start: nat, s: Search, r: Search)
    requires Valid(g) && start < g.numVertices && StackShaped(g, s) && StackShaped(g, r)
    requires Reported(g, s) && Rooted(g, start, s)
    requires |s.visits| > 0 && s.visits[0].vertex == start
    requires r.visited == s.visited && r.visits == s.visits
    requires forall v :: 0 <= v < g.numVertices && s.visited[v] ==> r.parents[v] == s.parents[v] && r.levels[v] == s.levels[v]
    ensures Rooted(g, start, r)
  {
    assert s.visited[start];
    forall j | 0 < j < |s.visits|
      ensures s.visited[s.visits[j].parent]
    {
      assert s.visits[j].parent in Order(s.visits);
    }
  }

  lemma PushRanked(g: Graph, start: nat, s: Search, r: Search)
    requires Valid(g) && start < g.numVertices && StackShaped(g, s) && StackShaped(g, r) && Ranked(g, start, s)
    requires r.visited == s.visited
    requires forall v :: 0 <= v < g.numVertices && s.visited[v] ==> r.levels[v] == s.levels[v]
    ensures Ranked(g, start, r)
  {
  }

  lemma PushPending(g: Graph, start: nat, s: Search, cur: nat, r: Search, oldItems: seq<int>, added: seq<nat>)
    requires Valid(g) && start < g.numVertices && StackShaped(g, s) && StackShaped(g, r)
    requires StackAttached(g, start, s) && |s.visits| > 0
    requires cur < g.numVertices && s.visited[cur]
    requires oldItems == Stacks.Items(s.stack)
    requires forall x :: x in added ==> x < g.numVertices && !s.visited[x] && Adjacent(g, cur, x)
    requires r.visited == s.visited && r.visits == s.visits
    requires Stacks.Items(r.stack) == oldItems + added
    requires forall v :: 0 <= v < g.numVertices ==>
      if Adjacent(g, cur, v) && !s.visited[v] then r.parents[v] == cur && r.levels[v] == s.levels[cur] + 1
      else r.parents[v] == s.parents[v] && r.levels[v] == s.levels[v]
    ensures StackAttached(g, start, r)
  {
    var items := Stacks.Items(r.stack);
    forall i | 0 <= i < |items| && !r.visited[items[i]]
      ensures Attached(g, r.visited, r.parents, r.levels, items[i])
    {
      var v := items[i];
      if i >= |oldItems| {
        assert v in added;
      } else {
        assert v == oldItems[i];
        if !Adjacent(g, cur, v) {
          assert Attached(g, s.visited, s.parents, s.levels, v);
        }
      }
    }
  }

  /** Every neighbour of a marked vertex is marked. */
  predicate ClosedMarks(g: Graph, visited: seq<bool>)
    requires Valid(g) && |visited| == g.numVertices
  {
    forall v: nat, w: nat :: v < g.numVertices && w < g.numVertices && visited[v] && Adjacent(g, v, w) ==> visited[w]
  }

  /** Every neighbour of a marked vertex is marked or waiting on the stack. */
  predicate Covered(g: Graph, visited: seq<bool>, items: seq<int>)
    requires Valid(g) && |visited| == g.numVertices
  {
    forall v: nat, w: nat :: v < g.numVertices && w < g.numVertices && visited[v] && Adjacent(g, v, w) ==> visited[w] || w in items
  }

  /** The degrees of the marked vertices, summed: a bound on the pushes made so far. */
  function MarkedDegrees(g: Graph, visited: seq<bool>): int
    requires Valid(g) && |visited| == g.numVertices
  {
    Sum(Masked(Degrees(g), visited))
  }

  /**
   With more slots than the degree sum no push is dropped: each vertex is
   expanded once and pushes at most its degree. So every neighbour of a
   marked vertex is marked in the end.
   */
  lemma {:induction false} SettleReachesAll(g: Graph, visited: seq<bool>, items: seq<int>, capacity: nat)
    requires Valid(g) && |visited| == g.numVertices
    requires forall i :: 0 <= i < |items| ==> 0 <= items[i] < g.numVertices
    requires capacity > DegreeSum(g)
    requires Covered(g, visited, items) && |items| <= 1 + MarkedDegrees(g, visited)
    ensures ClosedMarks(g, Settle(g, visited, items, capacity))
    decreases g.numVertices - CountTrue(visited), |items|
  {
    if items != [] {
      var cur := items[|items| - 1];
      CountTrueSet(visited, cur);
      var next := PopStep(g, visited, items, capacity);
      if visited[cur] {
        SkipCovered(g, visited, items, capacity);
      } else {
        VisitCovered(g, visited, items, capacity);
      }
      SettleReachesAll(g, next.0, next.1, capacity);
    }
  }

  /** Popping a marked item keeps every neighbour of a marked vertex marked or stacked. */
  lemma SkipCovered(g: Graph, visited: seq<bool>, items: seq<int>, capacity: nat)
    requires Valid(g) && |visited| == g.numVertices && items != []
    requires forall i :: 0 <= i < |items| ==> 0 <= items[i] < g.numVertices
    requires visited[items[|items| - 1]]
    requires Covered(g, visited, items) && |items| <= 1 + MarkedDegrees(g, visited)
    ensures var next := PopStep(g, visited, items, capacity);
      Covered(g, next.0, next.1) && |next.1| <= 1 + MarkedDegrees(g, next.0)
  {
    var rest := items[..|items| - 1];
    assert items == rest + [items[|items| - 1]];
    assert PopStep(g, visited, items, capacity) == (visited, rest);
  }

  /**
   Expanding an unmarked item pushes all of its unmarked neighbours, since
   the pushes so far and its own stay within the degree sum.
   */
  lemma VisitCovered(g: Graph, visited: seq<bool>, items: seq<int>, capacity: nat)
    requires Valid(g) && |visited| == g.numVertices && items != []
    requires forall i :: 0 <= i < |items| ==> 0 <= items[i] < g.numVertices
    requires !visited[items[|items| - 1]] && capacity > DegreeSum(g)
    requires Covered(g, visited, items) && |items| <= 1 + MarkedDegrees(g, visited)
    ensures var next := PopStep(g, visited, items, capacity);
      Covered(g, next.0, next.1) && |next.1| <= 1 + MarkedDegrees(g, next.0)
  {
    var cur := items[|items| - 1];
    var rest := items[..|items| - 1];
    var marked := visited[cur := true];
    var nbrs := Neighbors(g, cur, Descending);
    var u := Unmarked(nbrs, marked);
    UnmarkedMembers(nbrs, marked);
    MaskedSet(Degrees(g), visited, cur);
    MaskedBounds(Degrees(g), marked);
    assert |rest| + |u| <= capacity;
    assert PopStep(g, visited, items, capacity) == (marked, rest + u);
    assert items == rest + [cur];
    forall v: nat, w: nat | v < g.numVertices && w < g.numVertices && marked[v] && Adjacent(g, v, w)
      ensures marked[w] || w in rest + u
    {
      if v == cur {
        if !marked[w] {
          assert w in nbrs;
        }
      } else if !marked[w] {
        assert w in items && w != cur;
      }
    }
  }

  /** Marks closed under adjacency that hold the start and only vertices within reach hold exactly the reachable ones. */
  lemma MarksReachable(g: Graph, start: nat, visited: seq<bool>, levels: seq<int>)
    requires Valid(g) && start < g.numVertices && |visited| == g.numVertices && |levels| == g.numVertices
    requires visited[start] && ClosedMarks(g, visited)
    requires forall v :: 0 <= v < g.numVertices && visited[v] ==> levels[v] >= 0 && v in Ball(g, start, levels[v])
    ensures forall v :: 0 <= v < g.numVertices ==> (visited[v] <==> Reachable(g, start, v))
  {
    var m := set v: nat | v < g.numVertices && visited[v];
    forall v | 0 <= v < g.numVertices
      ensures visited[v] <==> Reachable(g, start, v)
    {
      if !visited[v] && Reachable(g, start, v) {
        var k: nat :| v in Ball(g, start, k);
        ClosedHoldsBalls(g, start, m, k);
      }
    }
  }

  /**
   An unmarked vertex that is not on the stack and whose every neighbour is
   already marked is never marked: only popping a neighbour could push it.
   */
  lemma {:induction false} NeverMarked(g: Graph, visited: seq<bool>, items: seq<int>, capacity: nat, v: nat)
    requires Valid(g) && |visited| == g.numVertices
    requires forall i :: 0 <= i < |items| ==> 0 <= items[i] < g.numVertices
    requires v < g.numVertices && !visited[v] && v !in items
    requires forall w :: 0 <= w < g.numVertices && Adjacent(g, w, v) ==> visited[w]
    ensures !Settle(g, visited, items, capacity)[v]
    decreases g.numVertices - CountTrue(visited), |items|
  {
    if items != [] {
      CountTrueSet(visited, items[|items| - 1]);
      var next := PopStep(g, visited, items, capacity);
      PopKeepsStranded(g, visited, items, capacity, v);
      NeverMarked(g, next.0, next.1, capacity, v);
    }
  }

  /** One pop keeps a stranded vertex stranded: unmarked, off the stack, with every neighbour marked. */
  lemma PopKeepsStranded(g: Graph, visited: seq<bool>, items: seq<int>, capacity: nat, v: nat)
    requires Valid(g) && |visited| == g.numVertices && items != []
    requires forall i :: 0 <= i < |items| ==> 0 <= items[i] < g.numVertices
    requires v < g.numVertices && !visited[v] && v !in items
    requires forall w :: 0 <= w < g.numVertices && Adjacent(g, w, v) ==> visited[w]
    ensures var next := PopStep(g, visited, items, capacity);
      && !next.0[v] && v !in next.1
      && forall w :: 0 <= w < g.numVertices && Adjacent(g, w, v) ==> next.0[w]
  {
    var cur := items[|items| - 1];
    var rest := items[..|items| - 1];
    assert v !in rest;
    if !visited[cur] {
      var marked := visited[cur := true];
      var nbrs := Neighbors(g, cur, Descending);
      var u := Unmarked(nbrs, marked);
      UnmarkedMembers(nbrs, marked);
      assert forall x :: x in Fit(u, capacity - |rest|) ==> x in u;
      assert !Adjacent(g, cur, v);
      assert v !in nbrs;
    }
  }

  /** The edge stream of the stack-overflow example, 1-based: vertices 1 and 2 each join every other vertex, 1-2 once. */
  function OverflowStream(): seq<(int, int)> {
    [(1, 2), (1, 4), (1, 5), (1, 6), (2, 3), (2, 4), (2, 5), (2, 6)]
  }

  /** The list form the ingestion loop builds from that stream: each new neighbour heads its list. */
  lemma OverflowLists(g0: Graph)
    requires g0 == Create(6, Lists)
    ensures ReadEdges(g0, OverflowStream()).store == ListStore([[5, 4, 3, 1], [5, 4, 3, 2, 0], [1], [1, 0], [1, 0], [1, 0]])
  {
    var h := ReadEdges(g0, OverflowStream());
    ReadEdgesLists(g0, OverflowStream());
    forall x | 0 <= x < 6
      ensures h.store.lists[x] == OverflowTable()[x]
    {
      assert g0.store.lists[x] == [];
      OverflowStored(x);
    }
    SixLists(h.store.lists, [5, 4, 3, 1], [5, 4, 3, 2, 0], [1], [1, 0], [1, 0], [1, 0]);
  }

  function OverflowTable(): seq<seq<nat>> {
    [[5, 4, 3, 1], [5, 4, 3, 2, 0], [1], [1, 0], [1, 0], [1, 0]]
  }

  /** Vertex `x`'s list, as the stream leaves it. */
  lemma OverflowStored(x: nat)
    requires x < 6
    ensures StoredList(OverflowStream(), 6, x, []) == OverflowTable()[x]
  {
    assert OverflowStream() == OverflowFirstHalf() + OverflowSecondHalf();
    StoredListConcat(OverflowFirstHalf(), OverflowSecondHalf(), 6, x, []);
    if x == 0 {
      OverflowStoredFirst();
    } else if x == 1 {
      OverflowStoredSecond();
    } else if x < 4 {
      OverflowStoredMiddle();
    } else {
      OverflowStoredEnds();
    }
  }

  /** The pairs that name vertex 1, and those that name vertex 2 but not 1. */
  function OverflowFirstHalf(): seq<(int, int)> {
    [(1, 2), (1, 4), (1, 5), (1, 6)]
  }

  function OverflowSecondHalf(): seq<(int, int)> {
    [(2, 3), (2, 4), (2, 5), (2, 6)]
  }

  lemma OverflowStoredFirst()
    ensures StoredList(OverflowFirstHalf(), 6, 0, []) == [5, 4, 3, 1]
    ensures StoredList(OverflowSecondHalf(), 6, 0, [5, 4, 3, 1]) == [5, 4, 3, 1]
  {
  }

  lemma OverflowStoredSecond()
    ensures StoredList(OverflowFirstHalf(), 6, 1, []) == [0]
    ensures StoredList(OverflowSecondHalf(), 6, 1, [0]) == [5, 4, 3, 2, 0]
  {
  }

  lemma OverflowStoredMiddle()
    ensures StoredList(OverflowFirstHalf(), 6, 2, []) == []
    ensures StoredList(OverflowSecondHalf(), 6, 2, []) == [1]
    ensures StoredList(OverflowFirstHalf(), 6, 3, []) == [0]
    ensures StoredList(OverflowSecondHalf(), 6, 3, [0]) == [1, 0]
  {
  }

  lemma OverflowStoredEnds()
    ensures StoredList(OverflowFirstHalf(), 6, 4, []) == [0]
    ensures StoredList(OverflowSecondHalf(), 6, 4, [0]) == [1, 0]
    ensures StoredList(OverflowFirstHalf(), 6, 5, []) == [0]
    ensures StoredList(OverflowSecondHalf(), 6, 5, [0]) == [1, 0]
  {
  }

  lemma SixLists(l: seq<seq<nat>>, a: seq<nat>, b: seq<nat>, c: seq<nat>, d: seq<nat>, e: seq<nat>, f: seq<nat>)
    requires |l| == 6 && l[0] == a && l[1] == b && l[2] == c && l[3] == d && l[4] == e && l[5] == f
    ensures l == [a, b, c, d, e, f]
  {
  }

  /**
   A stack of one slot per vertex, as the source allocates, can drop a push
   the traversal needs. On the example stream the stack holds four entries
   when vertex 2 is popped, so only three of its four unmarked neighbours
   fit, and vertex 3, whose only neighbour is vertex 2, is never marked
   although it is two hops from vertex 1 (vertices 1-based here, 0-based in
   the sequences).
   */
  lemma VertexCountStackMisses()
    ensures var g := ReadEdges(Create(6, Lists), OverflowStream());
      Reachable(g, 0, 2) && !Settle(g, seq(6, _ => false), [0], 6)[2]
  {
    var g := ReadEdges(Create(6, Lists), OverflowStream());
    OverflowLists(Create(6, Lists));
    OverflowStranded(g);
    OverflowMisses(g, seq(6, _ => false));
    OverflowReach(g);
  }

  /** The traversal of the example lists with six stack slots, pop by pop. */
  lemma OverflowMisses(g: Graph, cleared: seq<bool>)
    requires Valid(g) && g.numVertices == 6
    requires Neighbors(g, 0, Descending) == [5, 4, 3, 1] && Neighbors(g, 1, Descending) == [5, 4, 3, 2, 0]
    requires forall w :: 0 <= w < 6 && Adjacent(g, w, 2) ==> [true, true, false, false, false, false][w]
    requires cleared == seq(6, _ => false)
    ensures !Settle(g, cleared, [0], 6)[2]
  {
    assert cleared == [false, false, false, false, false, false];
    OverflowPop1(g);
    OverflowPop2(g);
    OverflowNever(g);
  }

  /** Past the overflow nothing can mark index 2. */
  lemma OverflowNever(g: Graph)
    requires Valid(g) && g.numVertices == 6
    requires forall w :: 0 <= w < 6 && Adjacent(g, w, 2) ==> [true, true, false, false, false, false][w]
    ensures !Settle(g, [true, true, false, false, false, false], [5, 4, 3, 5, 4, 3], 6)[2]
  {
    NeverMarked(g, [true, true, false, false, false, false], [5, 4, 3, 5, 4, 3], 6, 2);
  }

  /** The first pop marks the start and pushes all four of its neighbours. */
  lemma OverflowPop1(g: Graph)
    requires Valid(g) && g.numVertices == 6 && Neighbors(g, 0, Descending) == [5, 4, 3, 1]
    ensures Settle(g, [false, false, false, false, false, false], [0], 6) == Settle(g, [true, false, false, false, false, false], [5, 4, 3, 1], 6)
  {
    assert [false, false, false, false, false, false][0 := true] == [true, false, false, false, false, false];
    assert Unmarked([5, 4, 3, 1], [true, false, false, false, false, false]) == [5, 4, 3, 1];
    VisitStep(g, [false, false, false, false, false, false], [0], [], 6, 0, [true, false, false, false, false, false], [5, 4, 3, 1], [5, 4, 3, 1], [5, 4, 3, 1]);
  }

  /**
   The overflow: when vertex index 1 is popped three entries remain, so of its
   four unmarked neighbours only the first three fit and index 2 is dropped.
   */
  lemma OverflowPop2(g: Graph)
    requires Valid(g) && g.numVertices == 6 && Neighbors(g, 1, Descending) == [5, 4, 3, 2, 0]
    ensures Settle(g, [true, false, false, false, false, false], [5, 4, 3, 1], 6) == Settle(g, [true, true, false, false, false, false], [5, 4, 3, 5, 4, 3], 6)
  {
    OverflowKept();
    VisitStep(g, [true, false, false, false, false, false], [5, 4, 3, 1], [5, 4, 3], 6, 1, [true, true, false, false, false, false], [5, 4, 3, 2], [5, 4, 3], [5, 4, 3, 5, 4, 3]);
  }

  /** Of the four unmarked neighbours three fit on top of the three remaining entries. */
  lemma OverflowKept()
    ensures [true, false, false, false, false, false][1 := true] == [true, true, false, false, false, false]
    ensures Unmarked([5, 4, 3, 2, 0], [true, true, false, false, false, false]) == [5, 4, 3, 2]
    ensures Fit([5, 4, 3, 2], 6 - |[5, 4, 3]|) == [5, 4, 3]
    ensures [5, 4, 3, 1] == [5, 4, 3] + [1] && [5, 4, 3, 5, 4, 3] == [5, 4, 3] + [5, 4, 3]
  {
    assert [5, 4, 3, 2][..3] == [5, 4, 3];
  }

  /**
   The scans of the first two popped vertices; after those pops index 2 is
   off the stack and its only neighbour, index 1, is marked.
   */
  lemma OverflowStranded(g: Graph)
    requires Valid(g) && g.numVertices == 6
    requires g.store == ListStore([[5, 4, 3, 1], [5, 4, 3, 2, 0], [1], [1, 0], [1, 0], [1, 0]])
    ensures Neighbors(g, 0, Descending) == [5, 4, 3, 1] && Neighbors(g, 1, Descending) == [5, 4, 3, 2, 0]
    ensures forall w :: 0 <= w < 6 && Adjacent(g, w, 2) ==> [true, true, false, false, false, false][w]
  {
  }

  /** In the example lists vertex index 2 is two hops from index 0. */
  lemma OverflowReach(g: Graph)
    requires Valid(g) && g.numVertices == 6
    requires g.store == ListStore([[5, 4, 3, 1], [5, 4, 3, 2, 0], [1], [1, 0], [1, 0], [1, 0]])
    ensures Reachable(g, 0, 2)
  {
    assert Adjacent(g, 0, 1) && Adjacent(g, 1, 2);
    StepOut(g, 0, 0, 0, 1);
    StepOut(g, 0, 1, 1, 2);
  }

  /** Popping an unmarked entry marks it and pushes what fits of its unmarked neighbours. */
  lemma VisitStep(g: Graph, visited: seq<bool>, items: seq<int>, rest: seq<int>, capacity: nat, cur: nat,
                  marked: seq<bool>, kept: seq<nat>, pushed: seq<nat>, next: seq<int>)
    requires Valid(g) && |visited| == g.numVertices && cur < g.numVertices && !visited[cur]
    requires forall i :: 0 <= i < |rest| ==> 0 <= rest[i] < g.numVertices
    requires items == rest + [cur] && marked == visited[cur := true]
    requires Unmarked(Neighbors(g, cur, Descending), marked) == kept && Fit(kept, capacity - |rest|) == pushed
    requires next == rest + pushed
    ensures Settle(g, visited, items, capacity) == Settle(g, marked, next, capacity)
  {
    assert items[..|rest|] == rest && items[|items| - 1] == cur;
    assert PopStep(g, visited, items, capacity) == (marked, next);
  }
}

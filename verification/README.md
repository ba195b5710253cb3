# Graph representations, traversal trees and degree statistics

A Dafny model of the graph core of a small C library (`src/grafo.c`): an
undirected graph stored either as an adjacency matrix or as adjacency lists,
the ingestion of a 1-based edge stream, the bounded stack and circular
queue the traversals use, the depth-first and breadth-first traversals that
report every visited vertex with its parent and level and grow a traversal
tree, and the degree statistics (edge count, least, greatest and median
degree).

Files and modules:

- `seqs.dfy` (`Seqs`): sequence facts used throughout: distinctness, sums,
  counts of set flags, insertion sort, counts on either side of a value.
- `graph.dfy` (`Graphs`): the graph, its two stores, creation, the edge
  write, the ingestion loop, `adicionarArestaGrafo`, neighbour order,
  degrees, and the degree-sum laws of both stores.
- `reach.dfy` (`Reachability`): balls of radius `k` around a vertex,
  reachability and hop distance over the stored adjacency.
- `stack.dfy` (`Stacks`), `queue.dfy` (`Queues`): `Pilha` and `Fila`.
- `visits.dfy` (`Visits`): the report line of a visited vertex and the tree
  edges a report implies.
- `dfs.dfy` (`DepthFirst`): `dfsComPilhaArvore`, with the stack capacity as a parameter.
- `bfs.dfy` (`BreadthFirst`): `bfsComFilaArvore`.
- `stats.dfy` (`DegreeStats`): `calcularEstatisticasGrafo` and
  `compararInteiros`.

Vertices are 0-based inside the model as in the C arrays, and so are the
vertex and parent of every returned visit record; the edge stream is
1-based, and the report file prints each vertex and parent number plus one.
The C arrays the caller owns (marks, parents, levels) are sequences passed
in and handed back; in place of the report file the traversals return the
sequence of visit records, one per line the file would get.

## Model

| member | source | states |
|---|---|---|
| Graphs.Create | src/grafo.c:5-19 | a new graph has the requested vertex count and store, a zero edge counter, no adjacency and every degree zero (`criarGrafoVazio`, lines 167-181, is the same) |
| Graphs.Link | src/grafo.c:40-54 | storing `{u, v}` adds exactly the links `u-v` and `v-u`; in list form each endpoint gets the other at the head of its list and other lists are untouched; in matrix form writing a present edge again changes nothing |
| Graphs.InsertPair | src/grafo.c:33-54 | a pair outside `[1, n]` on either side leaves the graph as it was; an in-range pair adds exactly its undirected edge; the edge counter is never touched |
| Graphs.ReadEdges | src/grafo.c:22-58 | after the whole stream, `x-y` is adjacent iff it was before or some pair of the stream joins `x+1` and `y+1`; symmetry is kept and the edge counter is unchanged |
| Graphs.ReadEdgesSymmetric | src/grafo.c:41-53 | a graph built from nothing by the ingestion loop is symmetric |
| Graphs.ReadEdgesLists | src/grafo.c:41-53 | in list form each vertex's list after the stream holds the other end of every in-range pair naming it, newest first, ahead of what it held before; a self-loop puts the vertex in its own list twice |
| Graphs.AddEdge | src/grafo.c:184-191 | the edge counter grows by one and exactly the edge `{u, v}` is added, whatever the store |
| Graphs.AddEdges | src/grafo.c:184-191 | a run of `adicionarArestaGrafo` calls adds one to the counter per call and exactly the edges named |
| Graphs.Neighbors | src/grafo.c:216-234 | the neighbours a traversal meets are exactly the adjacent vertices, one per unit of degree, in descending index order for a matrix row scanned from the top and in stored order for a list |
| Graphs.DegreesCount | src/grafo.c:81-96 | the degree array the statistics loop fills has one entry per vertex, and entry `v` is the number of neighbours a scan of `v` meets, in either direction; in matrix form it is the number of vertices adjacent to `v` |
| Graphs.DegreeCounts | src/grafo.c:81-96 | a vertex's degree is the number of vertices adjacent to it in matrix form; in list form it is at least the number of distinct neighbours, and equal to it exactly when no record on the list is repeated; `Graphs.Neighbors` meets exactly that many neighbours |
| Graphs.ListHandshake | src/grafo.c:184-191 | in list form the degree sum of a graph built by `adicionarArestaGrafo` is twice its edge counter |
| Graphs.MatrixEdgeDegreeSum | src/grafo.c:184-191 | in matrix form the edge counter grows by one on every call, while a new edge between two distinct vertices adds two to the degree sum, a new self-loop adds one, and a repeated edge adds nothing |
| Stacks.New | src/grafo.c:132-138 | a new stack is empty and has the requested capacity |
| Stacks.Push | src/grafo.c:141-145 | a push below capacity puts the value on top; a push on a full stack changes nothing |
| Stacks.Pop | src/grafo.c:148-153 | a pop removes and answers the top item; on an empty stack it answers -1 and changes nothing |
| Stacks.IsEmpty | src/grafo.c:156-158 | the top index is -1 exactly when there are no items |
| Stacks.LastInFirstOut | src/grafo.c:141-153 | values pushed onto a fresh stack within capacity pop out in reverse order |
| Queues.New | src/grafo.c:243-250 | a new queue is empty, both indices -1 |
| Queues.IsFull | src/grafo.c:255 | the full test holds exactly when the queue holds `capacity` items |
| Queues.Enqueue | src/grafo.c:253-267 | an enqueue on a non-full queue appends the value after the newest item; on a full queue it changes nothing; the front index is -1 exactly when the rear index is |
| Queues.Dequeue | src/grafo.c:270-287 | a dequeue removes and answers the oldest item; on an empty queue it answers -1 and changes nothing |
| Queues.IsEmpty | src/grafo.c:290-293 | both indices are -1 exactly when there are no items |
| Queues.FirstInFirstOut | src/grafo.c:253-287 | values enqueued on a fresh queue within capacity dequeue in the same order |
| DepthFirst.PushNeighbours | src/grafo.c:216-234 | what fits of the unmarked neighbours lands on the stack in scan order; every unmarked neighbour is relabelled from the current vertex one level down, pushed or not; nothing else changes |
| DepthFirst.Step | src/grafo.c:201-236 | one pass of the main loop pops the top entry; a marked entry is only dropped; an unmarked one is marked and what fits of its unmarked neighbours is pushed in scan order; each pass either reports a vertex or shrinks the stack, so the loop ends |
| DepthFirst.Traverse | src/grafo.c:194-240 | the start is reported first as its own parent at level 0; the marked vertices are exactly the reported ones, each once; each report shows the vertex's final labels; each later vertex hangs off a neighbour reported before it, one level deeper, and that parent is the last report before it that has it as a neighbour, since every scan overwrites the labels; every marked vertex is reachable within its level; the tree gains one edge per reported vertex after the start; the marks are those the pop loop leaves with a stack of the given capacity, dropped pushes included; with more slots than the degree sum exactly the reachable vertices are marked; an unmarked vertex that no reported vertex has as a neighbour keeps the caller's parent and level; any other unmarked vertex carries the parent and level written by the last reported vertex that has it as a neighbour; with more slots than the degree sum every unmarked vertex keeps the caller's labels |
| DepthFirst.NeverMarked | src/grafo.c:201-236 | an unmarked vertex that is off the stack and whose every neighbour is marked stays unmarked to the end, since only popping a neighbour could push it |
| DepthFirst.SettleReachesAll | src/grafo.c:201-236 | with more stack slots than the degree sum no push is ever dropped, and the loop ends with every neighbour of a marked vertex marked |
| DepthFirst.RoomyStack | src/grafo.c:194-236 | with more stack slots than the degree sum the traversal marks exactly the vertices reachable from the start |
| DepthFirst.VertexCountStackMisses | src/grafo.c:195-236 | with one stack slot per vertex, as allocated, the list form of the stream `(1,2) (1,4) (1,5) (1,6) (2,3) (2,4) (2,5) (2,6)` leaves vertex 3 unmarked although it is two hops from vertex 1 |
| BreadthFirst.EnqueueNeighbours | src/grafo.c:321-341 | every unmarked neighbour is marked, enqueued in scan order and labelled one level below the current vertex; the queue never fills, so nothing is dropped |
| BreadthFirst.Traverse | src/grafo.c:302-346 | the marked vertices are exactly those reachable from the start, each reported once; the level of each is its hop distance; unmarked vertices keep the caller's labels; report levels never fall; each later vertex hangs off a neighbour reported before it, and that parent is the earliest report that has it as a neighbour; vertices with the same parent are reported in the order of the parent's ascending scan; the tree gains one edge per reported vertex after the start |
| BreadthFirst.FirstUnmarkedOrder | src/grafo.c:321-341 | the unmarked neighbours one scan marks and enqueues come out in the order the scan meets them |
| Visits.TreeEdgesSpan | src/grafo.c:210-213 | for a report in which each vertex appears once and each later vertex's parent was reported before it, as both traversals promise, each tree edge attaches a vertex no earlier edge reached to one already reached, and the edges together with the first vertex reach exactly the reported vertices |
| Visits.TreeSpans | src/grafo.c:210-213 | the tree edges added to the tree graph connect every reported vertex to the first one; when the tree graph starts without edges, the vertices it connects to the first one are exactly the reported ones |
| DegreeStats.Halve | src/grafo.c:111-117 | C's integer halving truncates toward zero |
| DegreeStats.Compare | src/grafo.c:127-129 | the comparator's sign orders its two arguments |
| DegreeStats.CompareOrder | src/grafo.c:107-129 | an arrangement in which no entry compares above a later one under the comparator, which is what `qsort` leaves, is exactly a sorted one |
| DegreeStats.MinFrom | src/grafo.c:100 | the running minimum is at most its start value and every entry, and is one of them |
| DegreeStats.MaxFrom | src/grafo.c:101 | the running maximum is at least its start value and every entry, and is one of them |
| DegreeStats.MinDegreeAsWritten | src/grafo.c:77-100 | the least degree as computed never exceeds the vertex count, is at most every degree, and is the vertex count or some degree |
| DegreeStats.MinDegree | src/grafo.c:100 | the least degree is some vertex's degree and at most every degree |
| DegreeStats.MaxDegree | src/grafo.c:78-101 | the greatest degree is some vertex's degree and at least every degree |
| DegreeStats.Median | src/grafo.c:109-114 | for any sorted arrangement of the values, as `qsort` leaves them, the median is the middle value for an odd count and C's truncated average of the two middle values for an even count; at least half of the values are at most it and at least half at least it |
| DegreeStats.MedianPermutation | src/grafo.c:109-114 | the median depends only on the values, not on their order |
| DegreeStats.ComputeStats | src/grafo.c:70-124 | twice the edge count is the degree sum rounded down to even; the least degree is the true least degree capped at the vertex count and bounds every degree from below; the greatest degree is attained and bounds every degree; the median lies between them, splits the degrees in halves and is the middle of any arrangement of them that the comparator orders, as `qsort` leaves them |
| DegreeStats.CorrectedStats | src/grafo.c:70-124 | the same statistics with the least degree attained by some vertex, and every other field as the loop computes it |
| DegreeStats.MatrixMinAgrees | src/grafo.c:77-100 | in matrix form the least degree as computed is the true least degree, so the statistics equal the corrected ones |
| DegreeStats.SelfLoopMinDegree | src/grafo.c:77-100 | one vertex with a self-loop in list form has degree two but the statistics report least degree one; the corrected statistics report two |
| DegreeStats.ListDegreeSum | src/grafo.c:81-96 | in list form the degree sum of an ingested stream is twice the number of its in-range pairs |
| DegreeStats.ListStatsEdges | src/grafo.c:117 | in list form the statistics count every in-range pair of the stream as one edge |

## Left out

- Files, `printf`/`fprintf` and the report file: the traversals return the visit records, with 0-based vertex and parent numbers, in place of the lines the file gets with those numbers plus one.
- `malloc`/`free` and the `liberar*` functions: values are immutable and need no freeing.
- The mean degree (`grauMedio`): it is a float.
- `qsort`: replaced by an insertion sort proved to return a sorted permutation; `DegreeStats.CompareOrder` shows that the arrangements the comparator accepts are the sorted ones, and the median is the same for all of them.
- The store helpers `criarGrafoMatriz`, `criarGrafoLista`, `adicionarArestaMatriz`, `adicionarArestaLista` and the header are not part of this model: the matrix is taken to start all zero, the lists empty, and the helpers to behave as the inline edge write of the ingestion loop.
- The ingestion loop stops on end of file only; a malformed record that `fscanf` cannot read would loop forever. The model takes the stream as already parsed pairs.
- 32-bit `int` overflow of degree sums, levels and the comparator's subtraction: values are unbounded integers.
- DepthFirst.Traverse: takes the stack capacity as a parameter; the source passes the vertex count, which is what the finding below is about.
- DepthFirst.Traverse, BreadthFirst.Traverse: require the caller's mark array to be cleared, which is how the traversals are called; a stale mark is not modelled.
- Reachability is over the stored adjacency, which is symmetric for every graph built by the ingestion loop.
- DegreeStats.ComputeStats: requires at least one vertex, because the median reads outside the degree array of an empty graph.

## Findings

| source | as written | input that shows it | evidently intended | confidence | as-written member | corrected member |
|---|---|---|---|---|---|---|
| src/grafo.c:77 | the running minimum of the degrees starts at the vertex count | list form, one vertex, edge stream `(1, 1)`: the vertex has degree 2, the reported least degree is 1 | the least degree of any vertex | not executed; the cap is real whenever every degree exceeds the vertex count, which needs self-loops or repeated edges in list form | DegreeStats.MinDegreeAsWritten, DegreeStats.ComputeStats, DegreeStats.SelfLoopMinDegree | DegreeStats.MinDegree, DegreeStats.CorrectedStats |
| src/grafo.c:195 | the depth-first stack gets one slot per vertex, but a vertex is marked only when popped, so it can sit on the stack several times, and a push on a full stack is dropped | list form, six vertices, edge stream `(1,2) (1,4) (1,5) (1,6) (2,3) (2,4) (2,5) (2,6)`, start 1: when vertex 2 is popped three entries remain, only three of its four unmarked neighbours fit, and vertex 3, whose only neighbour is 2, is never visited | every vertex reachable from the start is visited, e.g. with more stack slots than the degree sum | not executed | DepthFirst.VertexCountStackMisses, DepthFirst.Traverse | DepthFirst.SettleReachesAll, DepthFirst.RoomyStack |

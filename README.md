# Girvan-Newman community detection, modelled in Dafny

This project models the engine of a Girvan-Newman community detector for
undirected graphs. It covers these parts:

- **Graph.** An adjacency map with vertex and edge counters. Duplicate
  vertices and duplicate edges are skipped.
- **VertexPair.** Unordered vertex pairs with symmetric equality. They are
  modelled as a normalised (min, max) key.
- **EdgeData.** One record per edge, holding its index, its endpoints, an
  alive flag and the round in which the edge was killed.
- **Solution.** The run-wide state:
  - the graph, whose adjacent unordered pairs get dense indices `0 .. numEdge-1`;
  - the per-edge records;
  - the objective history, the kill history and `optIter`;
  - the severed pairs and the best communities.
- **Problem.** The per-round state: the betweenness array, the BFS records of
  the current source, the edges chosen for removal, the communities and the
  modularity.
- **FlowData.** The per-vertex BFS record: its level, its upstream and
  downstream vertices, its shortest-path count and its flow.
- **Solver.** One round goes like this:
  1. A BFS from every vertex over the live edges builds a layering.
  2. A reverse pass over the BFS stack hands each vertex's flow upstream and
     credits the connecting edge.
  3. Every edge tied at the largest betweenness is killed.
  4. The connected components of the live graph are found.
  5. Their modularity is computed against the original graph.

  `solve` repeats rounds and keeps the best objective, the communities of
  the latest best round and a patience counter (`godMode`). It stops once a
  round falls below the best and patience has reached the threshold.

`Graph`, `EdgeData`, `Solution` and `Problem` are classes whose methods
update their fields. The algorithms are methods with loops, each proved
against specification functions and predicates:

| Algorithm | Specification |
|---|---|
| BFS | `Layering.Layered` and `Layering.Expand` |
| reverse pass | `Credits.Balanced` and `Credits.Credit` |
| components | `Communities.Comp` and `Communities.Reaches` |
| modularity | `Modularity.Mod` |
| the `solve` loop | `Rounds.Tracked`, `Rounds.Exits` and `Rounds.History` |

A `FlowData` record is a value. The BFS works on a map from vertex to
record, and each operation returns the updated map.

The source files come from more than one revision. The model follows the
call sites in `Solver.java`, `Solution.java` and the unit tests:

- **Problem.** `Problem` is built from `(numEdge, iter)`, as at
  `src/main/java/girvannewman/Solver.java:29`. Betweenness starts at 0, as
  the tests expect. The constructor in `Problem.java` instead takes a
  `Solution` and starts betweenness at -1.
- **FlowData.** `FlowData` carries a BFS level. `populateDownstream` takes
  the flow table, the neighbours and the severed pairs. It never replaces
  the record of a vertex it has already seen. `incUpstreamFlow` returns the
  per-pair betweenness increments. This revision is pinned by
  `src/test/java/girvannewman/data/FlowDataTest.java`. The `FlowData.java`
  in the repository has no level, overwrites neighbour records and credits
  edges itself.
- **EdgeData.** The constructor takes `(node1, node2, edgeIndex)`, the order
  used by `Solution.java:59` and by the tests. The validation comments in
  `EdgeData.java` become preconditions.

Summing every edge's betweenness does not give the number of ordered
reachable pairs. Each reached vertex's unit of flow crosses every edge of its
shortest paths, so one pass's credits add up to the distances from the source
(`Credits.PathOfThree`). What is conserved is the flow at the source: the
credits on the source's own live edges add up to the number of other vertices
it reaches (`Betweenness.SourceCredits`), and over all sources to the number of
ordered (source, reached vertex) pairs (`Betweenness.AllSourcesCredits`).

## Model

| member | source | states |
|---|---|---|
| VertexPairs.Key | src/main/java/graph/VertexPair.java:24-29 | The hash key is the ordered (min, max) of the two ids, so it is the same for either order of the endpoints. |
| VertexPairs.Equals | src/main/java/graph/VertexPair.java:15-21 | Two pairs are equal exactly when their keys agree, and exactly when they hold the same multiset of ids. So equal pairs hash equally, and a set of keys behaves like the HashSet of pairs. |
| VertexPairs.SwappedPairsAreEqual | src/main/java/graph/VertexPair.java:19-20 | (a, b) equals (b, a), and both have the same key. |
| VertexPairs.EqualsIsReflexive | src/main/java/graph/VertexPair.java:9-16 | Every pair equals itself, self-pairs included. |
| VertexPairs.PairInjective | src/main/java/graph/VertexPair.java:19-20 | With one end fixed, the key determines the other end. |
| VertexPairs.PairEnds | src/main/java/graph/VertexPair.java:24-29 | A key's two fields are exactly the two ids it was built from. |
| Graphs.WithVertex | src/main/java/graph/Graph.java:14-21 | After addVertex(v), v is a vertex. A new v has no neighbours, and every other neighbour set is unchanged. |
| Graphs.WithEdge | src/main/java/graph/Graph.java:23-34 | After addEdge(a, b), b joins N(a) and a joins N(b). Nothing else changes, and symmetry is kept. |
| Graphs.WithVertexKeepsCounts | src/main/java/graph/Graph.java:14-21 | Adding a vertex leaves the unordered edges, the self-loops and the degree sum unchanged. |
| Graphs.WithEdgeKeys | src/main/java/graph/Graph.java:23-34 | A new edge adds exactly one unordered pair, which was not there before. This is why numEdge counts distinct unordered pairs. |
| Graphs.DegreeSumUpdate | src/main/java/graph/Graph.java:27-31 | Replacing one neighbour set changes the degree sum by the difference in its size. |
| Graphs.WithEdgeDegreeSum | src/main/java/graph/Graph.java:27-33 | A new edge raises the degree sum plus the loop count by exactly 2. |
| Graphs.Handshake | src/test/java/util/GraphLoaderTest.java:40-46 | In a valid Graph with no self-loop, the sum of the neighbour-set sizes is 2·numEdge. |
| Graphs.Graph.constructor | src/main/java/graph/Graph.java:10-12 | A new graph has no vertices, no edges and an empty map. |
| Graphs.Graph.AddVertex | src/main/java/graph/Graph.java:14-21 | An existing id is a no-op. Otherwise the id gets an empty neighbour set and numVertex grows by 1. numVertex stays the key count, and the other vertices are untouched. |
| Graphs.Graph.AddEdge | src/main/java/graph/Graph.java:23-34 | Both endpoints must be vertices. An edge already present in either order changes nothing. Otherwise the edge is added to both neighbour sets and numEdge grows by 1. The count and symmetry invariant is kept. |
| Edges.EdgeData.constructor | src/main/java/girvannewman/data/EdgeData.java:12-20 | Ids and index must be non-negative and the endpoints distinct. The new edge is alive, has iterKilled = -1 and stores its index and endpoints. |
| Edges.EdgeData.Kill | src/main/java/girvannewman/data/EdgeData.java:22-27 | iter must be positive. Afterwards the edge is dead with iterKilled = iter. The index and endpoints are constants, and the invariant "alive iff iterKilled = -1" keeps a dead edge dead. |
| Flows.NewFlowData | src/test/java/girvannewman/data/FlowDataTest.java:29-50 | A new record stores its node and level, has no links, no paths and no flow, and rejects a negative node or level. |
| Flows.Share | src/main/java/girvannewman/data/FlowData.java:67-69 | The share handed to one upstream vertex is never negative, and it is positive when the flow and the upstream path count are positive. |
| Flows.PopulateDownstream | src/test/java/girvannewman/data/FlowDataTest.java:52-140 | Live neighbours without a record get a new record one level below v. v's downstream gains exactly the live neighbours one level below it, never same-level or upper ones. Every other record is unchanged. |
| Flows.UpdateDownstream | src/main/java/girvannewman/data/FlowData.java:40-46 | Every downstream vertex gains v's path count and gets v as an upstream vertex. No other record changes. |
| Flows.UpdateKeepsPathSum | src/test/java/girvannewman/data/FlowDataTest.java:199-223 | If a downstream vertex's path count was the sum over its upstream vertices, it stays so after the update. |
| Flows.PathSumCongruence | src/test/java/girvannewman/data/FlowDataTest.java:199-223 | Helper for the path-count proofs. Totals of path counts depend only on the counts themselves. |
| Flows.SharesSumToFlow | src/main/java/girvannewman/data/FlowData.java:59-64 | When v's path count is the sum over its upstream vertices, the shares it hands upstream add up to exactly its flow. |
| Flows.IncUpstreamFlow | src/test/java/girvannewman/data/FlowDataTest.java:259-295 | A vertex with upstream vertices adds its own unit of flow. Each upstream u then receives flow·pathCount(u)/pathCount(v), and the same amount is returned as the increment of pair {v, u}. A vertex without upstream vertices sends nothing and returns no increments. |
| Layering.DoneLayered | src/main/java/girvannewman/Solver.java:96-115 | When the BFS queue runs dry, every record has been expanded and the table is a complete layering. |
| Layering.LayeredReach | src/main/java/girvannewman/Solver.java:80-115 | A vertex has a record exactly when a live path reaches it from the source. Its level is the number of vertices on a shortest such path. |
| Layering.PathLevels | src/main/java/girvannewman/Solver.java:107-113 | Along any live walk from a recorded vertex, each vertex has a record and the level grows by at most one per step. |
| Layering.UpstreamPath | src/main/java/girvannewman/Solver.java:107-113 | Following upstream links from any record leads back to the source along a live path as long as the level. |
| Layering.LayeredUpLinked | src/main/java/girvannewman/Solver.java:107-113 | In a finished layering, every upstream link is a live edge, and every vertex but the source has an upstream vertex. |
| Layering.ExpandEffect | src/main/java/girvannewman/Solver.java:109-110 | populateDownstream followed by updateDownstream gives the table of one BFS expansion. |
| Layering.ExpandInv | src/main/java/girvannewman/Solver.java:96-115 | Expanding the front vertex keeps the BFS invariant: records, covering, level order, the stack, links and path counts. |
| Layering.SkipInv | src/main/java/girvannewman/Solver.java:99-103 | Skipping a queued vertex that was already expanded keeps the BFS invariant. |
| Credits.PopBalanced | src/main/java/girvannewman/Solver.java:117-126 | Popping a vertex keeps the flow balance: each vertex holds its own unit once popped, plus what its popped downstream vertices handed it. |
| Credits.PopCredit | src/main/java/girvannewman/Solver.java:120-125 | The increments returned by one pop are exactly what the pair credits gain. Pairs not in the increments gain nothing. |
| Credits.PopOrder | src/main/java/girvannewman/Solver.java:117-126 | A vertex is popped only after every vertex downstream of it has been popped. |
| Credits.AllPopped | src/main/java/girvannewman/Solver.java:117 | When the stack is empty, every record has been popped. |
| Credits.SourceFlow | src/main/java/girvannewman/Solver.java:117-126 | Flow is conserved. After the reverse pass the source holds one unit per other vertex of the layering. The credits on the links to its downstream vertices add up to that number. |
| Credits.PathOfThree | src/main/java/girvannewman/Solver.java:117-126 | On the path 0–1–2, the pass from 0 credits {0, 1} with 2 and {1, 2} with 1. So one pass's credits add up to the distances (3), not to the number of vertices reached (2). |
| Betweenness.PushAll | src/main/java/girvannewman/Solver.java:112-114 | The queue gains exactly the given downstream vertices, after its old contents. |
| Betweenness.Visit | src/main/java/girvannewman/Solver.java:105-114 | One expansion yields the expanded table, and the queue gains exactly the new downstream vertices. |
| Betweenness.ForwardPass | src/main/java/girvannewman/Solver.java:81-115 | The BFS from src over live edges leaves a complete layering of what src reaches, and a stack holding each vertex once in level order. |
| Betweenness.CreditEdges | src/main/java/girvannewman/Solver.java:122-125 | Each pair's increment is added to its edge's betweenness, and edges without an increment are unchanged. |
| Betweenness.PopVertex | src/main/java/girvannewman/Solver.java:118-125 | One pop keeps the flow balance and adds each pair's credit to its edge. |
| Betweenness.BackwardPass | src/main/java/girvannewman/Solver.java:117-126 | After the pass, every vertex holds its own unit plus what its downstream vertices handed it. Every edge's betweenness has grown by the credit its pair received. |
| Betweenness.IncFlowAndBetwViaBfs | src/main/java/girvannewman/Solver.java:80-127 | The per-source BFS leaves the layering from src and balanced flows. Every edge's betweenness grows by its credit from this source. |
| Betweenness.CreditBounds | src/main/java/girvannewman/Solver.java:109 | A pair's credit is never negative, and a severed pair gets none. |
| Betweenness.CreditAtSource | src/main/java/girvannewman/Solver.java:80-127 | Every live edge at the source gets a positive credit. |
| Betweenness.BfsEffect | src/main/java/girvannewman/Solver.java:80-127 | In one finished pass, no credit is negative and a severed edge gets none. A live edge whose lower end is the pass's source gets something. |
| Betweenness.SourceCredits | src/main/java/girvannewman/Solver.java:117-126 | In the pass from src, the credits on src's live edges add up to the number of other vertices src reaches. |
| Betweenness.AllSourcesCredits | src/main/java/girvannewman/Solver.java:74-78 | Over the passes from all vertices, the credits on each source's own live edges add up to the number of ordered (source, other reached vertex) pairs. |
| Betweenness.EdgeNumbering | src/main/java/girvannewman/Solution.java:31-42 | The edge indices number the adjacent unordered pairs one to one, in both directions. |
| Betweenness.BetwFrom | src/main/java/girvannewman/Solver.java:75-77 | One round of calcBetw's loop runs the pass from node. Every edge's betweenness becomes its start value plus its credits from the passes from 0 .. node. |
| Betweenness.TotalCreditBounds | src/main/java/girvannewman/Solver.java:74-78 | Summed over the passes from 0 .. k-1, an edge's credit is never negative and is 0 when severed. It is positive when the edge is live and its lower end is one of those sources. |
| Betweenness.CalcBetw | src/main/java/girvannewman/Solver.java:74-78 | There is one finished pass from each vertex 0 .. numVert-1. Every edge's betweenness becomes its start value plus its total credit over those passes. That total is never negative, is 0 on a severed edge and is positive on a live one. |
| Betweenness.MaxBetw | src/main/java/girvannewman/Solver.java:55-62 | The result is at least 0 and every entry is at most it. It is 0 or is attained by some entry. |
| Betweenness.FindMaxBetw | src/main/java/girvannewman/Solver.java:55-62 | The first loop computes the largest betweenness, starting from 0. |
| Betweenness.EdgesAt | src/main/java/girvannewman/Solver.java:64-69 | The second loop collects exactly the edges whose betweenness equals max. |
| Betweenness.KillTargets | src/main/java/girvannewman/Solver.java:52-72 | If severed edges have 0 and live edges positive betweenness, then two things hold. While a live edge remains, the selection is non-empty and holds only live edges. Once none remains, every edge is selected. |
| Betweenness.GetEdgesToKill | src/main/java/girvannewman/Solver.java:52-72 | Every edge's betweenness grows by its total credit over one pass per vertex. The edges to kill are exactly those attaining max(0, largest betweenness), all ties included. On a fresh Problem this is a selection from those passes. It is then non-empty and live while a live edge remains, and it is every edge once none does. |
| Solutions.OptIndex | src/main/java/girvannewman/Solution.java:123-125 | The index is the last one at which the history attains its maximum. Nothing is above it, and everything after it is strictly below it. |
| Solutions.IndexNeighbors | src/main/java/girvannewman/Solution.java:35-41 | Each new pair of node gets the next free index and a fresh alive record. Pairs numbered from their other end are skipped, and the numbering stays one to one. |
| Solutions.IndexEdges | src/main/java/girvannewman/Solution.java:31-42 | Every adjacent unordered pair gets exactly one index in 0 .. numEdge-1, with a fresh alive record per index. |
| Solutions.NumberedCard | src/main/java/girvannewman/Solution.java:31-42 | Helper for counting the numbered edges. A one-to-one numbering of edges 0 .. n-1 numbers exactly n pairs. |
| Solutions.ScannedAll | src/main/java/girvannewman/Solution.java:32 | Scanning the vertices 0 .. numVert-1 meets every edge. |
| Solutions.Solution.constructor | src/main/java/girvannewman/Solution.java:23-50 | The graph is kept. Every adjacent pair has one index, and every edge is alive. objList = [0.0], killedEdgeList = [{}], optIter = 0, and no pairs are severed. |
| Solutions.Solution.GetNeighborsOf | src/main/java/girvannewman/Solution.java:63-70 | Returns the neighbour set of a vertex. An id that is not a vertex is an error. |
| Solutions.Solution.GetNumNeighborsOf | src/main/java/girvannewman/Solution.java:72-74 | Returns the degree in the original graph, which kills never change. An unknown id is an error. |
| Solutions.Solution.AreNeighbors | src/main/java/girvannewman/Solution.java:76-82 | True exactly when both ids are adjacent. An unknown first id gives false rather than an error. |
| Solutions.Solution.HasEdge | src/main/java/girvannewman/Solution.java:88-91 | True exactly when the pair, in either order, has an edge index. |
| Solutions.HasEdgeIsAdjacency | src/main/java/girvannewman/Solution.java:31-42 | hasEdge(a, b) == hasEdge(b, a) == areNeighbors(a, b). |
| Solutions.Solution.GetEdge | src/main/java/girvannewman/Solution.java:93-95 | The index lies in 0 .. numEdge-1, and its record's endpoints form the given pair. |
| Solutions.Solution.GetEdgeData | src/main/java/girvannewman/Solution.java:97-99 | The record of edge e carries index e. |
| Solutions.Solution.GetEdgeDataOf | src/main/java/girvannewman/Solution.java:101-105 | The record found for (a, b) has endpoints {a, b}. |
| Solutions.Solution.AddResultAndSetOpt | src/main/java/girvannewman/Solution.java:116-128 | Appends one objective and one killed set, keeping the two histories the same length. optIter becomes the last index of the maximum of the whole history, the initial 0.0 included. |
| Solutions.Solution.SetOptCommSets | src/main/java/girvannewman/Solution.java:130-136 | Replaces the best communities and nothing else. |
| Solutions.Solution.AddSeveredPairs | src/main/java/girvannewman/Solution.java:150-152 | Adds the pair's key to the severed pairs and changes nothing else. |
| Solutions.Solution.AddKilledEdge | src/main/java/girvannewman/Solution.java:158-160 | Appends one killed set and changes nothing else. |
| Problems.Problem.constructor | src/test/java/girvannewman/ProblemTest.java:30-58 | Requires numEdge ≥ 0 and iter ≥ 1. Starts with betweenness 0 on every edge, no records, no kills, no communities and mod 0. |
| Problems.Problem.IncBetw | src/test/java/girvannewman/ProblemTest.java:66-127 | Requires a valid edge and a non-negative increment. Adds the increment to exactly that edge. |
| Problems.Problem.SetEdgesToKill | src/main/java/girvannewman/Problem.java:44-46 | Replaces the kill set and nothing else. |
| Problems.Problem.ResetFlowsData | src/main/java/girvannewman/Problem.java:48-50 | Leaves an empty record table and changes nothing else. |
| Problems.Problem.GetFlowData | src/test/java/girvannewman/ProblemTest.java:170-199 | Returns the record of a vertex that has one. Looking up a vertex without one fails. |
| Problems.Problem.IsInComm | src/main/java/girvannewman/Problem.java:56-58 | True exactly when the vertex belongs to some community. |
| Problems.Problem.InitNewComm | src/main/java/girvannewman/Problem.java:60-65 | Returns the current community count and adds an empty community under that id, so ids come out as 0, 1, 2, … |
| Problems.Problem.PutInComm | src/main/java/girvannewman/Problem.java:67-72 | Adds the node to community c and records node → c. Other communities are unchanged, and the membership invariant is kept. |
| Problems.Problem.IncMod | src/main/java/girvannewman/Problem.java:78-80 | Adds inc to mod and changes nothing else. |
| Communities.ReachReverse | src/main/java/girvannewman/Solver.java:169-175 | Live reachability is symmetric. |
| Communities.ReachConcat | src/main/java/girvannewman/Solver.java:163-176 | Live reachability is transitive. |
| Communities.CompClosed | src/main/java/girvannewman/Solver.java:169-175 | A component holds every live neighbour of its members. |
| Communities.ClosedReach | src/main/java/girvannewman/Solver.java:163-176 | A set closed under live neighbours holds everything its members reach. |
| Communities.PotentialDrops | src/main/java/girvannewman/Solver.java:163-176 | Each iteration of the component BFS lowers a well-founded measure, although a vertex may be queued several times. So the loop terminates. |
| Communities.PushLive | src/main/java/girvannewman/Solver.java:169-175 | Queues exactly the unvisited neighbours joined to the current vertex by a live edge. |
| Communities.FileInto | src/main/java/girvannewman/Solver.java:165-167 | Puts the current vertex into the community being built. |
| Communities.VisitInto | src/main/java/girvannewman/Solver.java:164-175 | One BFS step marks the polled vertex, files it, and queues its unvisited live neighbours. |
| Communities.GrowStep | src/main/java/girvannewman/Solver.java:163-176 | One BFS step keeps the loop invariant and lowers the termination measure. |
| Communities.GrowCommunity | src/main/java/girvannewman/Solver.java:160-176 | The empty community c becomes exactly the live component of node, and every member is recorded under c. Nothing else changes. |
| Communities.SeedIsLeast | src/main/java/girvannewman/Solver.java:155-156 | A vertex not yet in a community is the smallest vertex of its component. |
| Communities.SeededClosed | src/main/java/girvannewman/Solver.java:155-178 | Every community found so far is closed under live neighbours. |
| Communities.NewCommunity | src/main/java/girvannewman/Solver.java:156-177 | A vertex not yet in a community opens the next id, which becomes exactly its component, seeded by the vertex. |
| Communities.ScanVertex | src/main/java/girvannewman/Solver.java:155-178 | After vertex node, every vertex up to node is in a community. |
| Communities.FindCommSet | src/main/java/girvannewman/Solver.java:154-179 | Every vertex ends in exactly one community. Two vertices share one iff live edges connect them. Community c is the component of its seed, which is its smallest member, and seeds increase with c. |
| Communities.Partition | src/main/java/girvannewman/Solver.java:154-179 | Once every vertex has a community, the membership map covers exactly the vertices, and equal ids coincide with live reachability. |
| Modularity.CalcModIter | src/main/java/girvannewman/Solver.java:181-193 | Adds (A_ij − k_i·k_j/(2m))/(2m), using the original graph's adjacency, degrees and m. Adds nothing when i = j. |
| Modularity.AddRow | src/main/java/girvannewman/Solver.java:147-149 | The inner loop adds the row of one member over the whole community. |
| Modularity.AddCommunity | src/main/java/girvannewman/Solver.java:146-150 | The middle loop adds the contribution of one community. |
| Modularity.AddCommunityAt | src/main/java/girvannewman/Solver.java:145-151 | Adds the contribution of community c, and c's members are known to be connected. |
| Modularity.AddCommunities | src/main/java/girvannewman/Solver.java:145-151 | The outer loop adds the modularity of all communities. |
| Modularity.CalcMod | src/main/java/girvannewman/Solver.java:142-152 | The communities are the live components, as for FindCommSet. mod grows by their modularity, summed over ordered pairs i ≠ j. |
| Modularity.CommunityHasEdge | src/main/java/girvannewman/Solver.java:186-190 | Two distinct members of a community imply m > 0, so the division in calcModIter is defined whenever it runs. |
| Modularity.ReachHasEdge | src/main/java/girvannewman/Solver.java:186-190 | Two distinct vertices joined by a live path imply m > 0. |
| Modularity.AdjacentHasEdge | src/main/java/girvannewman/Solver.java:186-190 | An adjacent pair implies m > 0. |
| Modularity.SingletonMod | src/main/java/girvannewman/Solver.java:181-184 | A community with at most one member contributes 0. |
| Modularity.SingletonsModZero | src/main/java/girvannewman/Solver.java:142-152 | An all-singleton partition has modularity 0. |
| Modularity.EdgelessMod | src/main/java/girvannewman/Solver.java:142-152 | On a graph with no edge, the communities found have modularity 0. |
| Modularity.ModTermSymmetric | src/main/java/girvannewman/Solver.java:181-193 | The term of (i, j) equals that of (j, i). |
| Modularity.SumRealAdd | src/main/java/girvannewman/Solver.java:145-151 | Helper for the accumulation loops. Adding one element to a sum adds its term. |
| Rounds.KillOne | src/main/java/girvannewman/Solver.java:134-138 | Kills one edge in the current round and adds its endpoints to the severed pairs. |
| Rounds.KillEdges | src/main/java/girvannewman/Solver.java:130-140 | Each selected edge is marked dead with iterKilled = round, and other edges are untouched. Severed pairs gain exactly the pairs whose edge index is selected, so they stay equal to the pairs of dead edges. |
| Rounds.KilledSevered | src/main/java/girvannewman/Solver.java:130-140 | The severed pairs after the kill loop are exactly the pairs of dead edges. |
| Rounds.Patience | src/main/java/girvannewman/Solver.java:38-43 | godMode after n rounds is below n, or 0. |
| Rounds.RecordRound | src/main/java/girvannewman/Solver.java:36-43 | A round at least the best moves the best index to it and keeps godMode. A round below the best keeps the index and raises godMode by 1. godMode is never reset. |
| Rounds.TrackRound | src/main/java/girvannewman/Solver.java:23-46 | One loop pass keeps optObj = best objective, currObj = last objective, godMode = patience and optComms = communities of the latest best round. The loop test passes exactly when the exit test fails. |
| Rounds.HistoryAppend | src/main/java/girvannewman/Solver.java:29-36 | Appending a played round keeps the history. In every round, the kills are a selection from the passes over the graph as the previous round left it. The severed pairs are the earlier ones plus the killed pairs. The communities are the live components, and the objective is their modularity. |
| Rounds.CutsGrow | src/main/java/girvannewman/Solver.java:29-45 | Along the history, the severed pairs only grow. |
| Rounds.ConstantNeverExits | src/main/java/girvannewman/Solver.java:23 | If every objective is the same, the exit test never fires and the best index is the last round. |
| Rounds.EdgelessRound | src/main/java/girvannewman/Solver.java:33-34 | On a graph with no edge, every round's objective is 0. |
| Rounds.EdgelessNeverExits | src/main/java/girvannewman/Solver.java:23 | On a graph with no edge, the exit test never fires. |
| Rounds.SelectRound | src/main/java/girvannewman/Solver.java:29-31 | A fresh Problem for round iter. Its kill set is the maximum-betweenness edges, a selection from one pass per vertex over the current live graph. Community state is still empty. |
| Rounds.KillRound | src/main/java/girvannewman/Solver.java:29-32 | The kill set is a selection from the passes over the live graph before the round. Exactly those edges die, with iterKilled = iter, and the other edges are untouched. The severed pairs gain exactly their pairs. |
| Rounds.Round | src/main/java/girvannewman/Solver.java:29-34 | One round. The kills and their effect on edges and severed pairs are as for KillRound. The communities are the live components after the kills, and mod is their modularity. |
| Rounds.PlayRound | src/main/java/girvannewman/Solver.java:29-45 | One loop pass. The kills are a selection from the passes over the live graph before the round, and the severed pairs gain exactly their pairs. The objective is the modularity of the live components after the kills. Exactly the killed edges die, stamped with iterKilled = iter, and the other edges are untouched. objList and killedEdgeList each gain this round's entry. optObj, godMode and the best communities are updated as the source does. |
| Rounds.RecordResult | src/main/java/girvannewman/Solver.java:36-43 | Appends the objective and the kill set, and updates optObj, godMode and the best communities as the source does. The severed pairs and the edge records are unchanged. |
| Rounds.Stamp | src/main/java/girvannewman/Solver.java:130-140 | The number, counted from 1, of the last round whose kill set holds e: that round killed e and no later one did. It is -1 exactly when no round killed e. |
| Rounds.Solve | src/main/java/girvannewman/Solver.java:11-49 | objList is [0.0] followed by the round objectives, and killedEdgeList is [{}] followed by the round kill sets. Each round kills a maximum-betweenness selection from the passes over the live graph the previous round left. Its objective is the modularity of the live components after the kills. The final severed pairs are those of the last round. Every edge's iterKilled is the number of the last round that killed it, and the edge is alive exactly when no round did. The best communities are those of the latest best round, and no earlier round met the exit test. A run stopping before the bound met it. On an edgeless graph every round scores 0 and the loop never exits. |

## Left out

- Console I/O is not modelled. This covers `App.java`, the file reading in `util/GraphLoader.java` and the logging in `Solver.java:12,21,24-27`. The loader only folds `addVertex`/`addEdge` over the pairs it reads, which the Graph model covers.
- Doubles are modelled as exact reals. Rounding that might split or merge ties at the `==` of `Solver.java:66` is not modelled.
- Java `int` overflow is not modelled. Path counts, degree products and counters are unbounded integers.
- `HashSet`/`HashMap` iteration order is not modelled. Set loops take elements in an unspecified order, and every contract states only order-independent facts. The exact index each pair receives is not pinned down, only that the numbering is one to one and dense.
- The `hashCode` bit arithmetic is replaced by the (min, max) key it depends on.
- Null arguments and the NullPointerExceptions of `Solution.java:117-119,130-135` are left out, because Dafny values are never null.
- `getEdgeData(e)` on an out-of-range e, `getEdge` on an unknown pair and `putInComm` into a missing community are preconditions. The source throws or fails in these cases.
- Solutions.Solution.constructor and Rounds.Solve: both require the vertex ids to be exactly 0 .. numVertex-1 and the graph to have no self-loop, so two kinds of input on which the source fails are not modelled. First, a missing id below numVertex makes `neighborsSet.get(node)` return null, and the loop at `Solution.java:32-35` throws a NullPointerException. Since numVertex counts the ids, any other set of ids leaves such a gap. Second, a self-loop, which `Graph.addEdge` accepts, makes the EdgeData constructor throw IllegalArgumentException on its equal endpoints. The model treats both as callers' errors rather than modelling the exceptions.
- Rounds.Solve: the loop is bounded by `maxRounds`. The source's loop has no bound and may never end, for example on an edgeless graph, or after every edge is dead when the objective stays at its best. The model proves that on an edgeless graph every bounded run uses all its rounds. It does not claim termination.
- Rounds.Solve: the patience counter and best index are over the round objectives, and optObj starts at minus infinity. `Solution.optIter`, as `AddResultAndSetOpt` states, also counts the initial 0.0 of objList. The model keeps both as the source does and does not relate them.
- Betweenness.GetEdgesToKill: the selection facts are proved for a Problem whose betweenness starts at 0, which is how `solve` calls it.
- Betweenness.Selects: the kill set is proved to be the selection made from some finished pass per vertex. That a finished pass is unique, so that the selection depends on the live graph alone, is not proved.
- Communities.FindCommSet and Modularity.CalcMod require a Problem with no communities yet, which is how `solve` calls them.
- Betweenness.ForwardPass: pathCount is proved to be the sum of the upstream vertices' path counts, the recurrence of the number of shortest paths, and Layering.LayeredReach proves the levels are shortest-path lengths. That pathCount equals the number of shortest live paths is not proved, because the model defines no count of walks.
- Betweenness.CalcBetw: each edge's betweenness is proved equal to its total credit over the passes. Its closed form, a sum over vertex pairs of the fraction of shortest paths crossing the edge, is not stated, because the number of shortest paths is not (see Betweenness.ForwardPass).
- Graph's `exportGraph`, the plain getters and `Problem.getBetw` are simple field reads, modelled as functions without contracts.

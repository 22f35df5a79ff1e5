/** The graph as the solver sees it and the run's history
    (girvannewman/Solution.java): dense edge indices for the unordered
    adjacent pairs, the EdgeData of every edge, the severed pairs, the
    objective of every round, the edges killed in every round, the index of
    the best round and the best communities. */
module Solutions {
  import opened Wrappers
  import opened VertexPairs
  import opened SetSums
  import opened Graphs
  import opened Edges

  /** The index optIter must hold: the last position at which xs attains its
      maximum. */
  function OptIndex(xs: seq<real>): (i: nat)
    requires |xs| >= 1
    ensures i < |xs|
    ensures forall j :: 0 <= j < |xs| ==> xs[j] <= xs[i]
    ensures forall j :: i < j < |xs| ==> xs[j] < xs[i]
    decreases |xs|
  {
    if |xs| == 1 then 0
    else
      var k := OptIndex(xs[..|xs| - 1]);
      if xs[|xs| - 1] >= xs[k] then |xs| - 1 else k
  }

  /** The unordered pairs met while scanning vertices 0 .. node-1. */
  ghost function Scanned(adj: Adjacency, node: int): set<PairKey>
  {
    set a, b | a in adj && a < node && b in adj[a] :: Pair(a, b)
  }

  /** The pairs of node with the vertices of s. */
  ghost function PairsFrom(node: int, s: set<int>): set<PairKey>
  {
    set b | b in s :: Pair(node, b)
  }

  /** Edges 0 .. edge-1 are numbered one to one with the keys of vte:
      ds[e] is the record of edge e, and vte maps its endpoints back to e. */
  ghost predicate Numbered(vte: map<PairKey, int>, ds: seq<EdgeData?>, edge: int)
  {
    && 0 <= edge <= |ds|
    && (forall k :: k in vte ==> 0 <= vte[k] < edge && ds[vte[k]] != null && Key(ds[vte[k]].endpoints) == k)
    && (forall e :: 0 <= e < edge ==>
          && ds[e] != null && ds[e].edgeIndex == e
          && Key(ds[e].endpoints) in vte && vte[Key(ds[e].endpoints)] == e)
  }

  /** A one-to-one numbering of edge pairs has as many pairs as numbers. */
  lemma {:induction false} NumberedCard(vte: map<PairKey, int>, ds: seq<EdgeData?>, edge: int)
    requires Numbered(vte, ds, edge)
    ensures |vte| == edge
    decreases edge
  {
    if edge == 0 {
      assert vte == map[];
    } else {
      var k := Key(ds[edge - 1].endpoints);
      var rest := map k' | k' in vte && k' != k :: vte[k'];
      assert rest.Keys == vte.Keys - {k};
      NumberedCard(rest, ds, edge - 1);
    }
  }

  /** Numbered records of different edges are different objects. */
  lemma NumberedDistinct(vte: map<PairKey, int>, ds: seq<EdgeData?>, edge: int, e1: int, e2: int)
    requires Numbered(vte, ds, edge) && 0 <= e1 < edge && 0 <= e2 < edge && e1 != e2
    ensures ds[e1] != ds[e2]
  {
  }

  /** The scan of node's neighbours with todo still to visit: vte numbers
      the pairs seen before plus those of the visited neighbours. */
  ghost predicate Scan(vte0: map<PairKey, int>, vte: map<PairKey, int>, node: int,
                       neighbors: set<int>, todo: set<int>, ds: seq<EdgeData?>, edge: int)
  {
    && todo <= neighbors
    && Numbered(vte, ds, edge)
    && vte.Keys == vte0.Keys + PairsFrom(node, neighbors - todo)
  }

  /** Numbering a new pair as edge `edge` visits one more neighbour. */
  lemma ScanAdd(vte0: map<PairKey, int>, vte: map<PairKey, int>, node: int, neighbors: set<int>,
                todo: set<int>, ds: seq<EdgeData?>, edge: int, b: int, d: EdgeData)
    requires Scan(vte0, vte, node, neighbors, todo, ds, edge) && edge < |ds| && b in todo
    requires Pair(node, b) !in vte && Key(d.endpoints) == Pair(node, b) && d.edgeIndex == edge
    ensures Scan(vte0, vte[Pair(node, b) := edge], node, neighbors, todo - {b}, ds[edge := d], edge + 1)
  {
    assert neighbors - (todo - {b}) == (neighbors - todo) + {b};
    assert PairsFrom(node, (neighbors - todo) + {b}) == PairsFrom(node, neighbors - todo) + {Pair(node, b)};
  }

  /** A pair numbered from its other end is skipped. */
  lemma ScanSkip(vte0: map<PairKey, int>, vte: map<PairKey, int>, node: int, neighbors: set<int>,
                 todo: set<int>, ds: seq<EdgeData?>, edge: int, b: int)
    requires Scan(vte0, vte, node, neighbors, todo, ds, edge) && b in todo
    requires Pair(node, b) in vte
    ensures Scan(vte0, vte, node, neighbors, todo - {b}, ds, edge)
  {
    assert neighbors - (todo - {b}) == (neighbors - todo) + {b};
    assert PairsFrom(node, (neighbors - todo) + {b}) == PairsFrom(node, neighbors - todo) + {Pair(node, b)};
  }

  /** While every numbered pair lies in `universe`, a new pair of universe
      still has an index below |universe|. */
  lemma ScanRoom(vte0: map<PairKey, int>, vte: map<PairKey, int>, node: int, neighbors: set<int>,
                 todo: set<int>, ds: seq<EdgeData?>, edge: int, b: int, universe: set<PairKey>)
    requires Scan(vte0, vte, node, neighbors, todo, ds, edge) && b in todo && Pair(node, b) !in vte
    requires PairsFrom(node, neighbors) <= universe && vte0.Keys <= universe
    ensures edge < |universe|
  {
    assert vte.Keys <= universe;
    Room(vte, ds, edge, Pair(node, b), universe);
  }

  lemma Room(vte: map<PairKey, int>, ds: seq<EdgeData?>, edge: int, k: PairKey, universe: set<PairKey>)
    requires Numbered(vte, ds, edge) && vte.Keys <= universe && k in universe && k !in vte
    ensures edge < |universe|
  {
    NumberedCard(vte, ds, edge);
    SubsetCardinality(vte.Keys + {k}, universe);
  }

  /** One round of the inner loop of the Solution constructor: the next
      neighbour gets the next free index unless its pair already has one. */
  method IndexNext(neighbors: set<int>, node: int, ghost universe: set<PairKey>, ghost vte0: map<PairKey, int>,
                   data: array<EdgeData?>, vte: map<PairKey, int>, edge: int, todo: set<int>)
    returns (vte': map<PairKey, int>, edge': int, todo': set<int>)
    requires node >= 0 && forall b :: b in neighbors ==> b >= 0 && b != node
    requires PairsFrom(node, neighbors) <= universe && vte0.Keys <= universe
    requires data.Length == |universe|
    requires Scan(vte0, vte, node, neighbors, todo, data[..], edge) && todo != {}
    requires forall e :: 0 <= e < edge ==> data[e].Fixed() && data[e].alive && data[e].iterKilled == -1
    modifies data
    ensures Scan(vte0, vte', node, neighbors, todo', data[..], edge') && edge <= edge' && todo' < todo
    ensures forall e :: 0 <= e < edge ==> data[e] == old(data[e])
    ensures forall e :: edge <= e < edge' ==> fresh(data[e])
    ensures forall e :: 0 <= e < edge' ==> data[e].Fixed() && data[e].alive && data[e].iterKilled == -1
  {
    vte' := vte;
    edge' := edge;
    ghost var someNeighbor := Elem(todo);
    var neighbor :| neighbor in todo;
    // hasEdge(node, neighbor) on the numbering built so far
    if Pair(node, neighbor) !in vte {
      ScanRoom(vte0, vte, node, neighbors, todo, data[..], edge, neighbor, universe);
      var d := new EdgeData(node, neighbor, edge);
      ScanAdd(vte0, vte, node, neighbors, todo, data[..], edge, neighbor, d);
      vte' := vte[Pair(node, neighbor) := edge];
      data[edge] := d;
      edge' := edge + 1;
    } else {
      ScanSkip(vte0, vte, node, neighbors, todo, data[..], edge, neighbor);
    }
    todo' := todo - {neighbor};
  }

  /** The inner loop of the Solution constructor: gives the next free index
      to every pair of node and a neighbour that has none yet, creating its
      EdgeData. */
  method IndexNeighbors(neighbors: set<int>, node: int, ghost universe: set<PairKey>,
                        vte0: map<PairKey, int>, data: array<EdgeData?>, edge0: int)
    returns (vte: map<PairKey, int>, edge: int)
    requires node >= 0 && forall b :: b in neighbors ==> b >= 0 && b != node
    requires PairsFrom(node, neighbors) <= universe && vte0.Keys <= universe
    requires data.Length == |universe|
    requires Numbered(vte0, data[..], edge0)
    requires forall e :: 0 <= e < edge0 ==> data[e].Fixed() && data[e].alive && data[e].iterKilled == -1
    modifies data
    ensures Numbered(vte, data[..], edge) && edge0 <= edge
    ensures vte.Keys == vte0.Keys + PairsFrom(node, neighbors)
    ensures forall e :: 0 <= e < edge0 ==> data[e] == old(data[e])
    ensures forall e :: edge0 <= e < edge ==> fresh(data[e])
    ensures forall e :: 0 <= e < edge ==> data[e].Fixed() && data[e].alive && data[e].iterKilled == -1
  {
    vte := vte0;
    edge := edge0;
    var todo := neighbors;
    assert Scan(vte0, vte, node, neighbors, todo, data[..], edge) by {
      assert neighbors - todo == {};
      assert PairsFrom(node, {}) == {};
    }
    while todo != {}
      invariant Scan(vte0, vte, node, neighbors, todo, data[..], edge) && edge0 <= edge
      invariant forall e :: 0 <= e < edge0 ==> data[e] == old(data[e])
      invariant forall e :: edge0 <= e < edge ==> fresh(data[e])
      invariant forall e :: 0 <= e < edge ==> data[e].Fixed() && data[e].alive && data[e].iterKilled == -1
      decreases todo
    {
      vte, edge, todo := IndexNext(neighbors, node, universe, vte0, data, vte, edge, todo);
    }
    assert neighbors - todo == neighbors;
  }

  /** Scanning one more vertex adds its pairs. */
  lemma ScannedNext(adj: Adjacency, node: int)
    requires node in adj
    ensures Scanned(adj, node + 1) == Scanned(adj, node) + PairsFrom(node, adj[node])
    ensures Scanned(adj, node) <= EdgeKeys(adj) && PairsFrom(node, adj[node]) <= EdgeKeys(adj)
  {
  }

  /** Scanning every vertex meets every edge. */
  lemma ScannedAll(adj: Adjacency, n: int)
    requires forall v :: v in adj ==> v < n
    ensures Scanned(adj, n) == EdgeKeys(adj)
  {
  }

  /** In a graph on vertices 0 .. n-1 with symmetric, loop-free adjacency,
      every neighbour is a non-negative id other than the vertex itself. */
  lemma NeighborIds(adj: Adjacency, n: int)
    requires forall v :: v in adj <==> 0 <= v < n
    requires Symmetric(adj) && forall v :: v in adj ==> v !in adj[v]
    ensures forall v, b :: v in adj && b in adj[v] ==> b >= 0 && b != v
  {
    forall v, b | v in adj && b in adj[v] ensures b >= 0 && b != v {
      assert b in adj;
    }
  }

  /** One round of the outer loop of the Solution constructor: the pairs of
      node with its neighbours join the numbering. */
  method IndexVertex(adj: Adjacency, n: int, node: int, vte: map<PairKey, int>, data: array<EdgeData?>, edge: int)
    returns (vte': map<PairKey, int>, edge': int)
    requires forall v :: v in adj <==> 0 <= v < n
    requires forall v, b :: v in adj && b in adj[v] ==> b >= 0 && b != v
    requires data.Length == |EdgeKeys(adj)| && 0 <= node < n
    requires vte.Keys == Scanned(adj, node) && Numbered(vte, data[..], edge)
    requires forall e :: 0 <= e < edge ==> data[e].Fixed() && data[e].alive && data[e].iterKilled == -1
    modifies data
    ensures vte'.Keys == Scanned(adj, node + 1) && Numbered(vte', data[..], edge') && edge <= edge'
    ensures forall e :: 0 <= e < edge ==> data[e] == old(data[e])
    ensures forall e :: edge <= e < edge' ==> fresh(data[e])
    ensures forall e :: 0 <= e < edge' ==> data[e].Fixed() && data[e].alive && data[e].iterKilled == -1
  {
    ScannedNext(adj, node);
    vte', edge' := IndexNeighbors(adj[node], node, EdgeKeys(adj), vte, data, edge);
  }

  /** The edge-numbering loop of the Solution constructor: vertices in
      increasing order, the pairs of each in its neighbour set's order. */
  method IndexEdges(adj: Adjacency, n: int, m: int) returns (vte: map<PairKey, int>, data: array<EdgeData?>)
    requires forall v :: v in adj <==> 0 <= v < n
    requires forall v, b :: v in adj && b in adj[v] ==> b >= 0 && b != v
    requires m == |EdgeKeys(adj)|
    ensures fresh(data) && data.Length == m
    ensures Numbered(vte, data[..], m)
    ensures vte.Keys == EdgeKeys(adj)
    ensures forall e :: 0 <= e < m ==> fresh(data[e]) && data[e].alive && data[e].Valid()
  {
    vte := map[];
    data := new EdgeData?[m];
    var edge := 0;
    var node := 0;
    while node < n
      invariant 0 <= node && (node <= n || n < 0)
      invariant vte.Keys == Scanned(adj, node)
      invariant Numbered(vte, data[..], edge)
      invariant forall e :: 0 <= e < edge ==> fresh(data[e])
      invariant forall e :: 0 <= e < edge ==> data[e].Fixed() && data[e].alive && data[e].iterKilled == -1
    {
      vte, edge := IndexVertex(adj, n, node, vte, data, edge);
      node := node + 1;
    }
    ScannedAll(adj, node);
    NumberedCard(vte, data[..], edge);
    forall e | 0 <= e < m ensures data[e].Valid() {
    }
  }

  class Solution {
    const neighborsSet: Adjacency
    const numVert: int
    const numEdge: int
    const vertToEdge: map<PairKey, int>
    const edgesData: array<EdgeData?>
    /** The EdgeData objects of edgesData. */
    ghost const EdgeObjects: set<EdgeData?>

    var objList: seq<real>
    var optIter: int
    var severedPairs: set<PairKey>
    var killedEdgeList: seq<set<int>>
    var optCommunitiesSet: map<int, set<int>>

    /** Vertices are 0 .. numVert-1, adjacency is symmetric and loop-free,
        and the adjacent unordered pairs are numbered 0 .. numEdge-1 one to
        one, edgesData[e] being the record of edge e. Only constants and the
        array are read, so changes to the run's history keep it. */
    ghost predicate Indexed()
      reads edgesData
    {
      && 0 <= numVert && (forall v :: v in neighborsSet <==> 0 <= v < numVert)
      && Symmetric(neighborsSet)
      && (forall v :: v in neighborsSet ==> v !in neighborsSet[v])
      && vertToEdge.Keys == EdgeKeys(neighborsSet)
      && edgesData.Length == numEdge
      && Numbered(vertToEdge, edgesData[..], numEdge)
      && (forall e :: 0 <= e < numEdge ==> edgesData[e] in EdgeObjects)
    }

    /** Every edge record is well formed. */
    ghost predicate EdgesValid()
      requires Indexed()
      reads edgesData, EdgeObjects
    {
      forall e :: 0 <= e < numEdge ==> edgesData[e].Valid()
    }

    /** The pairs whose edge is dead. */
    ghost function DeadPairs(): set<PairKey>
      requires Indexed()
      reads edgesData, EdgeObjects
    {
      set k | k in vertToEdge && !edgesData[vertToEdge[k]].alive
    }

    /** Each edge's (alive, iterKilled), by index. */
    ghost function EdgeStates(): (r: seq<(bool, int)>)
      requires Indexed()
      reads edgesData, EdgeObjects
      ensures |r| == numEdge
      ensures forall e :: 0 <= e < numEdge ==> r[e] == (edgesData[e].alive, edgesData[e].iterKilled)
    {
      seq(numEdge, e requires 0 <= e < numEdge && Indexed() reads edgesData, EdgeObjects =>
        (edgesData[e].alive, edgesData[e].iterKilled))
    }

    ghost predicate Valid()
      reads this, edgesData, EdgeObjects
    {
      && Indexed()
      && EdgesValid()
      && severedPairs == DeadPairs()
      && |objList| == |killedEdgeList| >= 1
      && optIter == OptIndex(objList)
    }

    /** Numbers the adjacent unordered pairs while scanning vertices in
        increasing order, each vertex's neighbours in set order, skipping a
        pair already numbered from its other end. The source reads
        neighborsSet.get(node) for node in 0 .. numVertex-1, so the vertices
        must be exactly those ids; EdgeData rejects equal endpoints, so the
        graph must have no self-loop. */
    constructor (graph: Graph)
      requires graph.Valid()
      requires forall v :: v in graph.neighborsSet <==> 0 <= v < graph.numVertex
      requires forall v :: v in graph.neighborsSet ==> v !in graph.neighborsSet[v]
      ensures Valid()
      ensures neighborsSet == old(graph.neighborsSet)
      ensures numVert == old(graph.numVertex) && numEdge == old(graph.numEdge)
      ensures objList == [0.0] && killedEdgeList == [{}] && optIter == 0
      ensures severedPairs == {} && optCommunitiesSet == map[]
      ensures forall e :: 0 <= e < numEdge ==> edgesData[e].alive
      ensures fresh(edgesData) && fresh(EdgeObjects)
    {
      var adj := graph.ExportGraph();
      var n := graph.numVertex;
      var m := graph.numEdge;
      NeighborIds(adj, n);
      var vte, data := IndexEdges(adj, n, m);
      neighborsSet := adj;
      numVert := n;
      numEdge := m;
      vertToEdge := vte;
      edgesData := data;
      EdgeObjects := set e | 0 <= e < m :: data[e];
      objList := [0.0];
      optIter := 0;
      severedPairs := {};
      killedEdgeList := [{}];
      optCommunitiesSet := map[];
      new;
      assert Indexed();
      assert DeadPairs() == {};
    }

    /** The neighbours of a vertex; an id that is not a vertex is an error. */
    function GetNeighborsOf(node: int): (r: Option<set<int>>)
      ensures r.Some? <==> node in neighborsSet
      ensures r.Some? ==> r.value == neighborsSet[node]
    {
      if node in neighborsSet then Some(neighborsSet[node]) else None
    }

    /** The degree in the original graph; kills never change it. */
    function GetNumNeighborsOf(node: int): (r: Option<nat>)
      ensures r.Some? <==> node in neighborsSet
      ensures r.Some? ==> r.value == Degree(neighborsSet, node)
    {
      match GetNeighborsOf(node)
      case None => None
      case Some(nbrs) => Some(|nbrs|)
    }

    /** Adjacency in the original graph; an unknown first id gives false
        rather than an error. */
    function AreNeighbors(node1: int, node2: int): (r: bool)
      ensures r <==> node1 in neighborsSet && node2 in neighborsSet[node1]
    {
      if node1 !in neighborsSet then false
      else node2 in GetNeighborsOf(node1).value
    }

    /** Whether the pair has an edge index, in either order. */
    function HasEdge(node1: int, node2: int): (r: bool)
      ensures r <==> Pair(node1, node2) in vertToEdge
    {
      Key(VertexPair(node1, node2)) in vertToEdge
    }

    /** The index of a pair's edge; the source fails on a pair without one. */
    function GetEdge(vp: VertexPair): (e: int)
      requires Indexed() && Key(vp) in vertToEdge
      reads edgesData
      ensures 0 <= e < numEdge
      ensures Key(edgesData[e].endpoints) == Key(vp)
    {
      vertToEdge[Key(vp)]
    }

    function GetEdgeData(edge: int): (d: EdgeData)
      requires Indexed() && 0 <= edge < numEdge
      reads edgesData
      ensures d in EdgeObjects && d.edgeIndex == edge
    {
      edgesData[edge]
    }

    /** The record of the edge joining two vertices, in either order. */
    function GetEdgeDataOf(node1: int, node2: int): (d: EdgeData)
      requires Indexed() && Pair(node1, node2) in vertToEdge
      reads edgesData
      ensures d in EdgeObjects
      ensures Key(d.endpoints) == Pair(node1, node2)
    {
      var edge := GetEdge(VertexPair(node1, node2));
      edgesData[edge]
    }

    /** Records one round's objective and killed edges. optIter moves to the
        new round when its objective is at least the best so far, so it stays
        the last index of the maximum; the initial 0.0 counts. */
    method AddResultAndSetOpt(obj: real, killedEdges: set<int>)
      requires Valid()
      modifies this
      ensures Valid()
      ensures objList == old(objList) + [obj]
      ensures killedEdgeList == old(killedEdgeList) + [killedEdges]
      ensures optIter == OptIndex(objList)
      ensures severedPairs == old(severedPairs) && optCommunitiesSet == old(optCommunitiesSet)
    {
      objList := objList + [obj];
      if obj >= objList[optIter] {
        optIter := |objList| - 1;
      }
      AddKilledEdge(killedEdges);
      assert objList[..|objList| - 1] == old(objList);
    }

    method SetOptCommSets(optCommSet: map<int, set<int>>)
      modifies this
      ensures optCommunitiesSet == optCommSet
      ensures objList == old(objList) && killedEdgeList == old(killedEdgeList)
      ensures optIter == old(optIter) && severedPairs == old(severedPairs)
    {
      optCommunitiesSet := optCommSet;
    }

    method AddSeveredPairs(vp: VertexPair)
      modifies this
      ensures severedPairs == old(severedPairs) + {Key(vp)}
      ensures objList == old(objList) && killedEdgeList == old(killedEdgeList)
      ensures optIter == old(optIter) && optCommunitiesSet == old(optCommunitiesSet)
    {
      severedPairs := severedPairs + {Key(vp)};
    }

    method AddKilledEdge(killedEdges: set<int>)
      modifies this
      ensures killedEdgeList == old(killedEdgeList) + [killedEdges]
      ensures objList == old(objList) && severedPairs == old(severedPairs)
      ensures optIter == old(optIter) && optCommunitiesSet == old(optCommunitiesSet)
    {
      killedEdgeList := killedEdgeList + [killedEdges];
    }
  }

  /** hasEdge is symmetric and agrees with adjacency. */
  lemma HasEdgeIsAdjacency(s: Solution, a: int, b: int)
    requires s.Valid()
    ensures s.HasEdge(a, b) == s.HasEdge(b, a) == s.AreNeighbors(a, b)
  {
    if s.HasEdge(a, b) {
      var x, y :| x in s.neighborsSet && y in s.neighborsSet[x] && Pair(a, b) == Pair(x, y);
    }
  }
}

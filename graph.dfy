/** The adjacency-set graph (graph/Graph.java) and the facts about adjacency
    maps that the rest of the model relies on. */
module Graphs {
  import opened VertexPairs
  import opened SetSums

  type Adjacency = map<int, set<int>>

  /** b is a neighbour of a exactly when a is a neighbour of b. */
  ghost predicate Symmetric(adj: Adjacency)
  {
    forall a, b :: a in adj && b in adj[a] ==> b in adj && a in adj[b]
  }

  /** Every neighbour is itself a vertex of the graph. */
  ghost predicate Closed(adj: Adjacency)
  {
    forall a, b :: a in adj && b in adj[a] ==> b in adj
  }

  /** The distinct unordered adjacent pairs. */
  ghost function EdgeKeys(adj: Adjacency): set<PairKey>
  {
    set a, b | a in adj && b in adj[a] :: Pair(a, b)
  }

  /** Vertices that are their own neighbour. */
  ghost function Loops(adj: Adjacency): set<int>
  {
    set a | a in adj && a in adj[a]
  }

  function Degree(adj: Adjacency, a: int): nat
  {
    if a in adj then |adj[a]| else 0
  }

  /** Sum of the sizes of all neighbour sets. */
  ghost function DegreeSum(adj: Adjacency): int
  {
    Sum(adj.Keys, a => Degree(adj, a))
  }

  /** The map after addVertex(v). */
  function WithVertex(adj: Adjacency, v: int): (r: Adjacency)
    ensures r.Keys == adj.Keys + {v}
    ensures forall a :: a in adj ==> r[a] == adj[a]
    ensures v !in adj ==> r[v] == {}
  {
    if v in adj then adj else adj[v := {}]
  }

  /** The map after addEdge(a, b): b joins N(a) and a joins N(b). */
  function WithEdge(adj: Adjacency, a: int, b: int): (r: Adjacency)
    requires a in adj && b in adj
    ensures r.Keys == adj.Keys
    ensures r[a] == adj[a] + {b} && r[b] == adj[b] + {a}
    ensures forall v :: v in adj && v != a && v != b ==> r[v] == adj[v]
    ensures Symmetric(adj) ==> Symmetric(r)
  {
    adj[a := adj[a] + {b}][b := adj[b] + {a}]
  }

  /** Adding an isolated vertex leaves the edges, loops and degree sum alone. */
  lemma {:induction false} WithVertexKeepsCounts(adj: Adjacency, v: int)
    ensures EdgeKeys(WithVertex(adj, v)) == EdgeKeys(adj)
    ensures Loops(WithVertex(adj, v)) == Loops(adj)
    ensures DegreeSum(WithVertex(adj, v)) == DegreeSum(adj)
  {
    var r := WithVertex(adj, v);
    if v !in adj {
      assert EdgeKeys(r) == EdgeKeys(adj) by {
        forall k | k in EdgeKeys(r) ensures k in EdgeKeys(adj) {
          var x, y :| x in r && y in r[x] && k == Pair(x, y);
          assert x != v;
        }
      }
      assert Loops(r) == Loops(adj);
      SumRemove(r.Keys, a => Degree(r, a), v);
      assert r.Keys - {v} == adj.Keys;
      SumCongruence(adj.Keys, a => Degree(r, a), a => Degree(adj, a));
    }
  }

  /** A new edge {a, b} adds exactly one unordered pair. */
  lemma {:induction false} WithEdgeKeys(adj: Adjacency, a: int, b: int)
    requires a in adj && b in adj && Symmetric(adj) && b !in adj[a]
    ensures Pair(a, b) !in EdgeKeys(adj)
    ensures EdgeKeys(WithEdge(adj, a, b)) == EdgeKeys(adj) + {Pair(a, b)}
  {
    var r := WithEdge(adj, a, b);
    forall k | k in EdgeKeys(r) ensures k in EdgeKeys(adj) + {Pair(a, b)} {
      var x, y :| x in r && y in r[x] && k == Pair(x, y);
      if !(x == a && y == b) && !(x == b && y == a) {
        assert y in adj[x];
      }
    }
    assert Pair(a, b) in EdgeKeys(r) by {
      assert b in r[a];
    }
  }

  /** Sum after changing one vertex's neighbour set. */
  lemma {:induction false} DegreeSumUpdate(adj: Adjacency, v: int, s: set<int>)
    requires v in adj
    ensures DegreeSum(adj[v := s]) == DegreeSum(adj) - |adj[v]| + |s|
  {
    var r := adj[v := s];
    assert r.Keys == adj.Keys;
    SumRemove(r.Keys, a => Degree(r, a), v);
    SumRemove(adj.Keys, a => Degree(adj, a), v);
    SumCongruence(adj.Keys - {v}, a => Degree(r, a), a => Degree(adj, a));
  }

  /** A new edge raises the degree sum by 2, or by 1 and one loop when a == b. */
  lemma {:induction false} WithEdgeDegreeSum(adj: Adjacency, a: int, b: int)
    requires a in adj && b in adj && b !in adj[a] && Symmetric(adj)
    ensures DegreeSum(WithEdge(adj, a, b)) + |Loops(WithEdge(adj, a, b))|
         == DegreeSum(adj) + |Loops(adj)| + 2
  {
    if a == b {
      assert WithEdge(adj, a, b) == adj[a := adj[a] + {a}];
      WithLoopDegreeSum(adj, a);
    } else {
      assert a !in adj[b];
      WithPairDegreeSum(adj, a, b);
    }
  }

  /** A self-loop at a raises a's degree by 1 and adds a to the loops. */
  lemma {:induction false} WithLoopDegreeSum(adj: Adjacency, a: int)
    requires a in adj && a !in adj[a]
    ensures DegreeSum(adj[a := adj[a] + {a}]) + |Loops(adj[a := adj[a] + {a}])|
         == DegreeSum(adj) + |Loops(adj)| + 2
  {
    var r := adj[a := adj[a] + {a}];
    DegreeSumUpdate(adj, a, adj[a] + {a});
    assert |adj[a] + {a}| == |adj[a]| + 1;
    assert a !in Loops(adj);
    assert Loops(r) == Loops(adj) + {a};
  }

  /** An edge between two distinct vertices raises each one's degree by 1
      and leaves the loops as they were. */
  lemma {:induction false} WithPairDegreeSum(adj: Adjacency, a: int, b: int)
    requires a in adj && b in adj && a != b && b !in adj[a] && a !in adj[b]
    ensures DegreeSum(adj[a := adj[a] + {b}][b := adj[b] + {a}])
          + |Loops(adj[a := adj[a] + {b}][b := adj[b] + {a}])|
         == DegreeSum(adj) + |Loops(adj)| + 2
  {
    var r1 := adj[a := adj[a] + {b}];
    DegreeSumUpdate(adj, a, adj[a] + {b});
    assert |adj[a] + {b}| == |adj[a]| + 1;
    DegreeSumUpdate(r1, b, adj[b] + {a});
    assert |adj[b] + {a}| == |adj[b]| + 1;
    assert Loops(r1[b := adj[b] + {a}]) == Loops(adj);
  }

  /** In a valid graph with no self-loops every edge is counted once from
      each end. */
  lemma {:induction false} Handshake(g: Graph)
    requires g.Valid()
    requires forall a :: a in g.neighborsSet ==> a !in g.neighborsSet[a]
    ensures DegreeSum(g.neighborsSet) == 2 * g.numEdge
  {
    assert forall a :: a !in Loops(g.neighborsSet);
    assert Loops(g.neighborsSet) == {};
  }

  class Graph {
    var numVertex: int
    var numEdge: int
    var neighborsSet: Adjacency

    /** numVertex counts the vertices, numEdge the distinct unordered pairs,
        and adjacency is symmetric. */
    ghost predicate Valid()
      reads this
    {
      && numVertex == |neighborsSet|
      && Symmetric(neighborsSet)
      && numEdge == |EdgeKeys(neighborsSet)|
      && DegreeSum(neighborsSet) + |Loops(neighborsSet)| == 2 * numEdge
    }

    constructor ()
      ensures Valid()
      ensures neighborsSet == map[] && numVertex == 0 && numEdge == 0
    {
      numVertex := 0;
      numEdge := 0;
      neighborsSet := map[];
      new;
      assert EdgeKeys(neighborsSet) == {};
      assert Loops(neighborsSet) == {};
    }

    /** Adds num with no neighbours unless it is already a vertex. */
    method AddVertex(num: int)
      requires Valid()
      modifies this
      ensures Valid()
      ensures neighborsSet == WithVertex(old(neighborsSet), num)
      ensures numVertex == old(numVertex) + (if num in old(neighborsSet) then 0 else 1)
      ensures numEdge == old(numEdge)
    {
      if num in neighborsSet {
        return;
      }
      WithVertexKeepsCounts(neighborsSet, num);
      neighborsSet := neighborsSet[num := {}];
      numVertex := numVertex + 1;
    }

    /** Adds the edge {from, to} unless it is already there, in either order.
        Both endpoints must already be vertices: the source dereferences both
        neighbour sets. */
    method AddEdge(from: int, to: int)
      requires Valid()
      requires from in neighborsSet && to in neighborsSet
      modifies this
      ensures Valid()
      ensures to in old(neighborsSet[from]) ==> neighborsSet == old(neighborsSet) && numEdge == old(numEdge)
      ensures to !in old(neighborsSet[from]) ==>
                neighborsSet == WithEdge(old(neighborsSet), from, to) && numEdge == old(numEdge) + 1
      ensures numVertex == old(numVertex)
    {
      if to in neighborsSet[from] {
        return;
      }
      WithEdgeKeys(neighborsSet, from, to);
      WithEdgeDegreeSum(neighborsSet, from, to);
      neighborsSet := WithEdge(neighborsSet, from, to);
      numEdge := numEdge + 1;
    }

    function ExportGraph(): Adjacency
      reads this
    {
      neighborsSet
    }
  }
}

/** Newman's modularity of the communities found in a round
    (Solver.calcMod and Solver.calcModIter). Every pair (i, j) of distinct
    vertices in the same community contributes (A_ij - k_i k_j / 2m) / 2m,
    where A, the degrees k and the edge count m are those of the original
    graph: kills change neither neighborsSet nor numEdge. */
module Modularity {
  import opened VertexPairs
  import opened SetSums
  import opened Graphs
  import opened Layering
  import opened Solutions
  import opened Problems
  import opened Communities

  /** The contribution of the ordered pair (i, j): nothing on the diagonal.
      m <= 0 never meets i != j in one community (CommunityHasEdge); the
      guard only keeps the function total. */
  function ModTerm(adj: Adjacency, m: int, i: int, j: int): real
  {
    if i == j || m <= 0 then 0.0
    else
      var a := if i in adj && j in adj[i] then 1.0 else 0.0;
      (a - (Degree(adj, i) * Degree(adj, j)) as real / (2 * m) as real) / (2 * m) as real
  }

  /** The row of node i within community C. */
  ghost function RowMod(adj: Adjacency, m: int, C: set<int>, i: int): real
  {
    SumReal(C, j => ModTerm(adj, m, i, j))
  }

  /** The rows of the members in done, within community C. */
  ghost function RowsMod(adj: Adjacency, m: int, C: set<int>, done: set<int>): real
  {
    SumReal(done, i => RowMod(adj, m, C, i))
  }

  /** The contribution of one community. */
  ghost function CommMod(adj: Adjacency, m: int, C: set<int>): real
  {
    RowsMod(adj, m, C, C)
  }

  /** The contributions of communities 0 .. k-1. */
  ghost function ModUpTo(adj: Adjacency, m: int, cs: map<int, set<int>>, k: nat): real
  {
    if k == 0 then 0.0
    else ModUpTo(adj, m, cs, k - 1) + (if k - 1 in cs then CommMod(adj, m, cs[k - 1]) else 0.0)
  }

  /** The modularity of a numbered set of communities. */
  ghost function Mod(adj: Adjacency, m: int, cs: map<int, set<int>>): real
  {
    ModUpTo(adj, m, cs, |cs|)
  }

  /** Adding one more element to a sum adds its term. */
  lemma SumRealAdd<T>(s: set<T>, f: T -> real, x: T)
    requires x !in s
    ensures SumReal(s + {x}, f) == SumReal(s, f) + f(x)
  {
    SumRealRemove(s + {x}, f, x);
    assert s + {x} - {x} == s;
  }

  /** An adjacent pair has an edge index, so the graph has an edge. */
  lemma AdjacentHasEdge(s: Solution, a: int, b: int)
    requires s.Indexed() && a in s.neighborsSet && b in s.neighborsSet[a]
    ensures s.numEdge > 0
  {
    var k := Pair(a, b);
    assert k in EdgeKeys(s.neighborsSet);
    assert k in s.vertToEdge;
    assert 0 <= s.vertToEdge[k] < s.numEdge;
  }

  /** A live walk between two different vertices uses an edge. */
  lemma ReachHasEdge(s: Solution, cut: set<PairKey>, a: int, b: int)
    requires s.Indexed() && Reaches(s.neighborsSet, cut, a, b) && a != b
    ensures s.numEdge > 0
  {
    var w :| LivePath(s.neighborsSet, cut, w) && w[0] == a && w[|w| - 1] == b;
    assert |w| >= 2;
    assert Linked(s.neighborsSet, cut, w[0], w[1]);
    AdjacentHasEdge(s, w[0], w[1]);
  }

  /** Two different members of one seeded community are vertices of a graph
      with at least one edge: the division in calcModIter is always defined. */
  lemma CommunityHasEdge(s: Solution, cut: set<PairKey>, cs: map<int, set<int>>, seeds: seq<int>,
                         c: int, i: int, j: int)
    requires s.Indexed() && Seeded(s.neighborsSet, cut, cs, seeds)
    requires 0 <= c < |seeds| && i in cs[c] && j in cs[c] && i != j
    ensures i in s.neighborsSet && j in s.neighborsSet && s.numEdge > 0
  {
    if i != seeds[c] {
      ReachHasEdge(s, cut, seeds[c], i);
    } else {
      ReachHasEdge(s, cut, seeds[c], j);
    }
  }

  /** A community of at most one vertex contributes nothing. */
  lemma SingletonMod(adj: Adjacency, m: int, C: set<int>)
    requires |C| <= 1
    ensures CommMod(adj, m, C) == 0.0
  {
    forall i | i in C ensures RowMod(adj, m, C, i) == 0.0 {
      forall j | j in C ensures ModTerm(adj, m, i, j) == 0.0 {
        if i != j {
          assert {i, j} <= C;
          assert |{i, j}| == 2;
          SubsetCardinality({i, j}, C);
        }
      }
      SumRealZero(C, j => ModTerm(adj, m, i, j));
    }
    SumRealZero(C, i => RowMod(adj, m, C, i));
  }

  /** When each of communities 0 .. k-1 has at most one vertex, their
      modularity is 0. */
  lemma {:induction false} SingletonsModZero(adj: Adjacency, m: int, cs: map<int, set<int>>, k: nat)
    requires forall c :: 0 <= c < k && c in cs ==> |cs[c]| <= 1
    ensures ModUpTo(adj, m, cs, k) == 0.0
  {
    if k > 0 {
      SingletonsModZero(adj, m, cs, k - 1);
      if k - 1 in cs {
        SingletonMod(adj, m, cs[k - 1]);
      }
    }
  }

  /** On a graph without edges every community is a single vertex, so the
      modularity is 0 in every round. */
  lemma EdgelessMod(s: Solution, cut: set<PairKey>, cs: map<int, set<int>>, seeds: seq<int>)
    requires s.Indexed() && Seeded(s.neighborsSet, cut, cs, seeds) && s.numEdge == 0
    ensures Mod(s.neighborsSet, s.numEdge, cs) == 0.0
  {
    forall c | 0 <= c < |cs| && c in cs ensures |cs[c]| <= 1 {
      if |cs[c]| > 1 {
        var i :| i in cs[c];
        assert |cs[c] - {i}| == |cs[c]| - 1;
        var j :| j in cs[c] - {i};
        CommunityHasEdge(s, cut, cs, seeds, c, i, j);
      }
    }
    SingletonsModZero(s.neighborsSet, s.numEdge, cs, |cs|);
  }

  /** The term of a pair does not depend on its order. */
  lemma ModTermSymmetric(adj: Adjacency, m: int, i: int, j: int)
    requires Symmetric(adj)
    ensures ModTerm(adj, m, i, j) == ModTerm(adj, m, j, i)
  {
    if i != j && m > 0 {
      assert (i in adj && j in adj[i]) <==> (j in adj && i in adj[j]);
      assert Degree(adj, i) * Degree(adj, j) == Degree(adj, j) * Degree(adj, i);
    }
  }

  /** calcModIter: adds the term of (node1, node2) to the round's modularity.
      The source reads both degrees only when the vertices differ, and then
      divides by 2m. */
  method CalcModIter(node1: int, node2: int, s: Solution, p: Problem)
    requires node1 != node2 ==> node1 in s.neighborsSet && node2 in s.neighborsSet && s.numEdge > 0
    modifies p
    ensures p.mod == old(p.mod) + ModTerm(s.neighborsSet, s.numEdge, node1, node2)
    ensures p.vertCommunity == old(p.vertCommunity) && p.communitiesSet == old(p.communitiesSet)
    ensures p.flowsData == old(p.flowsData) && p.edgesToKill == old(p.edgesToKill)
  {
    if node1 == node2 {
      return;
    }
    var m := s.numEdge;
    var val: real := if s.AreNeighbors(node1, node2) then 1.0 else 0.0;
    var k1 := s.GetNumNeighborsOf(node1).value;
    var k2 := s.GetNumNeighborsOf(node2).value;
    val := val - (k1 * k2) as real / (2.0 * m as real);
    val := val / (2.0 * m as real);
    p.IncMod(val);
  }

  /** The innermost loop of calcMod: the row of node over its community. */
  method AddRow(node: int, comm: set<int>, s: Solution, p: Problem)
    requires forall j :: j in comm && j != node ==> node in s.neighborsSet && j in s.neighborsSet && s.numEdge > 0
    modifies p
    ensures p.mod == old(p.mod) + RowMod(s.neighborsSet, s.numEdge, comm, node)
    ensures p.vertCommunity == old(p.vertCommunity) && p.communitiesSet == old(p.communitiesSet)
    ensures p.flowsData == old(p.flowsData) && p.edgesToKill == old(p.edgesToKill)
  {
    var rest := comm;
    ghost var done: set<int> := {};
    while rest != {}
      invariant rest + done == comm && rest !! done
      invariant p.mod == old(p.mod) + RowMod(s.neighborsSet, s.numEdge, done, node)
      invariant p.vertCommunity == old(p.vertCommunity) && p.communitiesSet == old(p.communitiesSet)
      invariant p.flowsData == old(p.flowsData) && p.edgesToKill == old(p.edgesToKill)
      decreases rest
    {
      ghost var w := Elem(rest);
      var friend :| friend in rest;
      SumRealAdd(done, j => ModTerm(s.neighborsSet, s.numEdge, node, j), friend);
      CalcModIter(node, friend, s, p);
      rest := rest - {friend};
      done := done + {friend};
    }
    assert done == comm;
  }

  /** The middle loop of calcMod: all rows of one community. */
  method AddCommunity(comm: set<int>, s: Solution, p: Problem)
    requires forall i, j :: i in comm && j in comm && i != j ==>
               i in s.neighborsSet && j in s.neighborsSet && s.numEdge > 0
    modifies p
    ensures p.mod == old(p.mod) + CommMod(s.neighborsSet, s.numEdge, comm)
    ensures p.vertCommunity == old(p.vertCommunity) && p.communitiesSet == old(p.communitiesSet)
    ensures p.flowsData == old(p.flowsData) && p.edgesToKill == old(p.edgesToKill)
  {
    var rest := comm;
    ghost var done: set<int> := {};
    while rest != {}
      invariant rest + done == comm && rest !! done
      invariant p.mod == old(p.mod) + RowsMod(s.neighborsSet, s.numEdge, comm, done)
      invariant p.vertCommunity == old(p.vertCommunity) && p.communitiesSet == old(p.communitiesSet)
      invariant p.flowsData == old(p.flowsData) && p.edgesToKill == old(p.edgesToKill)
      decreases rest
    {
      ghost var w := Elem(rest);
      var node :| node in rest;
      SumRealAdd(done, i => RowMod(s.neighborsSet, s.numEdge, comm, i), node);
      AddRow(node, comm, s, p);
      rest := rest - {node};
      done := done + {node};
    }
    assert done == comm;
  }

  /** calcMod: finds the communities of the live graph, then sums the terms
      of every ordered pair of members of each community. The source visits
      the communities in its map's order; the sum does not depend on it, and
      the model takes the ids in increasing order. */
  method CalcMod(s: Solution, p: Problem) returns (ghost seeds: seq<int>)
    requires s.Valid()
    requires p.Valid() && p.communitiesSet == map[] && p.vertCommunity == map[]
    modifies p
    ensures p.Valid() && Seeded(s.neighborsSet, s.severedPairs, p.communitiesSet, seeds)
    ensures p.vertCommunity.Keys == s.neighborsSet.Keys
    ensures forall a, b :: a in s.neighborsSet && b in s.neighborsSet ==>
              (p.vertCommunity[a] == p.vertCommunity[b] <==> Reaches(s.neighborsSet, s.severedPairs, a, b))
    ensures p.mod == old(p.mod) + Mod(s.neighborsSet, s.numEdge, p.communitiesSet)
    ensures p.flowsData == old(p.flowsData) && p.edgesToKill == old(p.edgesToKill)
  {
    seeds := FindCommSet(s, p);
    AddCommunities(s, p, seeds);
  }

  /** calcMod's outer loop, over the community ids in increasing order. */
  method AddCommunities(s: Solution, p: Problem, ghost seeds: seq<int>)
    requires s.Indexed() && p.Valid() && Seeded(s.neighborsSet, s.severedPairs, p.communitiesSet, seeds)
    modifies p
    ensures p.vertCommunity == old(p.vertCommunity) && p.communitiesSet == old(p.communitiesSet)
    ensures p.flowsData == old(p.flowsData) && p.edgesToKill == old(p.edgesToKill)
    ensures p.mod == old(p.mod) + Mod(s.neighborsSet, s.numEdge, p.communitiesSet)
  {
    var c := 0;
    while c < |p.communitiesSet|
      invariant 0 <= c <= |p.communitiesSet|
      invariant p.vertCommunity == old(p.vertCommunity) && p.communitiesSet == old(p.communitiesSet)
      invariant p.flowsData == old(p.flowsData) && p.edgesToKill == old(p.edgesToKill)
      invariant p.mod == old(p.mod) + ModUpTo(s.neighborsSet, s.numEdge, p.communitiesSet, c)
    {
      AddCommunityAt(c, s, p, seeds);
      c := c + 1;
    }
  }

  /** One pass of calcMod's outer loop: community c of the round. */
  method AddCommunityAt(c: int, s: Solution, p: Problem, ghost seeds: seq<int>)
    requires s.Indexed() && Seeded(s.neighborsSet, s.severedPairs, p.communitiesSet, seeds)
    requires 0 <= c < |p.communitiesSet|
    modifies p
    ensures p.vertCommunity == old(p.vertCommunity) && p.communitiesSet == old(p.communitiesSet)
    ensures p.mod == old(p.mod) + CommMod(s.neighborsSet, s.numEdge, p.communitiesSet[c])
    ensures p.flowsData == old(p.flowsData) && p.edgesToKill == old(p.edgesToKill)
  {
    var comm := p.communitiesSet[c];
    forall i, j | i in comm && j in comm && i != j
      ensures i in s.neighborsSet && j in s.neighborsSet && s.numEdge > 0
    {
      CommunityHasEdge(s, s.severedPairs, p.communitiesSet, seeds, c, i, j);
    }
    AddCommunity(comm, s, p);
  }
}

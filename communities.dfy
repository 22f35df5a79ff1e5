/** Communities (girvannewman/Solver.java:154-179): after the kills of a
    round, findCommSet numbers the connected components of the live graph,
    scanning vertices in increasing order and growing a new community by BFS
    from each vertex not yet in one. */
module Communities {
  import opened VertexPairs
  import opened SetSums
  import opened Graphs
  import opened Layering
  import opened Solutions
  import opened Problems
  import opened Edges

  /** a reaches b by a walk over live edges. */
  ghost predicate Reaches(adj: Adjacency, cut: set<PairKey>, a: int, b: int)
  {
    exists w :: LivePath(adj, cut, w) && w[0] == a && w[|w| - 1] == b
  }

  /** The connected component of a in the live graph. */
  ghost function Comp(adj: Adjacency, cut: set<PairKey>, a: int): set<int>
  {
    set y | y in adj && Reaches(adj, cut, a, y)
  }

  /** S holds every live neighbour of its members. */
  ghost predicate LiveClosed(adj: Adjacency, cut: set<PairKey>, S: set<int>)
  {
    forall x, n :: x in S && Linked(adj, cut, x, n) ==> n in S
  }

  lemma LinkedSymmetric(adj: Adjacency, cut: set<PairKey>, a: int, b: int)
    requires WellFormed(adj) && Linked(adj, cut, a, b)
    ensures Linked(adj, cut, b, a)
  {
    assert b in adj;
    assert Pair(a, b) == Pair(b, a);
  }

  lemma ReachSelf(adj: Adjacency, cut: set<PairKey>, a: int)
    ensures Reaches(adj, cut, a, a)
  {
    assert LivePath(adj, cut, [a]);
  }

  lemma ReachStep(adj: Adjacency, cut: set<PairKey>, a: int, b: int, c: int)
    requires Reaches(adj, cut, a, b) && Linked(adj, cut, b, c)
    ensures Reaches(adj, cut, a, c)
  {
    var w :| LivePath(adj, cut, w) && w[0] == a && w[|w| - 1] == b;
    var w' := w + [c];
    assert LivePath(adj, cut, w');
  }

  /** Walks can be followed backwards, live edges being symmetric. */
  lemma ReachReverse(adj: Adjacency, cut: set<PairKey>, a: int, b: int)
    requires WellFormed(adj) && Reaches(adj, cut, a, b)
    ensures Reaches(adj, cut, b, a)
  {
    var w :| LivePath(adj, cut, w) && w[0] == a && w[|w| - 1] == b;
    var r := seq(|w|, i requires 0 <= i < |w| => w[|w| - 1 - i]);
    forall i | 0 <= i < |r| - 1 ensures Linked(adj, cut, r[i], r[i + 1]) {
      var j := |w| - 2 - i;
      assert Linked(adj, cut, w[j], w[j + 1]);
      LinkedSymmetric(adj, cut, w[j], w[j + 1]);
    }
    assert LivePath(adj, cut, r);
  }

  lemma ReachConcat(adj: Adjacency, cut: set<PairKey>, a: int, b: int, c: int)
    requires Reaches(adj, cut, a, b) && Reaches(adj, cut, b, c)
    ensures Reaches(adj, cut, a, c)
  {
    var w1 :| LivePath(adj, cut, w1) && w1[0] == a && w1[|w1| - 1] == b;
    var w2 :| LivePath(adj, cut, w2) && w2[0] == b && w2[|w2| - 1] == c;
    var w := w1 + w2[1..];
    forall i | 0 <= i < |w| - 1 ensures Linked(adj, cut, w[i], w[i + 1]) {
      if i < |w1| - 1 {
        assert w[i] == w1[i] && w[i + 1] == w1[i + 1];
      } else {
        var j := i - |w1| + 1;
        assert w[i] == w2[j] && w[i + 1] == w2[j + 1];
      }
    }
    assert LivePath(adj, cut, w);
  }

  /** A walk that starts in a live-closed set stays in it. */
  lemma {:induction false} ClosedWalk(adj: Adjacency, cut: set<PairKey>, S: set<int>, w: seq<int>)
    requires LiveClosed(adj, cut, S) && LivePath(adj, cut, w) && w[0] in S
    ensures w[|w| - 1] in S
    decreases |w|
  {
    if |w| > 1 {
      var w' := w[..|w| - 1];
      assert LivePath(adj, cut, w');
      ClosedWalk(adj, cut, S, w');
      assert Linked(adj, cut, w'[|w'| - 1], w[|w| - 1]);
    }
  }

  /** A live-closed set holding a holds a's whole component. */
  lemma ClosedReach(adj: Adjacency, cut: set<PairKey>, S: set<int>, a: int, b: int)
    requires LiveClosed(adj, cut, S) && a in S && Reaches(adj, cut, a, b)
    ensures b in S
  {
    var w :| LivePath(adj, cut, w) && w[0] == a && w[|w| - 1] == b;
    ClosedWalk(adj, cut, S, w);
  }

  /** A component is live-closed. */
  lemma CompClosed(adj: Adjacency, cut: set<PairKey>, a: int)
    requires WellFormed(adj)
    ensures LiveClosed(adj, cut, Comp(adj, cut, a))
  {
    forall x, n | x in Comp(adj, cut, a) && Linked(adj, cut, x, n) ensures n in Comp(adj, cut, a) {
      ReachStep(adj, cut, a, x, n);
    }
  }

  /* Termination of the community BFS. A vertex may wait in the queue
     several times, since it is marked visited only when dequeued, so the
     queue can grow without new vertices being visited. Each entry is
     labelled with the number of unvisited vertices when it was pushed;
     dequeuing an entry pushes fewer than b entries, all with smaller
     labels, so the sum of b^label over the queue drops. */

  function Pow(b: nat, k: nat): (r: nat)
    ensures b >= 1 ==> r >= 1
  {
    if k == 0 then 1 else b * Pow(b, k - 1)
  }

  /** n entries labelled u. */
  function Repeat(n: nat, u: nat): (r: seq<nat>)
    ensures |r| == n && forall i :: 0 <= i < n ==> r[i] == u
  {
    if n == 0 then [] else [u] + Repeat(n - 1, u)
  }

  /** The potential of a labelled queue. */
  function Potential(b: nat, labels: seq<nat>): nat
  {
    if |labels| == 0 then 0 else Pow(b, labels[0]) + Potential(b, labels[1..])
  }

  lemma {:induction false} PotentialAppend(b: nat, x: seq<nat>, y: seq<nat>)
    ensures Potential(b, x + y) == Potential(b, x) + Potential(b, y)
    decreases |x|
  {
    if |x| == 0 {
      assert x + y == y;
    } else {
      assert (x + y)[0] == x[0] && (x + y)[1..] == x[1..] + y;
      PotentialAppend(b, x[1..], y);
    }
  }

  lemma {:induction false} PotentialConst(b: nat, n: nat, u: nat)
    ensures Potential(b, Repeat(n, u)) == n * Pow(b, u)
    decreases n
  {
    if n > 0 {
      PotentialConst(b, n - 1, u);
    }
  }

  lemma {:induction false} PowMono(b: nat, k: nat, l: nat)
    requires b >= 1 && k <= l
    ensures Pow(b, k) <= Pow(b, l)
    decreases l
  {
    if k < l {
      PowMono(b, k, l - 1);
      assert Pow(b, l) == b * Pow(b, l - 1) >= Pow(b, l - 1);
    }
  }

  /** Fewer than b entries of a smaller label weigh less than one entry. */
  lemma Outweighs(b: nat, n: nat, u: nat, l: nat)
    requires b >= 1 && n < b && u < l
    ensures n * Pow(b, u) < Pow(b, l)
  {
    PowMono(b, u + 1, l);
    assert Pow(b, u + 1) == b * Pow(b, u);
    assert n * Pow(b, u) < b * Pow(b, u);
  }

  /** Dequeuing an entry labelled above u and pushing n < b entries
      labelled u lowers the potential. */
  lemma PotentialDrops(b: nat, labels: seq<nat>, n: nat, u: nat)
    requires b >= 1 && |labels| > 0 && n < b && u < labels[0]
    ensures Potential(b, labels[1..] + Repeat(n, u)) < Potential(b, labels)
  {
    PotentialAppend(b, labels[1..], Repeat(n, u));
    PotentialConst(b, n, u);
    Outweighs(b, n, u, labels[0]);
  }

  /** The vertices the BFS pushes when it dequeues cur: its live neighbours
      not yet visited. */
  ghost function Fresh(adj: Adjacency, cut: set<PairKey>, cur: int, visited: set<int>): set<int>
    requires cur in adj
  {
    set n | n in adj[cur] && n !in visited && Linked(adj, cut, cur, n)
  }

  /** The neighbour loop of findCommSet: pushes, in set order, every
      neighbour not yet visited whose edge to cur is alive. */
  method PushLive(s: Solution, cur: int, visited: set<int>, queue: seq<int>) returns (q: seq<int>)
    requires s.Indexed() && s.severedPairs == s.DeadPairs() && cur in s.neighborsSet
    ensures |queue| <= |q| && q == queue + q[|queue|..]
    ensures Pushed(q[|queue|..], Fresh(s.neighborsSet, s.severedPairs, cur, visited))
    ensures |q| - |queue| <= |s.neighborsSet[cur]|
  {
    ghost var D := Fresh(s.neighborsSet, s.severedPairs, cur, visited);
    var neighbors := s.GetNeighborsOf(cur).value;
    q := queue;
    var todo := neighbors;
    while todo != {}
      invariant todo <= neighbors && |queue| <= |q| && q == queue + q[|queue|..]
      invariant |q| - |queue| + |todo| <= |neighbors|
      invariant forall i :: |queue| <= i < |q| ==> q[i] in D
      invariant forall n :: n in D ==> n in todo || n in q[|queue|..]
      decreases todo
    {
      ghost var someNeighbor := Elem(todo);
      var n :| n in todo;
      assert Pair(cur, n) in EdgeKeys(s.neighborsSet);
      var edge := s.GetEdgeDataOf(cur, n);
      assert edge == s.edgesData[s.vertToEdge[Pair(cur, n)]];
      if n !in visited && edge.alive {
        assert (q + [n])[|queue|..] == q[|queue|..] + [n];
        q := q + [n];
      }
      todo := todo - {n};
    }
  }

  /** A vertex reached from node, which belongs to no community, belongs to
      none either, communities other than c being live-closed. */
  lemma NotElsewhere(adj: Adjacency, cut: set<PairKey>, cs: map<int, set<int>>, vc: map<int, int>,
                     c: int, node: int, cur: int)
    requires WellFormed(adj)
    requires forall n :: n in vc ==> vc[n] in cs && n in cs[vc[n]]
    requires forall c', n :: c' in cs && n in cs[c'] ==> n in vc && vc[n] == c'
    requires forall c' :: c' in cs && c' != c ==> LiveClosed(adj, cut, cs[c'])
    requires c in cs && cs[c] == {} && node !in vc && Reaches(adj, cut, node, cur)
    ensures cur !in vc
  {
    if cur in vc {
      var c' := vc[cur];
      assert cur in cs[c'] && c' != c;
      ReachReverse(adj, cut, node, cur);
      ClosedReach(adj, cut, cs[c'], cur, node);
    }
  }

  /** The unvisited count after visiting cur. */
  lemma Unvisited(keys: set<int>, visited: set<int>, cur: int) returns (u': nat)
    requires cur in keys
    ensures u' == |keys - (visited + {cur})|
    ensures u' == if cur in visited then |keys - visited| else |keys - visited| - 1
  {
    if cur !in visited {
      assert keys - (visited + {cur}) == (keys - visited) - {cur};
    } else {
      assert keys - (visited + {cur}) == keys - visited;
    }
    u' := |keys - (visited + {cur})|;
  }

  /** A closed visited set holding node is node's component. */
  lemma GrownComp(adj: Adjacency, cut: set<PairKey>, node: int, visited: set<int>)
    requires visited <= adj.Keys && node in visited
    requires forall y :: y in visited ==> Reaches(adj, cut, node, y)
    requires LiveClosed(adj, cut, visited)
    ensures visited == Comp(adj, cut, node)
  {
    forall y | y in Comp(adj, cut, node) ensures y in visited {
      ClosedReach(adj, cut, visited, node, y);
    }
  }

  /** The BFS state from node: everything visited or queued is reached
      from node, every live neighbour of a visited vertex is visited or
      queued, and node is visited or first in line. */
  ghost predicate Grown(adj: Adjacency, cut: set<PairKey>, node: int, visited: set<int>, queue: seq<int>)
  {
    && visited <= adj.Keys
    && (forall i :: 0 <= i < |queue| ==> queue[i] in adj)
    && (forall y :: y in visited ==> Reaches(adj, cut, node, y))
    && (forall i :: 0 <= i < |queue| ==> Reaches(adj, cut, node, queue[i]))
    && (forall x, n :: x in visited && Linked(adj, cut, x, n) ==> n in visited || n in queue)
    && (node in visited || (|queue| > 0 && queue[0] == node))
  }

  /** Each queue entry carries a label no smaller than the unvisited count
      u, and larger when its vertex has been visited since. */
  ghost predicate Labelled(visited: set<int>, queue: seq<int>, labels: seq<nat>, u: nat)
  {
    && |labels| == |queue|
    && forall i :: 0 <= i < |queue| ==>
         (queue[i] !in visited ==> labels[i] >= u) && (queue[i] in visited ==> labels[i] > u)
  }

  lemma GrownStart(adj: Adjacency, cut: set<PairKey>, node: int)
    requires node in adj
    ensures Grown(adj, cut, node, {}, [node])
  {
    ReachSelf(adj, cut, node);
  }

  /** Dequeuing cur, visiting it and queueing its fresh live neighbours
      keeps the BFS state. */
  lemma GrownStep(adj: Adjacency, cut: set<PairKey>, node: int, visited: set<int>, queue: seq<int>, t: seq<int>)
    requires WellFormed(adj) && Grown(adj, cut, node, visited, queue) && |queue| > 0
    requires Pushed(t, Fresh(adj, cut, queue[0], visited + {queue[0]}))
    ensures Grown(adj, cut, node, visited + {queue[0]}, queue[1..] + t)
  {
    var cur := queue[0];
    var q := queue[1..] + t;
    forall i | 0 <= i < |q| ensures q[i] in adj && Reaches(adj, cut, node, q[i]) {
      if i < |queue| - 1 {
        assert q[i] == queue[i + 1];
      } else {
        assert q[i] == t[i - |queue| + 1];
        assert Linked(adj, cut, cur, q[i]);
        ReachStep(adj, cut, node, cur, q[i]);
      }
    }
    forall x, n | x in visited + {cur} && Linked(adj, cut, x, n) ensures n in visited + {cur} || n in q {
      if n !in visited + {cur} {
        if x == cur {
          assert n in Fresh(adj, cut, cur, visited + {cur});
        } else {
          assert n in queue && n != queue[0];
          var i :| 0 <= i < |queue| && queue[i] == n;
          assert q[i - 1] == n;
        }
      }
    }
  }

  /** The labels after the step, pushed entries labelled u'. */
  lemma LabelStep(visited: set<int>, queue: seq<int>, labels: seq<nat>, u: nat, u': nat, t: seq<int>, b: nat)
      returns (l: seq<nat>)
    requires Labelled(visited, queue, labels, u) && |queue| > 0
    requires u' == if queue[0] in visited then u else u - 1
    requires forall i :: 0 <= i < |t| ==> t[i] !in visited + {queue[0]}
    requires 1 <= b && |t| < b
    ensures Labelled(visited + {queue[0]}, queue[1..] + t, l, u')
    ensures Potential(b, l) < Potential(b, labels)
  {
    var q := queue[1..] + t;
    l := labels[1..] + Repeat(|t|, u');
    PotentialDrops(b, labels, |t|, u');
    forall i | 0 <= i < |q|
      ensures (q[i] !in visited + {queue[0]} ==> l[i] >= u') && (q[i] in visited + {queue[0]} ==> l[i] > u')
    {
      if i < |queue| - 1 {
        assert q[i] == queue[i + 1] && l[i] == labels[i + 1];
      } else {
        assert q[i] == t[i - |queue| + 1] && l[i] == u';
      }
    }
  }

  /** The communities before the BFS into c: vc is their membership
      relation, c is new and empty, every other one is live-closed, and
      node belongs to none. */
  ghost predicate Before(adj: Adjacency, cut: set<PairKey>, cs0: map<int, set<int>>, vc0: map<int, int>,
                         c: int, node: int)
  {
    && (forall n :: n in vc0 ==> vc0[n] in cs0 && n in cs0[vc0[n]])
    && (forall c', n :: c' in cs0 && n in cs0[c'] ==> n in vc0 && vc0[n] == c')
    && (forall c' :: c' in cs0 && c' != c ==> LiveClosed(adj, cut, cs0[c']))
    && c in cs0 && cs0[c] == {} && node !in vc0
  }

  /** The Problem once the vertices of visited are filed in c. */
  ghost predicate Filed(p: Problem, cs0: map<int, set<int>>, vc0: map<int, int>, c: int, visited: set<int>)
    reads p
  {
    && p.Valid() && p.communitiesSet == cs0[c := visited]
    && p.vertCommunity == vc0 + map y | y in visited :: c
  }

  /** A vertex has fewer neighbours than the graph has vertices plus one. */
  lemma DegreeBound(adj: Adjacency, v: int)
    requires WellFormed(adj) && v in adj
    ensures |adj[v]| < |adj.Keys| + 1
  {
    forall b | b in adj[v] ensures b in adj.Keys {
      assert b in adj;
    }
    SubsetCardinality(adj[v], adj.Keys);
  }

  /** Filing cur in c: it is in no other community. */
  method FileInto(p: Problem, c: int, cur: int, visited: set<int>, ghost cs0: map<int, set<int>>,
                  ghost vc0: map<int, int>)
    requires Filed(p, cs0, vc0, c, visited) && c in cs0 && cur !in vc0
    modifies p
    ensures Filed(p, cs0, vc0, c, visited + {cur})
    ensures p.mod == old(p.mod) && p.flowsData == old(p.flowsData) && p.edgesToKill == old(p.edgesToKill)
  {
    p.PutInComm(c, cur);
    assert p.vertCommunity == vc0 + map y | y in visited + {cur} :: c;
  }

  /** One round of the community BFS: dequeue, visit, file in c, queue
      the fresh live neighbours. */
  method VisitInto(s: Solution, p: Problem, node: int, c: int, visited: set<int>, queue: seq<int>,
                   ghost cs0: map<int, set<int>>, ghost vc0: map<int, int>)
    returns (visited': set<int>, queue': seq<int>)
    requires s.Indexed() && s.severedPairs == s.DeadPairs() && WellFormed(s.neighborsSet)
    requires Grown(s.neighborsSet, s.severedPairs, node, visited, queue) && |queue| > 0
    requires Before(s.neighborsSet, s.severedPairs, cs0, vc0, c, node)
    requires Filed(p, cs0, vc0, c, visited)
    modifies p
    ensures visited' == visited + {queue[0]} && |queue| - 1 <= |queue'| && queue' == queue[1..] + queue'[|queue| - 1..]
    ensures |queue'| - |queue| + 1 <= |s.neighborsSet[queue[0]]|
    ensures forall i :: |queue| - 1 <= i < |queue'| ==> queue'[i] !in visited'
    ensures Grown(s.neighborsSet, s.severedPairs, node, visited', queue')
    ensures Filed(p, cs0, vc0, c, visited')
    ensures p.mod == old(p.mod) && p.flowsData == old(p.flowsData) && p.edgesToKill == old(p.edgesToKill)
  {
    var cur := queue[0];
    NotElsewhere(s.neighborsSet, s.severedPairs, cs0, vc0, c, node, cur);
    visited' := visited + {cur};
    FileInto(p, c, cur, visited, cs0, vc0);
    queue' := PushLive(s, cur, visited', queue[1..]);
    GrownStep(s.neighborsSet, s.severedPairs, node, visited, queue, queue'[|queue| - 1..]);
  }

  /** One round of the community BFS with its termination bookkeeping:
      the labelled queue's potential drops. */
  method GrowStep(s: Solution, p: Problem, node: int, c: int, visited: set<int>, queue: seq<int>,
                  ghost labels: seq<nat>, ghost u: nat, ghost cs0: map<int, set<int>>, ghost vc0: map<int, int>)
    returns (visited': set<int>, queue': seq<int>, ghost labels': seq<nat>, ghost u': nat)
    requires s.Indexed() && s.severedPairs == s.DeadPairs() && WellFormed(s.neighborsSet)
    requires Grown(s.neighborsSet, s.severedPairs, node, visited, queue) && |queue| > 0
    requires u == |s.neighborsSet.Keys - visited| && Labelled(visited, queue, labels, u)
    requires Before(s.neighborsSet, s.severedPairs, cs0, vc0, c, node)
    requires Filed(p, cs0, vc0, c, visited)
    modifies p
    ensures Grown(s.neighborsSet, s.severedPairs, node, visited', queue')
    ensures u' == |s.neighborsSet.Keys - visited'| && Labelled(visited', queue', labels', u')
    ensures Potential(|s.neighborsSet.Keys| + 1, labels') < Potential(|s.neighborsSet.Keys| + 1, labels)
    ensures Filed(p, cs0, vc0, c, visited')
    ensures p.mod == old(p.mod) && p.flowsData == old(p.flowsData) && p.edgesToKill == old(p.edgesToKill)
  {
    ghost var adj := s.neighborsSet;
    u' := Unvisited(adj.Keys, visited, queue[0]);
    DegreeBound(adj, queue[0]);
    visited', queue' := VisitInto(s, p, node, c, visited, queue, cs0, vc0);
    labels' := LabelStep(visited, queue, labels, u, u', queue'[|queue| - 1..], |adj.Keys| + 1);
  }

  /** The BFS of findCommSet from node into the new, empty community c:
      each dequeued vertex is visited and put in c, and its live unvisited
      neighbours are queued. c ends as node's component of the live graph. */
  method GrowCommunity(s: Solution, p: Problem, node: int, c: int)
    requires s.Indexed() && s.severedPairs == s.DeadPairs()
    requires p.Valid() && c in p.communitiesSet && p.communitiesSet[c] == {}
    requires node in s.neighborsSet && node !in p.vertCommunity
    requires forall c' :: c' in p.communitiesSet && c' != c ==>
               LiveClosed(s.neighborsSet, s.severedPairs, p.communitiesSet[c'])
    modifies p
    ensures p.Valid()
    ensures p.communitiesSet == old(p.communitiesSet)[c := Comp(s.neighborsSet, s.severedPairs, node)]
    ensures p.vertCommunity == old(p.vertCommunity) + map y | y in Comp(s.neighborsSet, s.severedPairs, node) :: c
    ensures p.mod == old(p.mod) && p.flowsData == old(p.flowsData) && p.edgesToKill == old(p.edgesToKill)
  {
    ghost var adj, cut := s.neighborsSet, s.severedPairs;
    ghost var cs0, vc0 := p.communitiesSet, p.vertCommunity;
    ghost var b: nat := |adj.Keys| + 1;
    var visited: set<int> := {};
    var queue := [node];
    ghost var labels: seq<nat> := [|adj.Keys|];
    ghost var u: nat := |adj.Keys|;
    GrownStart(adj, cut, node);
    assert WellFormed(adj);
    assert vc0 + (map y | y in visited :: c) == vc0;
    assert Before(adj, cut, cs0, vc0, c, node);
    while |queue| > 0
      invariant Grown(adj, cut, node, visited, queue)
      invariant u == |adj.Keys - visited| && Labelled(visited, queue, labels, u)
      invariant Filed(p, cs0, vc0, c, visited)
      invariant p.mod == old(p.mod) && p.flowsData == old(p.flowsData) && p.edgesToKill == old(p.edgesToKill)
      decreases Potential(b, labels)
    {
      visited, queue, labels, u := GrowStep(s, p, node, c, visited, queue, labels, u, cs0, vc0);
    }
    GrownComp(adj, cut, node, visited);
  }

  /** Communities 0 .. |seeds|-1 are the components of their seeds, in
      increasing order of seed, each seed the smallest vertex of its
      component. */
  ghost predicate Seeded(adj: Adjacency, cut: set<PairKey>, cs: map<int, set<int>>, seeds: seq<int>)
  {
    && |seeds| == |cs|
    && (forall c :: 0 <= c < |seeds| ==>
          && c in cs && seeds[c] in adj && cs[c] == Comp(adj, cut, seeds[c])
          && forall y :: y in cs[c] ==> seeds[c] <= y)
    && (forall i, j :: 0 <= i < j < |seeds| ==> seeds[i] < seeds[j])
  }

  /** Every vertex of a component holding no smaller-numbered vertex of an
      existing community is no smaller than its seed. */
  lemma SeedIsLeast(adj: Adjacency, cut: set<PairKey>, cs: map<int, set<int>>, vc: map<int, int>,
                    node: int, y: int)
    requires WellFormed(adj)
    requires forall n :: n in vc ==> vc[n] in cs && n in cs[vc[n]]
    requires forall c', n :: c' in cs && n in cs[c'] ==> n in vc && vc[n] == c'
    requires forall c' :: c' in cs ==> LiveClosed(adj, cut, cs[c'])
    requires forall v :: 0 <= v < node ==> v in vc
    requires node !in vc && y >= 0 && Reaches(adj, cut, node, y)
    ensures node <= y
  {
    if y < node {
      var c' := vc[y];
      assert y in cs[c'];
      ReachReverse(adj, cut, node, y);
      ClosedReach(adj, cut, cs[c'], y, node);
    }
  }

  /** A seeded set of communities is live-closed. */
  lemma SeededClosed(adj: Adjacency, cut: set<PairKey>, cs: map<int, set<int>>, seeds: seq<int>)
    requires WellFormed(adj) && Seeded(adj, cut, cs, seeds)
    requires forall c :: c in cs <==> 0 <= c < |cs|
    ensures forall c :: c in cs ==> LiveClosed(adj, cut, cs[c])
  {
    forall c | c in cs ensures LiveClosed(adj, cut, cs[c]) {
      CompClosed(adj, cut, seeds[c]);
    }
  }

  /** The body of findCommSet's scan for a vertex in no community yet:
      open community |cs| and grow it from node. */
  method NewCommunity(s: Solution, p: Problem, node: int, ghost seeds: seq<int>) returns (ghost seeds': seq<int>)
    requires s.Indexed() && s.severedPairs == s.DeadPairs() && WellFormed(s.neighborsSet)
    requires p.Valid() && Seeded(s.neighborsSet, s.severedPairs, p.communitiesSet, seeds)
    requires node in s.neighborsSet && node !in p.vertCommunity
    requires forall v :: 0 <= v < node ==> v in p.vertCommunity
    requires forall i :: 0 <= i < |seeds| ==> seeds[i] < node
    modifies p
    ensures p.Valid() && Seeded(s.neighborsSet, s.severedPairs, p.communitiesSet, seeds')
    ensures seeds' == seeds + [node] && node in p.vertCommunity
    ensures forall v :: v in old(p.vertCommunity) ==> v in p.vertCommunity
    ensures p.mod == old(p.mod) && p.flowsData == old(p.flowsData) && p.edgesToKill == old(p.edgesToKill)
  {
    ghost var adj, cut := s.neighborsSet, s.severedPairs;
    ghost var cs0, vc0 := p.communitiesSet, p.vertCommunity;
    assert SeedReady(adj, cut, cs0, vc0, seeds, node);
    SeedNext(adj, cut, cs0, vc0, seeds, node);
    var c := p.InitNewComm();
    GrowCommunity(s, p, node, c);
    seeds' := seeds + [node];
  }

  /** What the scan knows before growing a new community from node. */
  ghost predicate SeedReady(adj: Adjacency, cut: set<PairKey>, cs: map<int, set<int>>, vc: map<int, int>,
                            seeds: seq<int>, node: int)
  {
    && WellFormed(adj) && Seeded(adj, cut, cs, seeds)
    && (forall c :: c in cs <==> 0 <= c < |cs|)
    && (forall n :: n in vc ==> vc[n] in cs && n in cs[vc[n]])
    && (forall c', n :: c' in cs && n in cs[c'] ==> n in vc && vc[n] == c')
    && node in adj && node !in vc
    && (forall v :: 0 <= v < node ==> v in vc)
    && (forall i :: 0 <= i < |seeds| ==> seeds[i] < node)
  }

  /** Adding the component of node as community |cs| keeps the communities
      seeded. */
  lemma SeedNext(adj: Adjacency, cut: set<PairKey>, cs: map<int, set<int>>, vc: map<int, int>,
                 seeds: seq<int>, node: int)
    requires SeedReady(adj, cut, cs, vc, seeds, node)
    ensures Seeded(adj, cut, cs[|cs| := {}][|cs| := Comp(adj, cut, node)], seeds + [node])
    ensures node in Comp(adj, cut, node)
    ensures forall c :: c in cs ==> LiveClosed(adj, cut, cs[c])
  {
    ReachSelf(adj, cut, node);
    SeededClosed(adj, cut, cs, seeds);
    forall y | y in Comp(adj, cut, node) ensures node <= y {
      SeedIsLeast(adj, cut, cs, vc, node, y);
    }
    SeededGrow(adj, cut, cs, seeds, node);
    assert cs[|cs| := {}][|cs| := Comp(adj, cut, node)] == cs[|cs| := Comp(adj, cut, node)];
  }

  /** Opening community |cs| as the component of a vertex above every seed
      and below every vertex of its component keeps the communities seeded. */
  lemma SeededGrow(adj: Adjacency, cut: set<PairKey>, cs: map<int, set<int>>, seeds: seq<int>, node: int)
    requires Seeded(adj, cut, cs, seeds) && node in adj
    requires forall c :: c in cs <==> 0 <= c < |cs|
    requires forall i :: 0 <= i < |seeds| ==> seeds[i] < node
    requires forall y :: y in Comp(adj, cut, node) ==> node <= y
    ensures Seeded(adj, cut, cs[|cs| := Comp(adj, cut, node)], seeds + [node])
    ensures node in Comp(adj, cut, node)
  {
    ReachSelf(adj, cut, node);
    var cs', seeds' := cs[|cs| := Comp(adj, cut, node)], seeds + [node];
    assert |cs'| == |cs| + 1 by {
      assert |cs| !in cs;
      assert cs'.Keys == cs.Keys + {|cs|};
    }
  }

  /** One step of findCommSet's scan: a vertex already in a community is
      skipped, any other seeds a new community. */
  method ScanVertex(s: Solution, p: Problem, node: int, ghost seeds: seq<int>) returns (ghost seeds': seq<int>)
    requires s.Indexed() && s.severedPairs == s.DeadPairs() && WellFormed(s.neighborsSet)
    requires p.Valid() && Seeded(s.neighborsSet, s.severedPairs, p.communitiesSet, seeds)
    requires node in s.neighborsSet
    requires forall v :: 0 <= v < node ==> v in p.vertCommunity
    requires forall i :: 0 <= i < |seeds| ==> seeds[i] < node
    modifies p
    ensures p.Valid() && Seeded(s.neighborsSet, s.severedPairs, p.communitiesSet, seeds')
    ensures forall v :: 0 <= v <= node ==> v in p.vertCommunity
    ensures forall i :: 0 <= i < |seeds'| ==> seeds'[i] <= node
    ensures p.mod == old(p.mod) && p.flowsData == old(p.flowsData) && p.edgesToKill == old(p.edgesToKill)
  {
    if !p.IsInComm(node) {
      seeds' := NewCommunity(s, p, node, seeds);
    } else {
      seeds' := seeds;
    }
  }

  /** findCommSet: scanning the vertices in increasing order, each vertex
      not yet in a community seeds a new one, grown by BFS over the live
      edges. Afterwards every vertex is in exactly one community, two
      vertices share one exactly when a live walk joins them, and the
      communities are numbered by their smallest vertex. */
  method FindCommSet(s: Solution, p: Problem) returns (ghost seeds: seq<int>)
    requires s.Valid()
    requires p.Valid() && p.communitiesSet == map[] && p.vertCommunity == map[]
    modifies p
    ensures p.Valid() && Seeded(s.neighborsSet, s.severedPairs, p.communitiesSet, seeds)
    ensures p.vertCommunity.Keys == s.neighborsSet.Keys
    ensures forall a, b :: a in s.neighborsSet && b in s.neighborsSet ==>
              (p.vertCommunity[a] == p.vertCommunity[b] <==> Reaches(s.neighborsSet, s.severedPairs, a, b))
    ensures p.mod == old(p.mod) && p.flowsData == old(p.flowsData) && p.edgesToKill == old(p.edgesToKill)
  {
    ghost var adj, cut := s.neighborsSet, s.severedPairs;
    assert WellFormed(adj);
    seeds := [];
    var node := 0;
    while node < s.numVert
      invariant 0 <= node && (node <= s.numVert || node == 0)
      invariant s.Indexed() && s.severedPairs == s.DeadPairs()
      invariant p.Valid() && Seeded(adj, cut, p.communitiesSet, seeds)
      invariant forall v :: 0 <= v < node ==> v in p.vertCommunity
      invariant forall i :: 0 <= i < |seeds| ==> seeds[i] < node
      invariant p.mod == old(p.mod) && p.flowsData == old(p.flowsData) && p.edgesToKill == old(p.edgesToKill)
    {
      seeds := ScanVertex(s, p, node, seeds);
      node := node + 1;
    }
    Partition(adj, cut, p.communitiesSet, p.vertCommunity, seeds, s.numVert);
  }

  /** The communities left by the scan partition the vertices into the
      components of the live graph. */
  lemma Partition(adj: Adjacency, cut: set<PairKey>, cs: map<int, set<int>>, vc: map<int, int>,
                  seeds: seq<int>, n: int)
    requires WellFormed(adj) && Seeded(adj, cut, cs, seeds)
    requires forall c :: c in cs <==> 0 <= c < |cs|
    requires forall v :: v in vc ==> vc[v] in cs && v in cs[vc[v]]
    requires forall c, v :: c in cs && v in cs[c] ==> v in vc && vc[v] == c
    requires forall v :: v in adj <==> 0 <= v < n
    requires forall v :: 0 <= v < n ==> v in vc
    ensures vc.Keys == adj.Keys
    ensures forall a, b :: a in adj && b in adj ==> (vc[a] == vc[b] <==> Reaches(adj, cut, a, b))
  {
    SeededClosed(adj, cut, cs, seeds);
    forall v | v in vc ensures v in adj {
      var c := vc[v];
      assert v in cs[c] && 0 <= c < |seeds|;
    }
    forall v | v in adj ensures v in vc {
      assert 0 <= v < n;
    }
    forall a, b | a in adj && b in adj ensures vc[a] == vc[b] <==> Reaches(adj, cut, a, b) {
      var ca := vc[a];
      assert a in cs[ca];
      if vc[a] == vc[b] {
        assert b in cs[ca];
        ReachReverse(adj, cut, seeds[ca], a);
        ReachConcat(adj, cut, a, seeds[ca], b);
      }
      if Reaches(adj, cut, a, b) {
        ClosedReach(adj, cut, cs[ca], a, b);
      }
    }
  }
}

/** Edge betweenness (girvannewman/Solver.java:52-127): from every source a
    BFS over the live edges builds the layering, a pass over the BFS stack in
    reverse hands each vertex's flow to its upstream vertices and credits the
    connecting edge, and the edges of highest betweenness are selected. */
module Betweenness {
  import opened VertexPairs
  import opened SetSums
  import opened Graphs
  import opened Flows
  import opened Layering
  import opened Solutions
  import opened Problems
  import opened Credits

  /** The graph of an indexed Solution is one the BFS runs on, and every
      live link has an edge index. */
  lemma IndexedGraph(s: Solution)
    requires s.Indexed()
    ensures WellFormed(s.neighborsSet)
    ensures forall u, x :: Linked(s.neighborsSet, s.severedPairs, u, x) ==> Pair(x, u) in s.vertToEdge
  {
    forall u, x | Linked(s.neighborsSet, s.severedPairs, u, x) ensures Pair(x, u) in s.vertToEdge {
      assert Pair(u, x) in EdgeKeys(s.neighborsSet);
    }
  }

  /** What the loop body needs to know of the vertex it expands. */
  lemma StepFacts(adj: Adjacency, cut: set<PairKey>, src: int, F: FlowTable,
                  queue: seq<int>, visited: set<int>, v: int)
    requires WellFormed(adj) && Records(adj, src, F) && Covered(F, queue, visited)
    requires Links(adj, cut, F, visited)
    requires |queue| > 0 && queue[0] == v && v !in visited
    ensures v in adj && v in F && F[v].level >= 0 && F[v].downstream == {}
    ensures forall n :: n in adj[v] ==> n >= 0 && n != v
    ensures v !in visited && v in adj.Keys - visited
  {
    assert queue[0] in F;
    forall n | n in adj[v] ensures n >= 0 && n != v {
      assert n in adj;
    }
  }

  /** Appends the vertices of a set to the queue, in set order. */
  method PushAll(queue: seq<int>, ds: set<int>) returns (q: seq<int>)
    ensures |queue| <= |q| && q == queue + q[|queue|..]
    ensures Pushed(q[|queue|..], ds)
  {
    q := queue;
    var todo := ds;
    while todo != {}
      invariant todo <= ds && |queue| <= |q| && q == queue + q[|queue|..]
      invariant forall i :: |queue| <= i < |q| ==> q[i] in ds
      invariant forall d :: d in ds ==> d in todo || d in q[|queue|..]
      decreases todo
    {
      ghost var someDown := Elem(todo);
      var d :| d in todo;
      assert (q + [d])[|queue|..] == q[|queue|..] + [d];
      q := q + [d];
      todo := todo - {d};
    }
  }

  /** Expanding one vertex adds it to the expanded ones. */
  lemma Shrinks(keys: set<int>, visited: set<int>, v: int)
    requires v in keys - visited
    ensures |keys - (visited + {v})| < |keys - visited|
  {
    assert keys - (visited + {v}) == (keys - visited) - {v};
  }

  /** One expansion in the BFS loop: populateDownstream and updateDownstream
      on v, then every downstream vertex of v joins the queue. */
  method Visit(s: Solution, flows: FlowTable, v: int, queue: seq<int>) returns (f: FlowTable, q: seq<int>)
    requires WellFormed(s.neighborsSet) && v in s.neighborsSet && v in flows
    requires flows[v].level >= 0 && flows[v].downstream == {}
    ensures f == Expand(s.neighborsSet, s.severedPairs, flows, v)
    ensures |queue| <= |q| && q == queue + q[|queue|..]
    ensures Pushed(q[|queue|..], NewDown(s.neighborsSet, s.severedPairs, flows, v))
  {
    var neighbors := s.GetNeighborsOf(v).value;
    assert forall n :: n in neighbors ==> n in s.neighborsSet;
    var f1 := PopulateDownstream(flows, v, neighbors, s.severedPairs);
    f := UpdateDownstream(f1, v);
    ExpandEffect(s.neighborsSet, s.severedPairs, flows, v, f1, f);
    ExpandShape(s.neighborsSet, s.severedPairs, flows, v);
    q := PushAll(queue, f[v].downstream);
  }

  /** The BFS half of incFlowAndBetwViaBFS: from src over the live edges,
      expanding each dequeued vertex once and pushing it on the stack. The
      table left is the complete layering of the vertices reachable from
      src, the stack holding each of them once in level order. */
  method ForwardPass(src: int, s: Solution) returns (flows: FlowTable, stack: seq<int>)
    requires WellFormed(s.neighborsSet) && src in s.neighborsSet
    ensures Layered(s.neighborsSet, s.severedPairs, src, flows, stack)
  {
    ghost var adj := s.neighborsSet;
    ghost var cut := s.severedPairs;
    flows := map[src := NewFlowData(src, 1).(pathCount := 1)];
    var queue := [src];
    var visited: set<int> := {};
    stack := [];
    StartInv(adj, cut, src);
    while |queue| > 0
      invariant BfsInv(adj, cut, src, flows, queue, visited, stack)
      decreases |adj.Keys - visited|, |queue|
    {
      var v := queue[0];
      if v in visited {
        SkipInv(adj, cut, src, flows, queue, visited, stack);
        queue := queue[1..];
        continue;
      }
      assert Step(adj, cut, src, flows, queue, visited, stack, v);
      StepFacts(adj, cut, src, flows, queue, visited, v);
      ghost var q0, visited0, stack0 := queue, visited, stack;
      queue := queue[1..];
      visited := visited + {v};
      stack := stack + [v];
      var f, newQueue := Visit(s, flows, v, queue);
      ExpandInv(adj, cut, src, flows, q0, visited0, stack0, v, newQueue[|queue|..]);
      Shrinks(adj.Keys, visited0, v);
      flows := f;
      queue := newQueue;
    }
    DoneLayered(adj, cut, src, flows, visited, stack);
  }

  /** A finished layering is what the reverse pass expects. */
  lemma LayeredDag(adj: Adjacency, cut: set<PairKey>, src: int, F0: FlowTable, stack: seq<int>)
    requires Layered(adj, cut, src, F0, stack)
    ensures Dag(F0, stack)
    ensures forall x, u :: x in F0 && u in F0[x].upstream ==> Linked(adj, cut, u, x)
  {
    forall x, d | x in F0 && d in F0[x].downstream
      ensures d in F0 && x in F0[d].upstream && F0[d].level == F0[x].level + 1
    {
      assert d in Down(adj, cut, F0, x);
      assert x in Up(adj, cut, F0, F0.Keys, d);
    }
    forall x, u | x in F0 && u in F0[x].upstream
      ensures u in F0 && x in F0[u].downstream && F0[u].level + 1 == F0[x].level && Linked(adj, cut, u, x)
    {
      assert u in Up(adj, cut, F0, F0.Keys, x);
      assert x in Down(adj, cut, F0, u);
    }
  }

  /** The numbering of the edges of a Solution, both ways: pair to index
      and index to pair. */
  lemma EdgeNumbering(s: Solution) returns (pairOf: seq<PairKey>)
    requires s.Indexed()
    ensures |pairOf| == s.numEdge
    ensures forall e :: 0 <= e < s.numEdge ==> pairOf[e] in s.vertToEdge && s.vertToEdge[pairOf[e]] == e
    ensures forall q :: q in s.vertToEdge ==> 0 <= s.vertToEdge[q] < s.numEdge && pairOf[s.vertToEdge[q]] == q
    ensures forall q :: q in s.vertToEdge ==> q.lo <= q.hi
    ensures s.vertToEdge.Keys == EdgeKeys(s.neighborsSet)
  {
    var ds := s.edgesData[..];
    pairOf := seq(s.numEdge, e => if 0 <= e < |ds| && ds[e] != null then Key(ds[e].endpoints) else PairKey(0, 0));
  }

  /** One pair of CreditEdges' loop: its increment goes to its edge. */
  method CreditNext(s: Solution, p: Problem, betwInc: map<PairKey, real>, todo: set<PairKey>,
                    ghost pairOf: seq<PairKey>, ghost B0: seq<real>)
    returns (todo': set<PairKey>)
    requires s.Indexed() && p.betw.Length == s.numEdge == |pairOf| == |B0|
    requires forall e :: 0 <= e < s.numEdge ==> pairOf[e] in s.vertToEdge && s.vertToEdge[pairOf[e]] == e
    requires forall q :: q in s.vertToEdge ==> 0 <= s.vertToEdge[q] < s.numEdge && pairOf[s.vertToEdge[q]] == q
    requires betwInc.Keys <= s.vertToEdge.Keys
    requires forall q :: q in betwInc ==> betwInc[q] >= 0.0
    requires todo != {} && todo <= betwInc.Keys
    requires forall e :: 0 <= e < p.betw.Length ==>
               p.betw[e] == B0[e] + (if pairOf[e] in betwInc && pairOf[e] !in todo then betwInc[pairOf[e]] else 0.0)
    modifies p.betw
    ensures todo' < todo
    ensures forall e :: 0 <= e < p.betw.Length ==>
              p.betw[e] == B0[e] + (if pairOf[e] in betwInc && pairOf[e] !in todo' then betwInc[pairOf[e]] else 0.0)
  {
    ghost var somePair := Elem(todo);
    var vp :| vp in todo;
    var edge := s.GetEdge(VertexPair(vp.lo, vp.hi));
    assert edge == s.vertToEdge[vp] && pairOf[edge] == vp;
    p.IncBetw(edge, betwInc[vp]);
    todo' := todo - {vp};
  }

  /** The inner loop of the reverse pass: each pair of the map gets its
      increment added to the betweenness of its edge. */
  method CreditEdges(s: Solution, p: Problem, betwInc: map<PairKey, real>)
    requires s.Indexed() && p.betw.Length == s.numEdge
    requires betwInc.Keys <= s.vertToEdge.Keys
    requires forall q :: q in betwInc ==> betwInc[q] >= 0.0
    modifies p.betw
    ensures forall q :: q in s.vertToEdge ==>
              p.betw[s.vertToEdge[q]] == old(p.betw[s.vertToEdge[q]]) + (if q in betwInc then betwInc[q] else 0.0)
  {
    ghost var pairOf := EdgeNumbering(s);
    ghost var B0 := p.betw[..];
    var todo := betwInc.Keys;
    while todo != {}
      invariant todo <= betwInc.Keys
      invariant forall e :: 0 <= e < p.betw.Length ==>
                  p.betw[e] == B0[e] + (if pairOf[e] in betwInc && pairOf[e] !in todo then betwInc[pairOf[e]] else 0.0)
      decreases todo
    {
      todo := CreditNext(s, p, betwInc, todo, pairOf, B0);
    }
  }

  /** The reverse half of incFlowAndBetwViaBFS: pops the BFS stack; each
      popped vertex hands its flow upstream and every pair it hands flow
      across is credited on its edge. When the stack is empty every vertex
      holds its own unit plus what its downstream vertices handed it, and
      each edge has gained the share handed across it. */
  /** One pop of the stack (Solver.java:118-125): hand x's flow upstream and credit the edges. */
  method PopVertex(s: Solution, p: Problem, stack: seq<int>, ghost F0: FlowTable, ghost P: set<int>,
                   k: int, x: int, ghost B: seq<real>)
    requires s.Indexed() && p.betw.Length == s.numEdge && |B| == s.numEdge
    requires Dag(F0, stack) && PoppedAt(stack, P, k) && k >= 1 && x == stack[k - 1]
    requires Shape(F0, p.flowsData) && Balanced(F0, p.flowsData, P)
    requires forall u :: u in F0[x].upstream ==> Pair(x, u) in s.vertToEdge
    requires forall q :: q in s.vertToEdge ==>
               p.betw[s.vertToEdge[q]] == B[s.vertToEdge[q]] + Credit(F0, p.flowsData, P, q)
    modifies p, p.betw
    ensures PoppedAt(stack, P + {x}, k - 1)
    ensures Shape(F0, p.flowsData) && Balanced(F0, p.flowsData, P + {x})
    ensures forall q :: q in s.vertToEdge ==>
              p.betw[s.vertToEdge[q]] == B[s.vertToEdge[q]] + Credit(F0, p.flowsData, P + {x}, q)
    ensures p.edgesToKill == old(p.edgesToKill) && p.mod == old(p.mod)
    ensures p.vertCommunity == old(p.vertCommunity) && p.communitiesSet == old(p.communitiesSet)
  {
    PopReady(F0, stack, k, x, p.flowsData);
    var r, betwInc := IncUpstreamFlow(p.flowsData, x);
    PopFacts(F0, stack, P, k, x, p.flowsData, r, betwInc);
    PopBalanced(F0, p.flowsData, r, P, x);
    PopCredit(F0, p.flowsData, r, P, x, betwInc);
    p.flowsData := r;
    CreditEdges(s, p, betwInc);
  }

  method BackwardPass(s: Solution, p: Problem, stack: seq<int>)
    requires s.Indexed() && p.betw.Length == s.numEdge
    requires Dag(p.flowsData, stack)
    requires forall x, u :: x in p.flowsData && u in p.flowsData[x].upstream ==> Pair(x, u) in s.vertToEdge
    modifies p, p.betw
    ensures Shape(old(p.flowsData), p.flowsData)
    ensures Balanced(old(p.flowsData), p.flowsData, old(p.flowsData).Keys)
    ensures forall q :: q in s.vertToEdge ==>
              p.betw[s.vertToEdge[q]] == old(p.betw[s.vertToEdge[q]])
                                         + Credit(old(p.flowsData), p.flowsData, old(p.flowsData).Keys, q)
    ensures p.edgesToKill == old(p.edgesToKill) && p.mod == old(p.mod)
    ensures p.vertCommunity == old(p.vertCommunity) && p.communitiesSet == old(p.communitiesSet)
  {
    ghost var F0 := p.flowsData;
    ghost var B := p.betw[..];
    var rest := stack;
    ghost var P: set<int> := {};
    StartBalanced(F0, stack);
    while |rest| > 0
      invariant rest == stack[..|rest|] && p.betw.Length == |B|
      invariant PoppedAt(stack, P, |rest|) && Shape(F0, p.flowsData) && Balanced(F0, p.flowsData, P)
      invariant forall q :: q in s.vertToEdge ==>
                  p.betw[s.vertToEdge[q]] == B[s.vertToEdge[q]] + Credit(F0, p.flowsData, P, q)
      invariant p.edgesToKill == old(p.edgesToKill) && p.mod == old(p.mod)
      invariant p.vertCommunity == old(p.vertCommunity) && p.communitiesSet == old(p.communitiesSet)
      decreases |rest|
    {
      var x := rest[|rest| - 1];
      PopVertex(s, p, stack, F0, P, |rest|, x, B);
      rest := rest[..|rest| - 1];
      P := P + {x};
    }
    AllPopped(F0, stack, P);
  }

  /** incFlowAndBetwViaBFS: the BFS from src leaves the complete layering of
      what src reaches over live edges, the reverse pass balances the flows
      over it, and every edge's betweenness grows by the credit its pair
      received. The flows left in the Problem are those of src. */
  method IncFlowAndBetwViaBfs(src: int, s: Solution, p: Problem) returns (ghost F0: FlowTable, ghost stack: seq<int>)
    requires s.Indexed() && src in s.neighborsSet && p.betw.Length == s.numEdge
    modifies p, p.betw
    ensures Layered(s.neighborsSet, s.severedPairs, src, F0, stack)
    ensures Shape(F0, p.flowsData) && Balanced(F0, p.flowsData, F0.Keys)
    ensures forall q :: q in s.vertToEdge ==>
              p.betw[s.vertToEdge[q]] == old(p.betw[s.vertToEdge[q]]) + Credit(F0, p.flowsData, F0.Keys, q)
    ensures p.edgesToKill == old(p.edgesToKill) && p.mod == old(p.mod)
    ensures p.vertCommunity == old(p.vertCommunity) && p.communitiesSet == old(p.communitiesSet)
  {
    p.ResetFlowsData();
    IndexedGraph(s);
    var flows, flowStack := ForwardPass(src, s);
    p.flowsData := flows;
    F0, stack := flows, flowStack;
    LayeredDag(s.neighborsSet, s.severedPairs, src, F0, stack);
    BackwardPass(s, p, flowStack);
  }

  /** The credit a BFS gives a pair is never negative, and a severed pair
      gets none, since flow only crosses live links. */
  lemma CreditBounds(adj: Adjacency, cut: set<PairKey>, F0: FlowTable, F: FlowTable, q: PairKey)
    requires UpLinked(adj, cut, F0) && Shape(F0, F)
    requires forall x :: x in F0 ==> F0[x].pathCount >= 1
    ensures Credit(F0, F, F0.Keys, q) >= 0.0
    ensures q.lo <= q.hi && q in cut ==> Credit(F0, F, F0.Keys, q) == 0.0
  {
    if q.hi in F0 && q.lo in F0[q.hi].upstream {
      assert Linked(adj, cut, q.lo, q.hi);
    }
    if q.lo in F0 && q.hi in F0[q.lo].upstream {
      assert Linked(adj, cut, q.hi, q.lo);
    }
  }

  /** Every live edge at the source gets a positive credit: its other end
      sits one level below the source and hands it a share of at least its
      own unit of flow. */
  lemma CreditAtSource(adj: Adjacency, cut: set<PairKey>, src: int, F0: FlowTable, F: FlowTable, n: int)
    requires WellFormed(adj) && Records(adj, src, F0) && Links(adj, cut, F0, F0.Keys)
    requires Shape(F0, F) && Balanced(F0, F, F0.Keys)
    requires Linked(adj, cut, src, n)
    ensures Credit(F0, F, F0.Keys, Pair(src, n)) > 0.0
  {
    assert n != src;
    assert n in F0 && F0[n].level == 2;
    assert src in Up(adj, cut, F0, F0.Keys, n);
    assert Recv(F0, F, n, src) > 0.0 by {
      SumRealNonNegative(F0[n].downstream * F0.Keys, d => Recv(F0, F, d, n));
    }
  }

  /** One source's pass of incFlowAndBetwViaBFS, as a value: the source,
      the layering its BFS built, its stack, and the flows the reverse pass
      left. */
  datatype Run = Run(src: int, layering: FlowTable, stack: seq<int>, flows: FlowTable)

  /** r is a finished pass from r.src over the live graph of adj minus cut:
      a complete layering and flows balanced over all of it. */
  ghost predicate Finished(adj: Adjacency, cut: set<PairKey>, r: Run)
  {
    && Layered(adj, cut, r.src, r.layering, r.stack)
    && Shape(r.layering, r.flows) && Balanced(r.layering, r.flows, r.layering.Keys)
  }

  /** runs holds one finished pass from each vertex 0 .. |runs|-1, in order. */
  ghost predicate Sources(adj: Adjacency, cut: set<PairKey>, runs: seq<Run>)
  {
    forall i :: 0 <= i < |runs| ==> runs[i].src == i && Finished(adj, cut, runs[i])
  }

  /** The credit pair q receives in one pass. */
  ghost function RunCredit(r: Run, q: PairKey): real
  {
    Credit(r.layering, r.flows, r.layering.Keys, q)
  }

  /** The credit pair q receives over all the passes: the betweenness
      calcBetw accumulates for its edge. */
  ghost function TotalCredit(runs: seq<Run>, q: PairKey): real
  {
    if |runs| == 0 then 0.0 else TotalCredit(runs[..|runs| - 1], q) + RunCredit(runs[|runs| - 1], q)
  }

  /** What one pass gives an edge: never a negative credit, nothing to a
      severed edge, and something to a live edge whose lower end is the
      source. */
  lemma BfsEffect(s: Solution, r: Run, q: PairKey)
    requires s.Indexed() && Finished(s.neighborsSet, s.severedPairs, r) && q in s.vertToEdge
    ensures RunCredit(r, q) >= 0.0
    ensures q in s.severedPairs ==> RunCredit(r, q) == 0.0
    ensures q !in s.severedPairs && q.lo == r.src ==> RunCredit(r, q) > 0.0
  {
    IndexedGraph(s);
    LayeredUpLinked(s.neighborsSet, s.severedPairs, r.src, r.layering, r.stack);
    ghost var pairOf := EdgeNumbering(s);
    CreditBounds(s.neighborsSet, s.severedPairs, r.layering, r.flows, q);
    if q !in s.severedPairs && q.lo == r.src {
      var a, b :| a in s.neighborsSet && b in s.neighborsSet[a] && Pair(a, b) == q;
      assert Linked(s.neighborsSet, s.severedPairs, a, b);
      assert Linked(s.neighborsSet, s.severedPairs, r.src, q.hi);
      CreditAtSource(s.neighborsSet, s.severedPairs, r.src, r.layering, r.flows, q.hi);
    }
  }

  /** In a finished pass the source's downstream vertices are exactly its
      live neighbours. */
  lemma SourceDown(s: Solution, r: Run)
    requires s.Indexed() && Finished(s.neighborsSet, s.severedPairs, r)
    ensures r.src in s.neighborsSet && r.src in r.layering
    ensures r.layering[r.src].downstream == Live(s.neighborsSet, s.severedPairs, r.src)
  {
    var adj, cut, F0 := s.neighborsSet, s.severedPairs, r.layering;
    IndexedGraph(s);
    forall n | n in Live(adj, cut, r.src) ensures n in F0[r.src].downstream {
      assert Linked(adj, cut, r.src, n);
      assert n in F0 && F0[n].level <= 2;
      assert n in Down(adj, cut, F0, r.src);
    }
  }

  /** Conservation at the source: in the pass from src, the credits on
      src's live edges add up to the number of other vertices src
      reaches. */
  lemma SourceCredits(s: Solution, r: Run)
    requires s.Indexed() && Finished(s.neighborsSet, s.severedPairs, r)
    ensures r.src in s.neighborsSet
    ensures SumReal(Live(s.neighborsSet, s.severedPairs, r.src), n => RunCredit(r, Pair(r.src, n)))
         == (|r.layering.Keys| - 1) as real
  {
    var F0 := r.layering;
    SourceDown(s, r);
    LayeredDag(s.neighborsSet, s.severedPairs, r.src, F0, r.stack);
    forall d | d in F0 && d != r.src
      ensures F0[d].upstream != {} && F0[d].pathCount == PathSum(F0, F0[d].upstream)
    {
      LayeredUpLinked(s.neighborsSet, s.severedPairs, r.src, F0, r.stack);
    }
    SourceFlow(F0, r.flows, r.stack, r.src);
    SumRealCongruence(F0[r.src].downstream, n => RunCredit(r, Pair(r.src, n)),
                      n => Credit(F0, r.flows, F0.Keys, Pair(r.src, n)));
  }

  /** The credits each pass gives its own source's live edges. */
  ghost function AtSource(adj: Adjacency, cut: set<PairKey>, r: Run): real
  {
    if r.src in adj then SumReal(Live(adj, cut, r.src), n => RunCredit(r, Pair(r.src, n))) else 0.0
  }

  /** AtSource summed over the passes. */
  ghost function AtSources(adj: Adjacency, cut: set<PairKey>, runs: seq<Run>): real
  {
    if |runs| == 0 then 0.0 else AtSources(adj, cut, runs[..|runs| - 1]) + AtSource(adj, cut, runs[|runs| - 1])
  }

  /** The ordered pairs (source, other vertex it reaches) over the passes. */
  ghost function Reached(runs: seq<Run>): int
  {
    if |runs| == 0 then 0 else Reached(runs[..|runs| - 1]) + |runs[|runs| - 1].layering.Keys| - 1
  }

  /** Over the passes from every source, the credits on the sources' own
      live edges add up to the number of ordered pairs of distinct vertices
      joined by a live path. */
  lemma {:induction false} AllSourcesCredits(s: Solution, runs: seq<Run>)
    requires s.Indexed() && Sources(s.neighborsSet, s.severedPairs, runs)
    ensures AtSources(s.neighborsSet, s.severedPairs, runs) == Reached(runs) as real
  {
    if |runs| > 0 {
      var k := |runs| - 1;
      assert Sources(s.neighborsSet, s.severedPairs, runs[..k]) by {
        forall i | 0 <= i < k ensures runs[..k][i].src == i && Finished(s.neighborsSet, s.severedPairs, runs[..k][i]) {
          assert runs[..k][i] == runs[i];
        }
      }
      AllSourcesCredits(s, runs[..k]);
      SourceCredits(s, runs[k]);
    }
  }

  /** Every pair with an edge index starts at a vertex id. */
  lemma PairsFromVertices(s: Solution)
    requires s.Indexed()
    ensures forall q :: q in s.vertToEdge ==> 0 <= q.lo < s.numVert
  {
    forall q | q in s.vertToEdge ensures 0 <= q.lo < s.numVert {
      var a, b :| a in s.neighborsSet && b in s.neighborsSet[a] && Pair(a, b) == q;
      assert b in s.neighborsSet;
    }
  }

  /** Summed over passes from the vertices 0 .. k-1, the credit of an edge
      is never negative, is 0 on a severed edge, and is positive on a live
      edge whose lower end is one of those sources. */
  lemma {:induction false} TotalCreditBounds(s: Solution, runs: seq<Run>, k: nat, q: PairKey)
    requires s.Indexed() && Sources(s.neighborsSet, s.severedPairs, runs) && k <= |runs|
    requires q in s.vertToEdge
    ensures TotalCredit(runs[..k], q) >= 0.0
    ensures q in s.severedPairs ==> TotalCredit(runs[..k], q) == 0.0
    ensures q !in s.severedPairs && q.lo < k ==> TotalCredit(runs[..k], q) > 0.0
  {
    if k > 0 {
      TotalCreditBounds(s, runs, k - 1, q);
      assert runs[..k][..k - 1] == runs[..k - 1];
      BfsEffect(s, runs[k - 1], q);
    } else {
      PairsFromVertices(s);
    }
  }

  /** One round of calcBetw's loop: the pass from node adds its credit to
      every edge. */
  method BetwFrom(node: int, s: Solution, p: Problem, ghost B: seq<real>, ghost runs: seq<Run>)
      returns (ghost runs': seq<Run>)
    requires s.Indexed() && p.betw.Length == s.numEdge == |B| && 0 <= node < s.numVert
    requires |runs| == node && Sources(s.neighborsSet, s.severedPairs, runs)
    requires forall q :: q in s.vertToEdge ==> p.betw[s.vertToEdge[q]] == B[s.vertToEdge[q]] + TotalCredit(runs, q)
    modifies p, p.betw
    ensures |runs'| == node + 1 && Sources(s.neighborsSet, s.severedPairs, runs')
    ensures forall q :: q in s.vertToEdge ==> p.betw[s.vertToEdge[q]] == B[s.vertToEdge[q]] + TotalCredit(runs', q)
    ensures p.edgesToKill == old(p.edgesToKill) && p.mod == old(p.mod)
    ensures p.vertCommunity == old(p.vertCommunity) && p.communitiesSet == old(p.communitiesSet)
  {
    var F0, stack := IncFlowAndBetwViaBfs(node, s, p);
    runs' := runs + [Run(node, F0, stack, p.flowsData)];
    assert runs'[..node] == runs;
  }

  /** calcBetw: one pass from every vertex 0 .. numVert-1, each adding its
      credit, so every edge's betweenness grows by its total credit. That
      total is never negative, is 0 on a severed edge and is positive on a
      live one, from the pass at its lower end if from nowhere else. */
  method CalcBetw(s: Solution, p: Problem) returns (ghost runs: seq<Run>)
    requires s.Indexed() && p.betw.Length == s.numEdge
    modifies p, p.betw
    ensures |runs| == s.numVert && Sources(s.neighborsSet, s.severedPairs, runs)
    ensures forall q :: q in s.vertToEdge ==>
              p.betw[s.vertToEdge[q]] == old(p.betw[s.vertToEdge[q]]) + TotalCredit(runs, q)
    ensures forall q :: q in s.vertToEdge ==> old(p.betw[s.vertToEdge[q]]) <= p.betw[s.vertToEdge[q]]
    ensures forall q :: q in s.vertToEdge && q in s.severedPairs ==>
              p.betw[s.vertToEdge[q]] == old(p.betw[s.vertToEdge[q]])
    ensures forall q :: q in s.vertToEdge && q !in s.severedPairs ==>
              old(p.betw[s.vertToEdge[q]]) < p.betw[s.vertToEdge[q]]
    ensures p.edgesToKill == old(p.edgesToKill) && p.mod == old(p.mod)
    ensures p.vertCommunity == old(p.vertCommunity) && p.communitiesSet == old(p.communitiesSet)
  {
    ghost var B := p.betw[..];
    runs := [];
    var node := 0;
    while node < s.numVert
      invariant 0 <= node <= s.numVert
      invariant |runs| == node && Sources(s.neighborsSet, s.severedPairs, runs)
      invariant forall q :: q in s.vertToEdge ==> p.betw[s.vertToEdge[q]] == B[s.vertToEdge[q]] + TotalCredit(runs, q)
      invariant p.edgesToKill == old(p.edgesToKill) && p.mod == old(p.mod)
      invariant p.vertCommunity == old(p.vertCommunity) && p.communitiesSet == old(p.communitiesSet)
    {
      runs := BetwFrom(node, s, p, B, runs);
      node := node + 1;
    }
    PairsFromVertices(s);
    forall q | q in s.vertToEdge
      ensures TotalCredit(runs, q) >= 0.0
      ensures q in s.severedPairs ==> TotalCredit(runs, q) == 0.0
      ensures q !in s.severedPairs ==> TotalCredit(runs, q) > 0.0
    {
      TotalCreditBounds(s, runs, |runs|, q);
      assert runs[..|runs|] == runs;
    }
  }

  /** The largest betweenness, starting from 0 as getEdgesToKill does, so
      an empty or non-positive list gives 0. */
  function MaxBetw(xs: seq<real>): (r: real)
    ensures 0.0 <= r
    ensures forall i :: 0 <= i < |xs| ==> xs[i] <= r
    ensures r == 0.0 || exists i :: 0 <= i < |xs| && xs[i] == r
  {
    if |xs| == 0 then 0.0
    else
      var m := MaxBetw(xs[..|xs| - 1]);
      if m < xs[|xs| - 1] then xs[|xs| - 1] else m
  }

  /** The edges whose betweenness attains the maximum. */
  function MaxEdges(xs: seq<real>): set<int>
  {
    set e | 0 <= e < |xs| && xs[e] == MaxBetw(xs)
  }

  /** Which edges attain the maximum after calcBetw on a fresh Problem:
      while a live edge remains, only live edges do, and at least one;
      once every edge is severed, all of them do. */
  lemma KillTargets(s: Solution, b: seq<real>)
    requires s.Indexed() && |b| == s.numEdge
    requires forall q :: q in s.vertToEdge && q in s.severedPairs ==> b[s.vertToEdge[q]] == 0.0
    requires forall q :: q in s.vertToEdge && q !in s.severedPairs ==> 0.0 < b[s.vertToEdge[q]]
    ensures (exists q :: q in s.vertToEdge && q !in s.severedPairs) ==>
              && MaxEdges(b) != {}
              && (forall q :: q in s.vertToEdge && s.vertToEdge[q] in MaxEdges(b) ==> q !in s.severedPairs)
    ensures (forall q :: q in s.vertToEdge ==> q in s.severedPairs) ==>
              forall e :: 0 <= e < |b| ==> e in MaxEdges(b)
  {
    ghost var pairOf := EdgeNumbering(s);
    if exists q :: q in s.vertToEdge && q !in s.severedPairs {
      var q :| q in s.vertToEdge && q !in s.severedPairs;
      assert 0.0 < b[s.vertToEdge[q]] <= MaxBetw(b);
      var e :| 0 <= e < |b| && b[e] == MaxBetw(b);
      assert e in MaxEdges(b);
    } else {
      forall e | 0 <= e < |b| ensures b[e] == 0.0 {
        assert pairOf[e] in s.vertToEdge && pairOf[e] in s.severedPairs;
      }
    }
  }

  /** The first loop of getEdgesToKill: the largest betweenness, from 0. */
  method FindMaxBetw(p: Problem) returns (max: real)
    ensures max == MaxBetw(p.betw[..])
  {
    max := 0.0;
    var edge := 0;
    while edge < p.betw.Length
      invariant 0 <= edge <= p.betw.Length
      invariant max == MaxBetw(p.betw[..edge])
    {
      var curr := p.GetBetw(edge);
      assert p.betw[..edge + 1][..edge] == p.betw[..edge];
      if max < curr {
        max := curr;
      }
      edge := edge + 1;
    }
    assert p.betw[..edge] == p.betw[..];
  }

  /** The second loop of getEdgesToKill: every edge whose betweenness
      equals max. */
  method EdgesAt(p: Problem, max: real) returns (edges: set<int>)
    ensures forall e :: e in edges <==> 0 <= e < p.betw.Length && p.betw[e] == max
  {
    edges := {};
    var edge := 0;
    while edge < p.betw.Length
      invariant 0 <= edge <= p.betw.Length
      invariant forall e :: e in edges <==> 0 <= e < edge && p.betw[e] == max
    {
      if p.GetBetw(edge) == max {
        edges := edges + {edge};
      }
      edge := edge + 1;
    }
  }

  /** When every betweenness started at 0, calcBetw leaves each edge its
      total credit: severed edges hold 0 and live ones something, and the
      maximal edges are a selection from the passes. */
  lemma FromZero(s: Solution, runs: seq<Run>, B: seq<real>, betw: seq<real>)
    requires s.Indexed() && |B| == |betw| == s.numEdge
    requires |runs| == s.numVert && Sources(s.neighborsSet, s.severedPairs, runs)
    requires forall e :: 0 <= e < s.numEdge ==> B[e] == 0.0
    requires forall q :: q in s.vertToEdge ==> betw[s.vertToEdge[q]] == B[s.vertToEdge[q]] + TotalCredit(runs, q)
    requires forall q :: q in s.vertToEdge && q in s.severedPairs ==> betw[s.vertToEdge[q]] == B[s.vertToEdge[q]]
    requires forall q :: q in s.vertToEdge && q !in s.severedPairs ==> B[s.vertToEdge[q]] < betw[s.vertToEdge[q]]
    ensures Selects(s.neighborsSet, s.severedPairs, s.vertToEdge, s.numVert, s.numEdge, MaxEdges(betw))
    ensures forall q :: q in s.vertToEdge && q in s.severedPairs ==> betw[s.vertToEdge[q]] == 0.0
    ensures forall q :: q in s.vertToEdge && q !in s.severedPairs ==> 0.0 < betw[s.vertToEdge[q]]
  {
    forall q | q in s.vertToEdge ensures 0 <= s.vertToEdge[q] < s.numEdge && betw[s.vertToEdge[q]] == TotalCredit(runs, q) {
    }
    SelectsFrom(s.neighborsSet, s.severedPairs, s.vertToEdge, s.numVert, s.numEdge, runs, betw, MaxEdges(betw));
  }

  /** getEdgesToKill: calcBetw, then every edge attaining the largest
      betweenness (at least 0). The betweenness is the total credit of one
      finished pass from every vertex. On a fresh Problem this selects only
      live edges while any remain, and all edges once none does. */
  method GetEdgesToKill(s: Solution, p: Problem) returns (ghost runs: seq<Run>)
    requires s.Indexed() && p.betw.Length == s.numEdge
    modifies p, p.betw
    ensures |runs| == s.numVert && Sources(s.neighborsSet, s.severedPairs, runs)
    ensures forall q :: q in s.vertToEdge ==>
              p.betw[s.vertToEdge[q]] == old(p.betw[s.vertToEdge[q]]) + TotalCredit(runs, q)
    ensures p.edgesToKill == MaxEdges(p.betw[..])
    ensures (forall e :: 0 <= e < s.numEdge ==> old(p.betw[e]) == 0.0) ==>
              Selects(s.neighborsSet, s.severedPairs, s.vertToEdge, s.numVert, s.numEdge, p.edgesToKill)
    ensures (forall e :: 0 <= e < s.numEdge ==> old(p.betw[e]) == 0.0) ==>
              && ((exists q :: q in s.vertToEdge && q !in s.severedPairs) ==>
                    p.edgesToKill != {} &&
                    forall q :: q in s.vertToEdge && s.vertToEdge[q] in p.edgesToKill ==> q !in s.severedPairs)
              && ((forall q :: q in s.vertToEdge ==> q in s.severedPairs) ==>
                    forall e :: 0 <= e < s.numEdge ==> e in p.edgesToKill)
    ensures p.mod == old(p.mod) && p.vertCommunity == old(p.vertCommunity)
    ensures p.communitiesSet == old(p.communitiesSet)
  {
    ghost var B := p.betw[..];
    runs := CalcBetw(s, p);
    ghost var betw := p.betw[..];
    var max := FindMaxBetw(p);
    var edgesToKill := EdgesAt(p, max);
    assert edgesToKill == MaxEdges(betw);
    p.SetEdgesToKill(edgesToKill);
    assert p.betw[..] == betw;
    if forall e :: 0 <= e < s.numEdge ==> B[e] == 0.0 {
      FromZero(s, runs, B, betw);
      KillTargets(s, betw);
    }
  }

  /** kills is what getEdgesToKill selects on a fresh Problem over the live
      graph of adj minus cut, with n vertices and the m edges numbered by
      vte: the edges of largest betweenness, an edge's betweenness being its
      total credit from one finished pass per vertex. */
  ghost predicate Selects(adj: Adjacency, cut: set<PairKey>, vte: map<PairKey, int>, n: int, m: int,
                          kills: set<int>)
  {
    exists runs: seq<Run>, betw: seq<real> ::
      && |runs| == n && Sources(adj, cut, runs) && |betw| == m
      && (forall q :: q in vte ==> 0 <= vte[q] < m && betw[vte[q]] == TotalCredit(runs, q))
      && kills == MaxEdges(betw)
  }

  /** A selection made from betweenness read off passes from every vertex
      is the one Selects describes. */
  lemma SelectsFrom(adj: Adjacency, cut: set<PairKey>, vte: map<PairKey, int>, n: int, m: int,
                    runs: seq<Run>, betw: seq<real>, kills: set<int>)
    requires |runs| == n && Sources(adj, cut, runs) && |betw| == m
    requires forall q :: q in vte ==> 0 <= vte[q] < m && betw[vte[q]] == TotalCredit(runs, q)
    requires kills == MaxEdges(betw)
    ensures Selects(adj, cut, vte, n, m, kills)
  {
  }
}

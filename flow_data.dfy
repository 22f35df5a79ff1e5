/** Per-vertex BFS records (girvannewman/data/FlowData.java), in the revision
    that Solver.java and the tests use: a record carries a BFS level, the
    record of an already-seen neighbour is never replaced, and the upward
    pass returns the per-pair betweenness increments.

    The source keeps one mutable FlowData object per vertex in a shared
    HashMap<Integer, FlowData> and mutates the records through the map. Here
    a record is a value and the map from vertex to record is a FlowTable; each
    operation takes the table and returns the updated one, with the same
    effect on every record as the source's in-place updates. */
module Flows {
  import opened VertexPairs
  import opened SetSums

  datatype FlowData = FlowData(
    node: int,
    level: int,
    upstream: set<int>,
    downstream: set<int>,
    pathCount: int,
    flowCount: real)

  type FlowTable = map<int, FlowData>

  /** new FlowData(node, level): no paths, no flow, no links yet. */
  function NewFlowData(node: int, level: int): (fd: FlowData)
    requires node >= 0 && level >= 0
    ensures fd.node == node && fd.level == level
    ensures fd.upstream == {} && fd.downstream == {}
    ensures fd.pathCount == 0 && fd.flowCount == 0.0
  {
    FlowData(node, level, {}, {}, 0, 0.0)
  }

  function PathCountOf(flows: FlowTable, u: int): int
  {
    if u in flows then flows[u].pathCount else 0
  }

  /** Total path count of the vertices in s. */
  ghost function PathSum(flows: FlowTable, s: set<int>): int
  {
    Sum(s, u => PathCountOf(flows, u))
  }

  /** The part of a vertex's flow handed to one upstream vertex:
      flow / pathCount(v) * pathCount(u). */
  function Share(flow: real, pv: int, pu: int): (r: real)
    requires pv > 0
    ensures flow >= 0.0 && pu >= 0 ==> r >= 0.0
    ensures flow > 0.0 && pu > 0 ==> r > 0.0
  {
    flow / (pv as real) * (pu as real)
  }

  /** Live neighbours of v: those not joined to v by a severed pair. */
  function LiveNeighbors(v: int, neighbors: set<int>, severed: set<PairKey>): set<int>
  {
    set n | n in neighbors && Pair(v, n) !in severed
  }

  /** populateDownstream: every live neighbour without a record gets a new
      record one level below v and joins v's downstream; a live neighbour
      that already has a record joins only when it sits exactly one level
      below v. Same-level and upper vertices are never downstream. */
  method PopulateDownstream(flows: FlowTable, v: int, neighbors: set<int>, severed: set<PairKey>)
    returns (r: FlowTable)
    requires v in flows && flows[v].level >= 0
    requires forall n :: n in neighbors ==> n >= 0
    ensures r.Keys == flows.Keys + LiveNeighbors(v, neighbors, severed)
    ensures forall n :: n in r && n !in flows ==> r[n] == NewFlowData(n, flows[v].level + 1)
    ensures forall n :: n in flows && n != v ==> r[n] == flows[n]
    ensures r[v] == flows[v].(downstream := flows[v].downstream
                                + set n | n in LiveNeighbors(v, neighbors, severed) && n in r
                                          && r[n].level == flows[v].level + 1)
  {
    var fd := flows[v];
    r := flows;
    var down := fd.downstream;
    var todo := neighbors;
    while todo != {}
      invariant todo <= neighbors
      invariant r.Keys == flows.Keys + LiveNeighbors(v, neighbors - todo, severed)
      invariant forall n :: n in r && n !in flows ==> r[n] == NewFlowData(n, fd.level + 1)
      invariant forall n :: n in flows ==> r[n] == flows[n]
      invariant down == fd.downstream
                     + set n | n in LiveNeighbors(v, neighbors - todo, severed) && n in r
                               && r[n].level == fd.level + 1
      decreases todo
    {
      r, down, todo := PopulateNext(flows, v, neighbors, severed, fd.level + 1, fd.downstream, r, down, todo);
    }
    r := r[v := fd.(downstream := down)];
  }

  /** One neighbour of PopulateDownstream's loop: a live neighbour without a
      record gets one at the given level and joins the downstream set, a live
      neighbour already at that level joins it, and any other is skipped. */
  method PopulateNext(flows: FlowTable, v: int, neighbors: set<int>, severed: set<PairKey>,
                      level: int, base: set<int>, r: FlowTable, down: set<int>, todo: set<int>)
    returns (r': FlowTable, down': set<int>, todo': set<int>)
    requires todo != {} && todo <= neighbors
    requires forall n :: n in neighbors ==> n >= 0
    requires level >= 1
    requires r.Keys == flows.Keys + LiveNeighbors(v, neighbors - todo, severed)
    requires forall n :: n in r && n !in flows ==> r[n] == NewFlowData(n, level)
    requires forall n :: n in flows ==> r[n] == flows[n]
    requires down == base + set n | n in LiveNeighbors(v, neighbors - todo, severed) && n in r
                                    && r[n].level == level
    ensures todo' < todo
    ensures r'.Keys == flows.Keys + LiveNeighbors(v, neighbors - todo', severed)
    ensures forall n :: n in r' && n !in flows ==> r'[n] == NewFlowData(n, level)
    ensures forall n :: n in flows ==> r'[n] == flows[n]
    ensures down' == base + set n | n in LiveNeighbors(v, neighbors - todo', severed) && n in r'
                                    && r'[n].level == level
  {
    ghost var someNeighbor := Elem(todo);
    var n :| n in todo;
    r', down' := r, down;
    if Pair(v, n) !in severed {
      if n !in r {
        r' := r[n := NewFlowData(n, level)];
        down' := down + {n};
      } else if r[n].level == level {
        down' := down + {n};
      }
    }
    todo' := todo - {n};
  }

  /** updateDownstream: every downstream vertex gains v's path count and
      records v as upstream. v must not be its own downstream vertex; the
      level rule of PopulateDownstream guarantees it. */
  method UpdateDownstream(flows: FlowTable, v: int) returns (r: FlowTable)
    requires v in flows
    requires flows[v].downstream <= flows.Keys
    requires v !in flows[v].downstream
    ensures r.Keys == flows.Keys
    ensures r[v] == flows[v]
    ensures forall n :: n in flows && n in flows[v].downstream ==>
              r[n] == flows[n].(pathCount := flows[n].pathCount + flows[v].pathCount,
                                upstream := flows[n].upstream + {v})
    ensures forall n :: n in flows && n !in flows[v].downstream ==> r[n] == flows[n]
  {
    var fd := flows[v];
    r := flows;
    var todo := fd.downstream;
    while todo != {}
      invariant todo <= fd.downstream
      invariant r.Keys == flows.Keys
      invariant forall n :: n in flows && n in fd.downstream - todo ==>
                  r[n] == flows[n].(pathCount := flows[n].pathCount + fd.pathCount,
                                    upstream := flows[n].upstream + {v})
      invariant forall n :: n in flows && (n !in fd.downstream || n in todo) ==> r[n] == flows[n]
      decreases todo
    {
      ghost var someDown := Elem(todo);
      var d :| d in todo;
      var down := r[d];
      r := r[d := down.(pathCount := down.pathCount + fd.pathCount, upstream := down.upstream + {v})];
      todo := todo - {d};
    }
  }

  /** Path counts agree on s, so their totals agree. */
  lemma PathSumCongruence(f1: FlowTable, f2: FlowTable, s: set<int>)
    requires forall u :: u in s ==> PathCountOf(f1, u) == PathCountOf(f2, u)
    ensures PathSum(f1, s) == PathSum(f2, s)
  {
    SumCongruence(s, u => PathCountOf(f1, u), u => PathCountOf(f2, u));
  }

  /** After updateDownstream from v, a downstream vertex d whose path count was
      the sum over its upstream still has that property with v added: its
      count grew by exactly v's count (2 + 3 = 5 in the source's tests). */
  lemma {:induction false} UpdateKeepsPathSum(flows: FlowTable, r: FlowTable, v: int, d: int)
    requires v in flows && d in flows && d in flows[v].downstream && v !in flows[v].downstream
    requires v !in flows[d].upstream
    requires forall u :: u in flows[d].upstream ==> u !in flows[v].downstream
    requires flows[d].pathCount == PathSum(flows, flows[d].upstream)
    requires r.Keys == flows.Keys && r[v] == flows[v]
    requires forall n :: n in flows && n in flows[v].downstream ==>
               r[n] == flows[n].(pathCount := flows[n].pathCount + flows[v].pathCount,
                                 upstream := flows[n].upstream + {v})
    requires forall n :: n in flows && n !in flows[v].downstream ==> r[n] == flows[n]
    ensures r[d].pathCount == PathSum(r, r[d].upstream)
  {
    var up := flows[d].upstream;
    assert r[d].upstream == up + {v};
    PathSumCongruence(flows, r, up);
    SumRemove(up + {v}, u => PathCountOf(r, u), v);
    assert up + {v} - {v} == up;
  }

  /** The amount each upstream vertex of v receives. */
  ghost function ShareOf(flows: FlowTable, v: int, flow: real, u: int): real
    requires v in flows && flows[v].pathCount > 0
  {
    Share(flow, flows[v].pathCount, PathCountOf(flows, u))
  }

  /** When v's path count is the sum over its upstream, the shares it hands
      upstream add up to exactly its flow. */
  lemma {:induction false} SharesSumToFlow(flows: FlowTable, v: int, flow: real)
    requires v in flows && flows[v].pathCount > 0
    requires flows[v].pathCount == PathSum(flows, flows[v].upstream)
    ensures SumReal(flows[v].upstream, u => ShareOf(flows, v, flow, u)) == flow
  {
    var pv := flows[v].pathCount as real;
    SumRealOfInt(flows[v].upstream, u => PathCountOf(flows, u) as real, u => PathCountOf(flows, u));
    SumRealScale(flows[v].upstream, u => ShareOf(flows, v, flow, u), flow / pv,
                 u => PathCountOf(flows, u) as real);
    DivideThenMultiply(flow, pv);
  }

  /** Dividing by a non-zero amount and multiplying back gives the same. */
  lemma DivideThenMultiply(flow: real, p: real)
    requires p != 0.0
    ensures flow / p * p == flow
  {
  }

  /** incUpstreamFlow: a vertex with upstream vertices first adds its own unit
      of flow; then each upstream vertex u receives flow * pathCount(u) /
      pathCount(v), which is also returned as the betweenness increment of
      the pair {v, u}. A vertex with no upstream (the BFS source) sends
      nothing and returns no increments. */
  method IncUpstreamFlow(flows: FlowTable, v: int) returns (r: FlowTable, betwInc: map<PairKey, real>)
    requires v in flows
    requires flows[v].upstream <= flows.Keys
    requires v !in flows[v].upstream
    requires flows[v].upstream != {} ==> flows[v].pathCount > 0
    ensures r.Keys == flows.Keys
    ensures r[v] == flows[v].(flowCount := flows[v].flowCount
                                + if flows[v].upstream == {} then 0.0 else 1.0)
    ensures forall u :: u in flows && u !in flows[v].upstream && u != v ==> r[u] == flows[u]
    ensures forall u :: u in flows[v].upstream ==>
              r[u] == flows[u].(flowCount := flows[u].flowCount
                                  + ShareOf(flows, v, r[v].flowCount, u))
    ensures betwInc.Keys == set u | u in flows[v].upstream :: Pair(v, u)
    ensures forall u :: u in flows[v].upstream ==>
              betwInc[Pair(v, u)] == ShareOf(flows, v, r[v].flowCount, u)
  {
    var fd := flows[v];
    var flow := fd.flowCount;
    if fd.upstream != {} {
      flow := flow + 1.0;
    }
    r := flows[v := fd.(flowCount := flow)];
    betwInc := map[];
    var todo := fd.upstream;
    while todo != {}
      invariant todo <= fd.upstream
      invariant r.Keys == flows.Keys && r[v] == fd.(flowCount := flow)
      invariant forall u :: u in flows && (u !in fd.upstream || u in todo) && u != v ==> r[u] == flows[u]
      invariant forall u :: u in fd.upstream - todo ==>
                  r[u] == flows[u].(flowCount := flows[u].flowCount + ShareOf(flows, v, flow, u))
      invariant betwInc.Keys == set u | u in fd.upstream - todo :: Pair(v, u)
      invariant forall u :: u in fd.upstream - todo ==> betwInc[Pair(v, u)] == ShareOf(flows, v, flow, u)
      decreases todo
    {
      ghost var someUp := Elem(todo);
      var u :| u in todo;
      var upFlow := r[u];
      var inc := flow / (fd.pathCount as real) * (upFlow.pathCount as real);
      r := r[u := upFlow.(flowCount := upFlow.flowCount + inc)];
      betwInc := betwInc[Pair(v, u) := inc];
      todo := todo - {u};
    }
  }
}

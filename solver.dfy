/** The Girvan-Newman loop of girvannewman/Solver.java: each round builds a
    fresh Problem, kills the edges of highest betweenness, measures the
    modularity of the communities left and records the round in the
    Solution. */
module Rounds {
  import opened VertexPairs
  import opened SetSums
  import opened Solutions
  import opened Problems
  import opened Edges
  import opened Betweenness
  import opened Wrappers
  import opened Graphs
  import opened Communities
  import opened Modularity

  /** The edge records once the edges of K have been killed in round iter,
      starting from liveness A and kill rounds I. */
  ghost predicate KilledSoFar(s: Solution, A: seq<bool>, I: seq<int>, iter: int, K: set<int>)
    requires s.Indexed()
    reads s.edgesData, s.EdgeObjects
  {
    && |A| == |I| == s.numEdge
    && forall e :: 0 <= e < s.numEdge ==>
         && s.edgesData[e].Valid()
         && s.edgesData[e].alive == (A[e] && e !in K)
         && s.edgesData[e].iterKilled == (if e in K then iter else I[e])
  }

  /** The pairs of the edges in K. */
  ghost function PairsOf(pairOf: seq<PairKey>, K: set<int>): set<PairKey>
    requires forall e :: e in K ==> 0 <= e < |pairOf|
  {
    set e | e in K :: pairOf[e]
  }

  /** The pairs whose edge index is in K, read off the numbering vte. */
  ghost function EdgePairs(vte: map<PairKey, int>, K: set<int>): set<PairKey>
  {
    set q | q in vte && vte[q] in K
  }

  /** The endpoints of the edges of K are the pairs numbered into K. */
  lemma KilledPairs(s: Solution, K: set<int>)
    requires s.Indexed() && forall e :: e in K ==> 0 <= e < s.numEdge
    ensures (set e | e in K :: Key(s.GetEdgeData(e).endpoints)) == EdgePairs(s.vertToEdge, K)
  {
    forall q | q in s.vertToEdge && s.vertToEdge[q] in K
      ensures q in set e | e in K :: Key(s.GetEdgeData(e).endpoints)
    {
      assert Key(s.GetEdgeData(s.vertToEdge[q]).endpoints) == q;
    }
  }

  /** Moving one edge from the edges still to kill to the killed ones. */
  lemma MoveOne(pairOf: seq<PairKey>, all: set<int>, killed: set<int>, todo: set<int>, edge: int)
    requires forall e :: e in all ==> 0 <= e < |pairOf|
    requires todo <= all && killed == all - todo && edge in todo
    ensures todo - {edge} <= all && killed + {edge} == all - (todo - {edge})
    ensures PairsOf(pairOf, killed + {edge}) == PairsOf(pairOf, killed) + {pairOf[edge]}
  {
  }

  /** The severed pairs after killing the edges of K: those severed before
      and the pairs of K, which are exactly the pairs whose edge is dead. */
  lemma KilledSevered(s: Solution, pairOf: seq<PairKey>, A: seq<bool>, I: seq<int>, iter: int,
                      K: set<int>, S0: set<PairKey>)
    requires s.Indexed() && |pairOf| == s.numEdge
    requires forall e :: 0 <= e < s.numEdge ==> pairOf[e] in s.vertToEdge && s.vertToEdge[pairOf[e]] == e
    requires KilledSoFar(s, A, I, iter, K) && forall e :: e in K ==> 0 <= e < s.numEdge
    requires S0 <= s.vertToEdge.Keys
    requires forall q :: q in s.vertToEdge ==> (q in S0 <==> !A[s.vertToEdge[q]])
    ensures S0 + PairsOf(pairOf, K) == s.DeadPairs()
    ensures PairsOf(pairOf, K) == set e | e in K :: Key(s.GetEdgeData(e).endpoints)
    ensures PairsOf(pairOf, K) == EdgePairs(s.vertToEdge, K)
  {
    KilledPairs(s, K);
  }

  /** One round of killEdges' loop: edge dies in round iter and its pair
      is severed. */
  method KillOne(s: Solution, edge: int, iter: int, ghost A: seq<bool>, ghost I: seq<int>, ghost K: set<int>)
    requires s.Indexed() && 0 <= edge < s.numEdge && iter >= 1
    requires KilledSoFar(s, A, I, iter, K)
    modifies s, s.edgesData[edge]
    ensures KilledSoFar(s, A, I, iter, K + {edge})
    ensures s.severedPairs == old(s.severedPairs) + {Key(s.edgesData[edge].endpoints)}
    ensures s.objList == old(s.objList) && s.killedEdgeList == old(s.killedEdgeList)
    ensures s.optIter == old(s.optIter) && s.optCommunitiesSet == old(s.optCommunitiesSet)
  {
    var ed := s.GetEdgeData(edge);
    var vp := ed.endpoints;
    ed.Kill(iter);
    s.AddSeveredPairs(vp);
  }

  /** Severing one more pair extends the severed pairs by that pair. */
  lemma SeverOne(S0: set<PairKey>, P: set<PairKey>, P': set<PairKey>, k: PairKey,
                 before: set<PairKey>, after: set<PairKey>)
    requires before == S0 + P && P' == P + {k} && after == before + {k}
    ensures after == S0 + P'
  {
  }

  /** The body of killEdges' loop: some edge still to kill dies and its pair
      is severed. */
  method KillNext(s: Solution, p: Problem, todo: set<int>, ghost killed: set<int>, ghost pairOf: seq<PairKey>,
                  ghost A: seq<bool>, ghost I: seq<int>, ghost S0: set<PairKey>)
      returns (todo': set<int>, ghost killed': set<int>)
    requires s.Indexed() && p.iter >= 1 && |pairOf| == s.numEdge
    requires forall e :: 0 <= e < s.numEdge ==> pairOf[e] in s.vertToEdge && s.vertToEdge[pairOf[e]] == e
    requires forall e :: e in p.edgesToKill ==> 0 <= e < s.numEdge
    requires todo != {} && todo <= p.edgesToKill && killed == p.edgesToKill - todo
    requires KilledSoFar(s, A, I, p.iter, killed)
    requires s.severedPairs == S0 + PairsOf(pairOf, killed)
    modifies s, s.EdgeObjects
    ensures todo' < todo && todo' <= p.edgesToKill && killed' == p.edgesToKill - todo'
    ensures KilledSoFar(s, A, I, p.iter, killed')
    ensures s.severedPairs == S0 + PairsOf(pairOf, killed')
    ensures s.objList == old(s.objList) && s.killedEdgeList == old(s.killedEdgeList)
    ensures s.optIter == old(s.optIter) && s.optCommunitiesSet == old(s.optCommunitiesSet)
  {
    ghost var someEdge := Elem(todo);
    var edge :| edge in todo;
    MoveOne(pairOf, p.edgesToKill, killed, todo, edge);
    assert Key(s.edgesData[edge].endpoints) == pairOf[edge];
    ghost var before := s.severedPairs;
    KillOne(s, edge, p.iter, A, I, killed);
    SeverOne(S0, PairsOf(pairOf, killed), PairsOf(pairOf, killed + {edge}), pairOf[edge], before, s.severedPairs);
    todo' := todo - {edge};
    killed' := killed + {edge};
  }

  /** killEdges: every edge chosen in p dies in round p.iter and its pair
      joins the severed pairs; no other edge changes. */
  method KillEdges(s: Solution, p: Problem)
    requires s.Valid() && p.iter >= 1
    requires forall e :: e in p.edgesToKill ==> 0 <= e < s.numEdge
    modifies s, s.EdgeObjects
    ensures s.Valid()
    ensures forall e :: 0 <= e < s.numEdge ==>
              s.edgesData[e].alive == (old(s.edgesData[e].alive) && e !in p.edgesToKill)
    ensures forall e :: 0 <= e < s.numEdge ==>
              s.edgesData[e].iterKilled == (if e in p.edgesToKill then p.iter else old(s.edgesData[e].iterKilled))
    ensures s.severedPairs == old(s.severedPairs) + set e | e in p.edgesToKill :: Key(s.GetEdgeData(e).endpoints)
    ensures s.severedPairs == old(s.severedPairs) + EdgePairs(s.vertToEdge, p.edgesToKill)
    ensures s.objList == old(s.objList) && s.killedEdgeList == old(s.killedEdgeList)
    ensures s.optIter == old(s.optIter) && s.optCommunitiesSet == old(s.optCommunitiesSet)
  {
    ghost var pairOf := EdgeNumbering(s);
    ghost var A := seq(s.numEdge, e requires 0 <= e < s.edgesData.Length && s.edgesData[e] != null && s.edgesData[e] in s.EdgeObjects
                                    reads s.edgesData, s.EdgeObjects => s.edgesData[e].alive);
    ghost var I := seq(s.numEdge, e requires 0 <= e < s.edgesData.Length && s.edgesData[e] != null && s.edgesData[e] in s.EdgeObjects
                                    reads s.edgesData, s.EdgeObjects => s.edgesData[e].iterKilled);
    assert forall q :: q in s.vertToEdge ==> (q in s.severedPairs <==> !A[s.vertToEdge[q]]);
    var todo := p.edgesToKill;
    ghost var killed: set<int> := {};
    while todo != {}
      invariant todo <= p.edgesToKill && killed == p.edgesToKill - todo
      invariant KilledSoFar(s, A, I, p.iter, killed)
      invariant s.severedPairs == old(s.severedPairs) + PairsOf(pairOf, killed)
      invariant s.objList == old(s.objList) && s.killedEdgeList == old(s.killedEdgeList)
      invariant s.optIter == old(s.optIter) && s.optCommunitiesSet == old(s.optCommunitiesSet)
      decreases todo
    {
      todo, killed := KillNext(s, p, todo, killed, pairOf, A, I, old(s.severedPairs));
    }
    KilledSevered(s, pairOf, A, I, p.iter, p.edgesToKill, old(s.severedPairs));
  }

  /** The number of rounds, after the first, whose objective fell below the
      best of the rounds before it: solve's godMode. */
  function Patience(objs: seq<real>): (n: nat)
    ensures n < |objs| || n == 0
  {
    if |objs| <= 1 then 0
    else
      var before := objs[..|objs| - 1];
      Patience(before) + (if objs[|objs| - 1] < before[OptIndex(before)] then 1 else 0)
  }

  /** solve's exit test after the rounds whose objectives are objs: the last
      objective is below the best one and patience has run out. */
  predicate Exits(objs: seq<real>, threshold: int)
    requires |objs| >= 1
  {
    objs[|objs| - 1] < objs[OptIndex(objs)] && Patience(objs) >= threshold
  }

  /** Whether a round objective is at least optObj, which starts at minus
      infinity (None). */
  function AtLeast(obj: real, optObj: Option<real>): (r: bool)
    ensures r <==> optObj == None || optObj.value <= obj
  {
    match optObj
    case None => true
    case Some(o) => o <= obj
  }

  /** How the best objective, its round and the patience counter move when
      one more round is recorded. */
  lemma {:induction false} RecordRound(objs: seq<real>, x: real)
    requires |objs| >= 1
    ensures x >= objs[OptIndex(objs)] ==>
              OptIndex(objs + [x]) == |objs| && Patience(objs + [x]) == Patience(objs)
    ensures x < objs[OptIndex(objs)] ==>
              OptIndex(objs + [x]) == OptIndex(objs) && Patience(objs + [x]) == Patience(objs) + 1
  {
    assert (objs + [x])[..|objs|] == objs;
  }

  /** One round of solve before it is recorded: a fresh Problem for round
      iter, the edges of highest betweenness killed, the communities of the
      remaining live graph and their modularity. */
  method Round(s: Solution, iter: int) returns (p: Problem, ghost seeds: seq<int>)
    requires s.Valid() && iter >= 1
    modifies s, s.EdgeObjects
    ensures fresh(p) && fresh(p.betw) && p.iter == iter
    ensures s.Valid() && p.edgesToKill == MaxEdges(p.betw[..])
    ensures Selects(s.neighborsSet, old(s.severedPairs), s.vertToEdge, s.numVert, s.numEdge, p.edgesToKill)
    ensures s.severedPairs == old(s.severedPairs) + EdgePairs(s.vertToEdge, p.edgesToKill)
    ensures forall e :: 0 <= e < s.numEdge ==>
              s.edgesData[e].alive == (old(s.edgesData[e].alive) && e !in p.edgesToKill)
    ensures forall e :: 0 <= e < s.numEdge ==>
              s.edgesData[e].iterKilled == (if e in p.edgesToKill then iter else old(s.edgesData[e].iterKilled))
    ensures p.Valid() && Seeded(s.neighborsSet, s.severedPairs, p.communitiesSet, seeds)
    ensures p.vertCommunity.Keys == s.neighborsSet.Keys
    ensures forall a, b :: a in s.neighborsSet && b in s.neighborsSet ==>
              (p.vertCommunity[a] == p.vertCommunity[b] <==> Reaches(s.neighborsSet, s.severedPairs, a, b))
    ensures p.mod == Mod(s.neighborsSet, s.numEdge, p.communitiesSet)
    ensures s.objList == old(s.objList) && s.killedEdgeList == old(s.killedEdgeList)
    ensures s.optIter == old(s.optIter) && s.optCommunitiesSet == old(s.optCommunitiesSet)
  {
    p := KillRound(s, iter);
    ghost var betw, edges := p.betw[..], s.EdgeStates();
    seeds := CalcMod(s, p);
    assert p.betw[..] == betw && s.EdgeStates() == edges;
  }

  /** A fresh Problem for round iter holding the edges getEdgesToKill
      selects; the Solution is left as it was. */
  method SelectRound(s: Solution, iter: int) returns (p: Problem)
    requires s.Valid() && iter >= 1
    ensures fresh(p) && fresh(p.betw) && p.iter == iter && p.betw.Length == s.numEdge
    ensures p.edgesToKill == MaxEdges(p.betw[..])
    ensures Selects(s.neighborsSet, s.severedPairs, s.vertToEdge, s.numVert, s.numEdge, p.edgesToKill)
    ensures forall e :: e in p.edgesToKill ==> 0 <= e < s.numEdge
    ensures p.Valid() && p.communitiesSet == map[] && p.vertCommunity == map[] && p.mod == 0.0
  {
    p := new Problem(s.numEdge, iter);
    ghost var runs := GetEdgesToKill(s, p);
  }

  /** The first half of a round: a fresh Problem whose edges of highest
      betweenness, over the live graph as the round finds it, are killed in
      round iter and severed; no other edge changes. */
  method KillRound(s: Solution, iter: int) returns (p: Problem)
    requires s.Valid() && iter >= 1
    modifies s, s.EdgeObjects
    ensures fresh(p) && fresh(p.betw) && p.iter == iter && p.betw.Length == s.numEdge
    ensures s.Valid() && p.edgesToKill == MaxEdges(p.betw[..])
    ensures Selects(s.neighborsSet, old(s.severedPairs), s.vertToEdge, s.numVert, s.numEdge, p.edgesToKill)
    ensures s.severedPairs == old(s.severedPairs) + EdgePairs(s.vertToEdge, p.edgesToKill)
    ensures forall e :: 0 <= e < s.numEdge ==>
              s.edgesData[e].alive == (old(s.edgesData[e].alive) && e !in p.edgesToKill)
    ensures forall e :: 0 <= e < s.numEdge ==>
              s.edgesData[e].iterKilled == (if e in p.edgesToKill then iter else old(s.edgesData[e].iterKilled))
    ensures p.Valid() && p.communitiesSet == map[] && p.vertCommunity == map[] && p.mod == 0.0
    ensures s.objList == old(s.objList) && s.killedEdgeList == old(s.killedEdgeList)
    ensures s.optIter == old(s.optIter) && s.optCommunitiesSet == old(s.optCommunitiesSet)
  {
    p := SelectRound(s, iter);
    ghost var betw := p.betw[..];
    KillEdges(s, p);
    assert p.betw[..] == betw;
  }

  /** No round before the last met solve's exit test. */
  ghost predicate Continued(objs: seq<real>, threshold: int)
  {
    forall k :: 1 <= k < |objs| ==> !Exits(objs[..k], threshold)
  }

  /** solve's control variables after the rounds whose objectives are objs
      and whose communities are comms: optObj is the best objective (minus
      infinity before the first round), currObj the last one, godMode the
      patience counter and optComms the communities of the latest best
      round. */
  ghost predicate Tracked(objs: seq<real>, comms: seq<map<int, set<int>>>, optObj: Option<real>,
                          currObj: real, godMode: int, optComms: map<int, set<int>>)
  {
    && |comms| == |objs|
    && (|objs| == 0 ==> optObj == None && currObj == 0.0 && godMode == 0)
    && (|objs| >= 1 ==>
          && optObj == Some(objs[OptIndex(objs)])
          && currObj == objs[|objs| - 1]
          && godMode == Patience(objs)
          && optComms == comms[OptIndex(objs)])
  }

  /** Recording a round's objective and communities as solve does keeps the
      control variables tracked, and the loop test passes exactly when the
      exit test fails. */
  lemma {:induction false} TrackRound(objs: seq<real>, comms: seq<map<int, set<int>>>, optObj: Option<real>,
                                      currObj: real, godMode: int, optComms: map<int, set<int>>,
                                      x: real, comm: map<int, set<int>>, threshold: int)
    requires Tracked(objs, comms, optObj, currObj, godMode, optComms)
    requires Continued(objs, threshold)
    requires |objs| >= 1 ==> AtLeast(currObj, optObj) || godMode < threshold
    ensures Tracked(objs + [x], comms + [comm],
                    if AtLeast(x, optObj) then Some(x) else optObj, x,
                    if AtLeast(x, optObj) then godMode else godMode + 1,
                    if AtLeast(x, optObj) then comm else optComms)
    ensures Continued(objs + [x], threshold)
    ensures (AtLeast(x, if AtLeast(x, optObj) then Some(x) else optObj)
              || (if AtLeast(x, optObj) then godMode else godMode + 1) < threshold)
            <==> !Exits(objs + [x], threshold)
  {
    var xs := objs + [x];
    assert xs[..|objs|] == objs;
    if |objs| == 0 {
      assert OptIndex(xs) == 0;
    } else {
      RecordRound(objs, x);
      assert !Exits(objs, threshold);
    }
    forall k | 1 <= k < |xs| ensures !Exits(xs[..k], threshold) {
      if k < |objs| {
        assert xs[..k] == objs[..k];
      }
    }
  }

  /** The severed pairs before round r (from 0): none before the first. */
  ghost function Before(cuts: seq<set<PairKey>>, r: int): set<PairKey>
    requires 0 <= r <= |cuts|
  {
    if r == 0 then {} else cuts[r - 1]
  }

  /** One round, on a graph adj with n vertices and the m edges numbered by
      vte, starting from the severed pairs before: it killed the edges
      kills that getEdgesToKill selects on the live graph it found, so its
      severed pairs cut are those found plus the pairs of kills. Its
      communities are the components of the live graph left, and its
      objective is their modularity. */
  ghost predicate Played(adj: Adjacency, m: int, vte: map<PairKey, int>, n: int, before: set<PairKey>,
                         obj: real, comm: map<int, set<int>>, cut: set<PairKey>, sd: seq<int>, kills: set<int>)
  {
    && Selects(adj, before, vte, n, m, kills)
    && cut == before + EdgePairs(vte, kills)
    && Seeded(adj, cut, comm, sd) && obj == Mod(adj, m, comm)
  }

  /** The rounds played so far, round r (from 0) starting from the severed
      pairs the round before it left. */
  ghost predicate History(adj: Adjacency, m: int, vte: map<PairKey, int>, n: int,
                          objs: seq<real>, comms: seq<map<int, set<int>>>,
                          cuts: seq<set<PairKey>>, seeds: seq<seq<int>>, kills: seq<set<int>>)
  {
    && |objs| == |comms| == |cuts| == |seeds| == |kills|
    && (forall r {:trigger objs[r]} :: 0 <= r < |objs| ==>
          Played(adj, m, vte, n, Before(cuts, r), objs[r], comms[r], cuts[r], seeds[r], kills[r]))
  }

  lemma HistoryAppend(adj: Adjacency, m: int, vte: map<PairKey, int>, n: int,
                      objs: seq<real>, comms: seq<map<int, set<int>>>,
                      cuts: seq<set<PairKey>>, seeds: seq<seq<int>>, kills: seq<set<int>>,
                      x: real, comm: map<int, set<int>>, cut: set<PairKey>, sd: seq<int>, k: set<int>)
    requires History(adj, m, vte, n, objs, comms, cuts, seeds, kills)
    requires Played(adj, m, vte, n, Before(cuts, |cuts|), x, comm, cut, sd, k)
    ensures History(adj, m, vte, n, objs + [x], comms + [comm], cuts + [cut], seeds + [sd], kills + [k])
  {
    var objs', comms', cuts', seeds', kills' := objs + [x], comms + [comm], cuts + [cut], seeds + [sd], kills + [k];
    forall r | 0 <= r < |objs'|
      ensures Played(adj, m, vte, n, Before(cuts', r), objs'[r], comms'[r], cuts'[r], seeds'[r], kills'[r])
    {
      if r < |objs| {
        assert Before(cuts', r) == Before(cuts, r);
        assert objs'[r] == objs[r] && comms'[r] == comms[r] && cuts'[r] == cuts[r];
        assert seeds'[r] == seeds[r] && kills'[r] == kills[r];
      } else {
        assert Before(cuts', r) == Before(cuts, |cuts|);
      }
    }
  }

  /** The severed pairs only grow from round to round. */
  lemma {:induction false} CutsGrow(adj: Adjacency, m: int, vte: map<PairKey, int>, n: int,
                                    objs: seq<real>, comms: seq<map<int, set<int>>>,
                                    cuts: seq<set<PairKey>>, seeds: seq<seq<int>>, kills: seq<set<int>>,
                                    r: int, t: int)
    requires History(adj, m, vte, n, objs, comms, cuts, seeds, kills)
    requires 0 <= r <= t < |cuts|
    ensures cuts[r] <= cuts[t]
    decreases t - r
  {
    if r < t {
      CutsGrow(adj, m, vte, n, objs, comms, cuts, seeds, kills, r, t - 1);
      assert Played(adj, m, vte, n, Before(cuts, t), objs[t], comms[t], cuts[t], seeds[t], kills[t]);
    }
  }

  /** When every objective is the same, the latest round is always a best
      one, so solve's exit test never passes. */
  lemma ConstantNeverExits(objs: seq<real>, threshold: int)
    requires |objs| >= 1 && forall r :: 0 <= r < |objs| ==> objs[r] == objs[0]
    ensures !Exits(objs, threshold) && OptIndex(objs) == |objs| - 1
  {
    var i := OptIndex(objs);
    assert objs[i] == objs[0] == objs[|objs| - 1];
  }

  /** Every objective is 0 when the graph has no edge. */
  ghost predicate ZeroIfEdgeless(m: int, objs: seq<real>)
  {
    m == 0 ==> forall r :: 0 <= r < |objs| ==> objs[r] == 0.0
  }

  lemma EdgelessRound(s: Solution, cut: set<PairKey>, comm: map<int, set<int>>, sd: seq<int>,
                      objs: seq<real>, x: real)
    requires s.Indexed() && Seeded(s.neighborsSet, cut, comm, sd)
    requires x == Mod(s.neighborsSet, s.numEdge, comm) && ZeroIfEdgeless(s.numEdge, objs)
    ensures ZeroIfEdgeless(s.numEdge, objs + [x])
  {
    if s.numEdge == 0 {
      EdgelessMod(s, cut, comm, sd);
    }
  }

  lemma EdgelessNeverExits(m: int, objs: seq<real>, threshold: int)
    requires ZeroIfEdgeless(m, objs)
    ensures m == 0 && |objs| >= 1 ==> !Exits(objs, threshold)
  {
    if m == 0 && |objs| >= 1 {
      ConstantNeverExits(objs, threshold);
    }
  }

  /** The round, counted from 1, that last killed edge e, or -1 when no
      round has. Once every edge is dead the source selects them all again
      and stamps them with the new round, so it is the last round that
      counts. */
  ghost function Stamp(kills: seq<set<int>>, e: int): (r: int)
    ensures r == -1 || 1 <= r <= |kills|
    ensures r == -1 <==> forall i :: 0 <= i < |kills| ==> e !in kills[i]
    ensures r >= 1 ==> e in kills[r - 1] && forall i :: r <= i < |kills| ==> e !in kills[i]
  {
    if |kills| == 0 then -1
    else if e in kills[|kills| - 1] then |kills|
    else Stamp(kills[..|kills| - 1], e)
  }

  /** A round that kills e stamps it with its own number; otherwise the
      stamp is the one before. */
  lemma StampNext(kills: seq<set<int>>, k: set<int>, e: int)
    ensures Stamp(kills + [k], e) == if e in k then |kills| + 1 else Stamp(kills, e)
  {
    assert (kills + [k])[..|kills|] == kills;
  }

  /** Every edge record agrees with the kill history: iterKilled is the
      round that last killed the edge, and the edge is alive exactly when
      no round has. */
  ghost predicate Stamped(s: Solution, kills: seq<set<int>>)
    requires s.Indexed()
    reads s.edgesData, s.EdgeObjects
  {
    forall e :: 0 <= e < s.numEdge ==>
      s.edgesData[e].iterKilled == Stamp(kills, e) && (s.edgesData[e].alive <==> Stamp(kills, e) == -1)
  }

  /** One pass of solve's loop body: play round iter, record its objective
      and killed edges, and update the best objective, the best communities
      and the patience counter. */
  method PlayRound(s: Solution, iter: int, optObj: Option<real>, godMode: int)
      returns (optObj': Option<real>, godMode': int, currObj: real,
               ghost comm: map<int, set<int>>, ghost seeds: seq<int>, ghost kills: set<int>)
    requires s.Valid() && iter >= 1
    modifies s, s.EdgeObjects
    ensures s.Valid()
    ensures Selects(s.neighborsSet, old(s.severedPairs), s.vertToEdge, s.numVert, s.numEdge, kills)
    ensures s.severedPairs == old(s.severedPairs) + EdgePairs(s.vertToEdge, kills)
    ensures Seeded(s.neighborsSet, s.severedPairs, comm, seeds)
    ensures currObj == Mod(s.neighborsSet, s.numEdge, comm)
    ensures s.objList == old(s.objList) + [currObj]
    ensures s.killedEdgeList == old(s.killedEdgeList) + [kills]
    ensures forall e :: 0 <= e < s.numEdge ==> s.edgesData[e].alive == (old(s.edgesData[e].alive) && e !in kills)
    ensures forall e :: 0 <= e < s.numEdge ==>
              s.edgesData[e].iterKilled == (if e in kills then iter else old(s.edgesData[e].iterKilled))
    ensures optObj' == (if AtLeast(currObj, optObj) then Some(currObj) else optObj)
    ensures godMode' == (if AtLeast(currObj, optObj) then godMode else godMode + 1)
    ensures s.optCommunitiesSet == (if AtLeast(currObj, optObj) then comm else old(s.optCommunitiesSet))
  {
    var p, sd := Round(s, iter);
    comm, seeds, kills := p.communitiesSet, sd, p.edgesToKill;
    currObj := p.mod;
    optObj', godMode' := RecordResult(s, p.mod, p.edgesToKill, p.communitiesSet, optObj, godMode);
  }

  /** The bookkeeping at the end of solve's loop body: the round's result
      goes into the histories, and a round at least as good as optObj
      becomes the best one; otherwise godMode grows. */
  method RecordResult(s: Solution, obj: real, killed: set<int>, comm: map<int, set<int>>,
                      optObj: Option<real>, godMode: int)
      returns (optObj': Option<real>, godMode': int)
    requires s.Valid()
    modifies s
    ensures s.Valid() && s.severedPairs == old(s.severedPairs)
    ensures forall e :: 0 <= e < s.numEdge ==>
              s.edgesData[e].alive == old(s.edgesData[e].alive) && s.edgesData[e].iterKilled == old(s.edgesData[e].iterKilled)
    ensures s.objList == old(s.objList) + [obj]
    ensures s.killedEdgeList == old(s.killedEdgeList) + [killed]
    ensures optObj' == (if AtLeast(obj, optObj) then Some(obj) else optObj)
    ensures godMode' == (if AtLeast(obj, optObj) then godMode else godMode + 1)
    ensures s.optCommunitiesSet == (if AtLeast(obj, optObj) then comm else old(s.optCommunitiesSet))
  {
    s.AddResultAndSetOpt(obj, killed);
    optObj', godMode' := optObj, godMode;
    if AtLeast(obj, optObj) {
      optObj' := Some(obj);
      s.SetOptCommSets(comm);
    } else {
      godMode' := godMode + 1;
    }
  }

  /** What solve's loop keeps: the history of the rounds played, the
      control variables tracking it, the exit test failing before the last
      round and agreeing with the loop test after it, the severed pairs
      being those the last round left, and all-zero objectives on an
      edgeless graph. */
  ghost predicate Looping(adj: Adjacency, m: int, vte: map<PairKey, int>, n: int, threshold: int,
                          objs: seq<real>, comms: seq<map<int, set<int>>>,
                          cuts: seq<set<PairKey>>, seeds: seq<seq<int>>, kills: seq<set<int>>,
                          optObj: Option<real>, currObj: real, godMode: int,
                          optComms: map<int, set<int>>, severed: set<PairKey>)
  {
    && History(adj, m, vte, n, objs, comms, cuts, seeds, kills)
    && Tracked(objs, comms, optObj, currObj, godMode, optComms)
    && Continued(objs, threshold)
    && (|objs| >= 1 ==> (AtLeast(currObj, optObj) || godMode < threshold) == !Exits(objs, threshold))
    && severed == Before(cuts, |cuts|)
    && ZeroIfEdgeless(m, objs)
  }

  /** A round played as PlayRound plays it keeps Looping. */
  lemma LoopStep(adj: Adjacency, m: int, vte: map<PairKey, int>, n: int, threshold: int,
                 objs: seq<real>, comms: seq<map<int, set<int>>>,
                 cuts: seq<set<PairKey>>, seeds: seq<seq<int>>, kills: seq<set<int>>,
                 optObj: Option<real>, currObj: real, godMode: int,
                 optComms: map<int, set<int>>, severed: set<PairKey>,
                 x: real, comm: map<int, set<int>>, cut: set<PairKey>, sd: seq<int>, k: set<int>,
                 optObj': Option<real>, godMode': int, optComms': map<int, set<int>>)
    requires Looping(adj, m, vte, n, threshold, objs, comms, cuts, seeds, kills,
                     optObj, currObj, godMode, optComms, severed)
    requires AtLeast(currObj, optObj) || godMode < threshold
    requires Played(adj, m, vte, n, severed, x, comm, cut, sd, k)
    requires ZeroIfEdgeless(m, objs + [x])
    requires optObj' == (if AtLeast(x, optObj) then Some(x) else optObj)
    requires godMode' == (if AtLeast(x, optObj) then godMode else godMode + 1)
    requires optComms' == (if AtLeast(x, optObj) then comm else optComms)
    ensures Looping(adj, m, vte, n, threshold, objs + [x], comms + [comm], cuts + [cut], seeds + [sd],
                    kills + [k], optObj', x, godMode', optComms', cut)
  {
    TrackRound(objs, comms, optObj, currObj, godMode, optComms, x, comm, threshold);
    HistoryAppend(adj, m, vte, n, objs, comms, cuts, seeds, kills, x, comm, cut, sd, k);
  }

  /** Appending to a sequence behind a fixed head. */
  lemma AppendBehind<T>(h: T, xs: seq<T>, x: T)
    ensures [h] + (xs + [x]) == [h] + xs + [x]
  {
  }

  /** solve, run for at most maxRounds rounds. Round r (from 1) kills the
      edges of highest betweenness, records the modularity of the live
      graph's communities, and keeps the communities of the latest round
      whose objective is at least every earlier one. The loop goes on while
      the last objective reaches the best so far or fewer than threshold
      rounds have fallen short of it; a graph on which that never fails makes
      the source loop forever, hence the bound. objs, comms, cuts, seeds and
      kills are the objective, communities, severed pairs, community seeds
      and killed edges of each round. */
  method Solve(graph: Graph, threshold: int, maxRounds: nat)
      returns (s: Solution, ghost objs: seq<real>, ghost comms: seq<map<int, set<int>>>,
               ghost cuts: seq<set<PairKey>>, ghost seeds: seq<seq<int>>, ghost kills: seq<set<int>>)
    requires graph.Valid()
    requires forall v :: v in graph.neighborsSet <==> 0 <= v < graph.numVertex
    requires forall v :: v in graph.neighborsSet ==> v !in graph.neighborsSet[v]
    ensures s.Valid() && s.neighborsSet == old(graph.neighborsSet)
    ensures s.objList == [0.0] + objs && s.killedEdgeList == [{}] + kills
    ensures |objs| <= maxRounds && (maxRounds >= 1 ==> |objs| >= 1)
    ensures History(s.neighborsSet, s.numEdge, s.vertToEdge, s.numVert, objs, comms, cuts, seeds, kills)
    ensures s.severedPairs == Before(cuts, |cuts|)
    ensures Stamped(s, kills)
    ensures |objs| >= 1 ==> s.optCommunitiesSet == comms[OptIndex(objs)]
    ensures Continued(objs, threshold)
    ensures 1 <= |objs| < maxRounds ==> Exits(objs, threshold)
    ensures s.numEdge == 0 ==> |objs| == maxRounds && forall r :: 0 <= r < |objs| ==> objs[r] == 0.0
  {
    s := new Solution(graph);
    objs, comms, cuts, seeds, kills := [], [], [], [], [];
    var optObj: Option<real> := None;
    var currObj: real := 0.0;
    var currIter := 1;
    var godMode := 0;
    while (AtLeast(currObj, optObj) || godMode < threshold) && currIter <= maxRounds
      invariant s.Valid() && s.neighborsSet == old(graph.neighborsSet)
      invariant s.objList == [0.0] + objs && s.killedEdgeList == [{}] + kills && currIter == |objs| + 1
      invariant |objs| <= maxRounds
      invariant Looping(s.neighborsSet, s.numEdge, s.vertToEdge, s.numVert, threshold, objs, comms, cuts, seeds,
                        kills, optObj, currObj, godMode, s.optCommunitiesSet, s.severedPairs)
      invariant Stamped(s, kills)
      decreases maxRounds - currIter
    {
      ghost var optComms, cut0 := s.optCommunitiesSet, s.severedPairs;
      var optObj', godMode', x, comm, sd, k := PlayRound(s, currIter, optObj, godMode);
      forall e | 0 <= e < s.numEdge
        ensures s.edgesData[e].iterKilled == Stamp(kills + [k], e)
        ensures s.edgesData[e].alive <==> Stamp(kills + [k], e) == -1
      {
        StampNext(kills, k, e);
      }
      EdgelessRound(s, s.severedPairs, comm, sd, objs, x);
      LoopStep(s.neighborsSet, s.numEdge, s.vertToEdge, s.numVert, threshold, objs, comms, cuts, seeds, kills,
               optObj, currObj, godMode, optComms, cut0, x, comm, s.severedPairs, sd, k,
               optObj', godMode', s.optCommunitiesSet);
      AppendBehind(0.0, objs, x);
      AppendBehind({}, kills, k);
      objs, comms, cuts, seeds, kills := objs + [x], comms + [comm], cuts + [s.severedPairs], seeds + [sd], kills + [k];
      optObj, godMode, currObj := optObj', godMode', x;
      currIter := currIter + 1;
    }
    EdgelessNeverExits(s.numEdge, objs, threshold);
  }
}

/** The reverse pass of Solver.incFlowAndBetwViaBFS
    (girvannewman/Solver.java:117-126) stated over a finished BFS layering:
    popping the stack from its top, each vertex adds its own unit of flow and
    hands its flow to its upstream vertices in proportion to their path
    counts, crediting the connecting edge. The invariant says how much flow
    each vertex holds once a suffix of the stack has been popped, and how
    much betweenness each pair has received. */
module Credits {
  import opened VertexPairs
  import opened SetSums
  import opened Flows

  /** The finished layering seen from the reverse pass: the stack lists
      every record once, in level order; downstream and upstream links are
      mirror images joining adjacent levels; every record has a path and no
      flow yet. */
  ghost predicate Dag(F0: FlowTable, stack: seq<int>)
  {
    && (forall x :: x in F0 ==> x in stack)
    && (forall i :: 0 <= i < |stack| ==> stack[i] in F0)
    && (forall i, j :: 0 <= i < j < |stack| ==> stack[i] != stack[j])
    && (forall i, j :: 0 <= i < j < |stack| ==> F0[stack[i]].level <= F0[stack[j]].level)
    && (forall x, d :: x in F0 && d in F0[x].downstream ==>
          d in F0 && x in F0[d].upstream && F0[d].level == F0[x].level + 1)
    && (forall x, u :: x in F0 && u in F0[x].upstream ==>
          u in F0 && x in F0[u].downstream && F0[u].level + 1 == F0[x].level)
    && (forall x :: x in F0 ==> F0[x].pathCount >= 1 && F0[x].flowCount == 0.0)
  }

  /** The unit of flow a vertex adds for itself: one, except at the source. */
  ghost function Own(F0: FlowTable, x: int): real
    requires x in F0
  {
    if F0[x].upstream == {} then 0.0 else 1.0
  }

  /** What d hands to x out of the flow it holds in F. */
  ghost function Recv(F0: FlowTable, F: FlowTable, d: int, x: int): real
  {
    if d in F0 && d in F && F0[d].pathCount > 0
    then Share(F[d].flowCount, F0[d].pathCount, PathCountOf(F0, x))
    else 0.0
  }

  /** What x receives from the vertices of S. */
  ghost function Inflow(F0: FlowTable, F: FlowTable, x: int, S: set<int>): real
  {
    SumReal(S, d => Recv(F0, F, d, x))
  }

  /** P holds exactly the vertices of stack[k..], those already popped. */
  ghost predicate PoppedAt(stack: seq<int>, P: set<int>, k: int)
  {
    && 0 <= k <= |stack|
    && (forall i :: 0 <= i < |stack| ==> (stack[i] in P <==> k <= i))
    && (forall x :: x in P ==> x in stack)
  }

  /** F is the layering with flows filled in, none of them negative. */
  ghost predicate Shape(F0: FlowTable, F: FlowTable)
  {
    && F.Keys == F0.Keys
    && (forall x :: x in F ==> F[x] == F0[x].(flowCount := F[x].flowCount) && F[x].flowCount >= 0.0)
  }

  /** Flow balance: each vertex holds what its popped downstream vertices
      handed it, plus its own unit once it has been popped itself. */
  ghost predicate Balanced(F0: FlowTable, F: FlowTable, P: set<int>)
    requires F0.Keys <= F.Keys
  {
    forall x :: x in F0 ==>
      F[x].flowCount == (if x in P then Own(F0, x) else 0.0) + Inflow(F0, F, x, F0[x].downstream * P)
  }

  /** The betweenness pair k has received: the share its upper end handed
      its lower end, once the lower end has been popped. */
  ghost function Credit(F0: FlowTable, F: FlowTable, P: set<int>, k: PairKey): real
  {
    if k.hi in P && k.hi in F0 && k.lo in F0[k.hi].upstream then Recv(F0, F, k.hi, k.lo)
    else if k.lo in P && k.lo in F0 && k.hi in F0[k.lo].upstream then Recv(F0, F, k.lo, k.hi)
    else 0.0
  }

  /** Before any pop: no flow anywhere and no credit. */
  lemma StartBalanced(F0: FlowTable, stack: seq<int>)
    requires Dag(F0, stack)
    ensures Shape(F0, F0) && PoppedAt(stack, {}, |stack|) && Balanced(F0, F0, {})
    ensures forall k :: Credit(F0, F0, {}, k) == 0.0
  {
    forall x | x in F0 ensures Inflow(F0, F0, x, F0[x].downstream * {}) == 0.0 {
      assert F0[x].downstream * {} == {};
      SumRealZero({}, d => Recv(F0, F0, d, x));
    }
  }

  /** The vertex popped at position k - 1: its downstream vertices are all
      popped and none of its upstream vertices is. */
  lemma PopOrder(F0: FlowTable, stack: seq<int>, P: set<int>, k: int)
    requires Dag(F0, stack) && PoppedAt(stack, P, k) && k >= 1
    ensures stack[k - 1] in F0 && stack[k - 1] !in P
    ensures forall d :: d in F0[stack[k - 1]].downstream ==> d in P
    ensures forall u :: u in F0[stack[k - 1]].upstream ==> u !in P && u != stack[k - 1]
  {
    var x := stack[k - 1];
    forall d | d in F0[x].downstream ensures d in P {
      assert d in stack;
      var j :| 0 <= j < |stack| && stack[j] == d;
    }
    forall u | u in F0[x].upstream ensures u !in P && u != x {
      assert u in stack;
      var j :| 0 <= j < |stack| && stack[j] == u;
    }
  }

  /** What incUpstreamFlow needs of the vertex on top of the stack. */
  lemma PopReady(F0: FlowTable, stack: seq<int>, k: int, x: int, F: FlowTable)
    requires Dag(F0, stack) && Shape(F0, F) && 1 <= k <= |stack| && x == stack[k - 1]
    ensures x in F0 && x in F && F[x].upstream == F0[x].upstream && F[x].upstream <= F.Keys
    ensures x !in F[x].upstream && F[x].pathCount >= 1
  {
    assert x in F0;
    forall u | u in F[x].upstream ensures u in F && u != x {
      assert u in F0;
    }
  }

  /** Once the whole stack is popped, every record has been. */
  lemma AllPopped(F0: FlowTable, stack: seq<int>, P: set<int>)
    requires Dag(F0, stack) && PoppedAt(stack, P, 0)
    ensures P == F0.Keys
  {
    forall x | x in F0 ensures x in P {
      assert x in stack;
      var i :| 0 <= i < |stack| && stack[i] == x;
    }
    forall x | x in P ensures x in F0 {
      assert x in stack;
      var i :| 0 <= i < |stack| && stack[i] == x;
    }
  }

  /** The effect of incUpstreamFlow on x, as its contract states it. */
  ghost predicate Handed(F: FlowTable, x: int, F1: FlowTable, betwInc: map<PairKey, real>)
    requires x in F && F[x].pathCount > 0
  {
    && F1.Keys == F.Keys
    && F1[x] == F[x].(flowCount := F[x].flowCount + if F[x].upstream == {} then 0.0 else 1.0)
    && (forall u :: u in F && u !in F[x].upstream && u != x ==> F1[u] == F[u])
    && (forall u :: u in F[x].upstream ==>
          u in F && F1[u] == F[u].(flowCount := F[u].flowCount + ShareOf(F, x, F1[x].flowCount, u)))
    && betwInc.Keys == (set u | u in F[x].upstream :: Pair(x, u))
    && (forall u :: u in F[x].upstream ==> betwInc[Pair(x, u)] == ShareOf(F, x, F1[x].flowCount, u))
  }

  /** One pop, in the terms of the layering: x gains its own unit, each
      upstream vertex u gains what x hands it, nothing else changes; x's
      downstream vertices are popped, its upstream vertices are not; shares
      handed by any other vertex are unchanged. */
  ghost predicate Pop(F0: FlowTable, F: FlowTable, F1: FlowTable, P: set<int>, x: int)
  {
    && x in F0 && x !in P && F0.Keys == F.Keys == F1.Keys
    && F1[x].flowCount == F[x].flowCount + Own(F0, x)
    && (forall u :: u in F0[x].upstream ==>
          u in F0 && u !in P && u != x && F1[u].flowCount == F[u].flowCount + Recv(F0, F1, x, u))
    && (forall w :: w in F0 && w != x && w !in F0[x].upstream ==> F1[w].flowCount == F[w].flowCount)
    && (forall d :: d in F0[x].downstream ==> d in P)
    && (forall w :: w in F0 ==> (x in F0[w].downstream <==> w in F0[x].upstream))
    && (forall d, y :: d != x && d !in F0[x].upstream ==> Recv(F0, F1, d, y) == Recv(F0, F, d, y))
  }

  /** What x hands each upstream vertex is the share it receives. */
  lemma HandedShares(F0: FlowTable, F: FlowTable, x: int, F1: FlowTable, betwInc: map<PairKey, real>)
    requires Shape(F0, F) && x in F0 && F0[x].pathCount > 0
    requires Handed(F, x, F1, betwInc)
    ensures forall u :: u in F0[x].upstream ==>
              ShareOf(F, x, F1[x].flowCount, u) == Recv(F0, F1, x, u)
    ensures forall u :: u in F0[x].upstream ==> betwInc[Pair(x, u)] == Recv(F0, F1, x, u)
  {
  }

  lemma PopFacts(F0: FlowTable, stack: seq<int>, P: set<int>, k: int, x: int, F: FlowTable,
                 F1: FlowTable, betwInc: map<PairKey, real>)
    requires Dag(F0, stack) && PoppedAt(stack, P, k) && k >= 1 && x == stack[k - 1]
    requires Shape(F0, F) && x in F0
    requires Handed(F, x, F1, betwInc)
    ensures Pop(F0, F, F1, P, x)
    ensures Shape(F0, F1) && PoppedAt(stack, P + {x}, k - 1)
    ensures betwInc.Keys == (set u | u in F0[x].upstream :: Pair(x, u))
    ensures forall u :: u in F0[x].upstream ==>
              betwInc[Pair(x, u)] == Recv(F0, F1, x, u)
    ensures forall q :: q in betwInc ==> betwInc[q] >= 0.0
  {
    PopOrder(F0, stack, P, k);
    HandedShares(F0, F, x, F1, betwInc);
    forall i | 0 <= i < |stack| ensures stack[i] in P + {x} <==> k - 1 <= i {
    }
  }

  /** Popping x keeps the balance of flows. */
  lemma PopBalanced(F0: FlowTable, F: FlowTable, F1: FlowTable, P: set<int>, x: int)
    requires Pop(F0, F, F1, P, x) && Balanced(F0, F, P)
    ensures Balanced(F0, F1, P + {x})
  {
    var P' := P + {x};
    var U := F0[x].upstream;
    forall w | w in F0
      ensures F1[w].flowCount == (if w in P' then Own(F0, w) else 0.0) + Inflow(F0, F1, w, F0[w].downstream * P')
    {
      var S := F0[w].downstream * P;
      SumRealCongruence(S, d => Recv(F0, F1, d, w), d => Recv(F0, F, d, w));
      if w == x {
        assert F0[w].downstream * P' == S;
      } else if w in U {
        assert F0[w].downstream * P' == S + {x};
        SumRealRemove(S + {x}, d => Recv(F0, F1, d, w), x);
        assert S + {x} - {x} == S;
      } else {
        assert F0[w].downstream * P' == S;
      }
    }
  }

  /** The pair of x and one of its upstream vertices had no credit and
      gets what x hands across it. */
  lemma CreditNew(F0: FlowTable, F: FlowTable, F1: FlowTable, P: set<int>, x: int, u: int)
    requires x in F0 && u in F0[x].upstream && x !in P && u !in P && u != x
    ensures Credit(F0, F, P, Pair(x, u)) == 0.0
    ensures Credit(F0, F1, P + {x}, Pair(x, u)) == Recv(F0, F1, x, u)
  {
  }

  /** Every other pair keeps its credit. */
  lemma CreditKept(F0: FlowTable, F: FlowTable, F1: FlowTable, P: set<int>, x: int, q: PairKey)
    requires Pop(F0, F, F1, P, x)
    requires !(q.hi == x && q.lo in F0[x].upstream) && !(q.lo == x && q.hi in F0[x].upstream)
    ensures Credit(F0, F1, P + {x}, q) == Credit(F0, F, P, q)
  {
  }

  /** Popping x credits exactly the pairs joining x to its upstream
      vertices, each with the share it received; every other pair keeps its
      credit. */
  lemma PopCredit(F0: FlowTable, F: FlowTable, F1: FlowTable, P: set<int>, x: int,
                  betwInc: map<PairKey, real>)
    requires Pop(F0, F, F1, P, x)
    requires betwInc.Keys == (set u | u in F0[x].upstream :: Pair(x, u))
    requires forall u :: u in F0[x].upstream ==> betwInc[Pair(x, u)] == Recv(F0, F1, x, u)
    ensures forall q :: q in betwInc ==>
              Credit(F0, F1, P + {x}, q) == Credit(F0, F, P, q) + betwInc[q]
    ensures forall q :: q !in betwInc && q.lo <= q.hi ==> Credit(F0, F1, P + {x}, q) == Credit(F0, F, P, q)
  {
    var U := F0[x].upstream;
    forall q | q in betwInc
      ensures Credit(F0, F1, P + {x}, q) == Credit(F0, F, P, q) + betwInc[q]
    {
      var u :| u in U && q == Pair(x, u);
      CreditNew(F0, F, F1, P, x, u);
    }
    forall q | q !in betwInc && q.lo <= q.hi
      ensures Credit(F0, F1, P + {x}, q) == Credit(F0, F, P, q)
    {
      CreditKept(F0, F, F1, P, x, q);
    }
  }

  /** The hand-offs of a finished layering: (d, u) for each vertex d and
      each of its upstream vertices u. */
  ghost function Handoffs(F0: FlowTable): set<(int, int)>
  {
    set d, u | d in F0 && u in F0[d].upstream :: (d, u)
  }

  /** The flow x holds, 0 without a record. */
  ghost function Held(F: FlowTable, x: int): real
  {
    if x in F then F[x].flowCount else 0.0
  }

  /** The flow x holds beyond its own unit. */
  ghost function Surplus(F0: FlowTable, F: FlowTable, x: int): real
  {
    if x in F0 then Held(F, x) - Own(F0, x) else 0.0
  }

  /** Held, Surplus and Carried as function values, one term per table. */
  ghost function HeldOf(F: FlowTable): int -> real
  {
    x => Held(F, x)
  }

  ghost function SurplusOf(F0: FlowTable, F: FlowTable): int -> real
  {
    x => Surplus(F0, F, x)
  }

  ghost function CarriedOf(F0: FlowTable, F: FlowTable): ((int, int)) -> real
  {
    e => Carried(F0, F, e)
  }

  /** What one hand-off carries. */
  ghost function Carried(F0: FlowTable, F: FlowTable, e: (int, int)): real
  {
    Recv(F0, F, e.0, e.1)
  }

  /** The vertex a hand-off leaves. */
  ghost function Giver(e: (int, int)): int
  {
    e.0
  }

  /** The vertex a hand-off reaches. */
  ghost function Taker(e: (int, int)): int
  {
    e.1
  }

  /** The hand-off from d to u, as a function of u. */
  ghost function From(d: int): int -> (int, int)
  {
    u => (d, u)
  }

  /** The hand-off from d to u, as a function of d. */
  ghost function Into(u: int): int -> (int, int)
  {
    d => (d, u)
  }

  /** The hand-offs leaving d go to its upstream vertices, one each. */
  lemma GiverFibre(F0: FlowTable, d: int)
    requires d in F0
    ensures forall u :: u in F0[d].upstream ==> From(d)(u) in Fibre(Handoffs(F0), Giver, d)
    ensures forall e :: e in Fibre(Handoffs(F0), Giver, d) ==> exists u :: u in F0[d].upstream && From(d)(u) == e
  {
    forall e | e in Fibre(Handoffs(F0), Giver, d) ensures exists u :: u in F0[d].upstream && From(d)(u) == e {
      assert From(d)(e.1) == e;
    }
  }

  /** The hand-offs reaching u come from its downstream vertices, one
      each, all of them in the layering. */
  lemma TakerFibre(F0: FlowTable, stack: seq<int>, u: int)
    requires Dag(F0, stack) && u in F0
    ensures F0[u].downstream <= F0.Keys
    ensures forall d :: d in F0[u].downstream ==> Into(u)(d) in Fibre(Handoffs(F0), Taker, u)
    ensures forall e :: e in Fibre(Handoffs(F0), Taker, u) ==> exists d :: d in F0[u].downstream && Into(u)(d) == e
  {
    forall d | d in F0[u].downstream ensures d in F0 && Into(u)(d) in Fibre(Handoffs(F0), Taker, u) {
      assert u in F0[d].upstream;
    }
    forall e | e in Fibre(Handoffs(F0), Taker, u) ensures exists d :: d in F0[u].downstream && Into(u)(d) == e {
      assert e.0 in F0 && u in F0[e.0].upstream;
      assert Into(u)(e.0) == e;
    }
  }

  /** What d hands upstream in total: its whole flow, or nothing at the
      source. */
  lemma GiverSum(F0: FlowTable, F: FlowTable, d: int, src: int)
    requires d in F0 && d in F && F0[d].pathCount >= 1
    requires d == src ==> F0[d].upstream == {}
    requires d != src ==> F0[d].pathCount == PathSum(F0, F0[d].upstream)
    ensures SumReal(Fibre(Handoffs(F0), Giver, d), CarriedOf(F0, F)) == if d == src then 0.0 else Held(F, d)
  {
    var up := F0[d].upstream;
    var h := u => ShareOf(F0, d, F[d].flowCount, u);
    GiverFibre(F0, d);
    forall u | u in up ensures CarriedOf(F0, F)((d, u)) == h(u) {
    }
    SumRealImage(up, From(d), Fibre(Handoffs(F0), Giver, d), CarriedOf(F0, F), h);
    if d == src {
      SumRealZero(up, h);
    } else {
      assert SumReal(up, h) == F[d].flowCount by {
        SharesSumToFlow(F0, d, F[d].flowCount);
      }
    }
  }

  /** What u receives in total: its flow beyond its own unit. */
  lemma TakerSum(F0: FlowTable, F: FlowTable, stack: seq<int>, u: int)
    requires Dag(F0, stack) && Shape(F0, F) && Balanced(F0, F, F0.Keys) && u in F0
    ensures SumReal(Fibre(Handoffs(F0), Taker, u), CarriedOf(F0, F)) == Surplus(F0, F, u)
  {
    var down := F0[u].downstream;
    TakerFibre(F0, stack, u);
    assert forall x :: x in down ==> Into(u)(x) in Fibre(Handoffs(F0), Taker, u);
    forall d | d in down ensures CarriedOf(F0, F)((d, u)) == Recv(F0, F, d, u) {
    }
    SumRealImage(down, Into(u), Fibre(Handoffs(F0), Taker, u), CarriedOf(F0, F), d => Recv(F0, F, d, u));
    assert down * F0.Keys == down;
  }

  /** Grouped by the vertex handing flow up, the hand-offs carry the whole
      flow of every vertex but the source. */
  lemma HandedUp(F0: FlowTable, F: FlowTable, stack: seq<int>, src: int)
    requires Dag(F0, stack) && Shape(F0, F)
    requires src in F0 && F0[src].upstream == {}
    requires forall d :: d in F0 && d != src ==>
               F0[d].upstream != {} && F0[d].pathCount == PathSum(F0, F0[d].upstream)
    ensures SumReal(Handoffs(F0), CarriedOf(F0, F)) == SumReal(F0.Keys - {src}, HeldOf(F))
  {
    var g := CarriedOf(F0, F);
    SumRealFibres(F0.Keys, Handoffs(F0), Giver, g);
    var out := d => if d == src then 0.0 else Held(F, d);
    forall d | d in F0 ensures SumReal(Fibre(Handoffs(F0), Giver, d), g) == out(d) {
      GiverSum(F0, F, d, src);
    }
    SumRealCongruence(F0.Keys, k => SumReal(Fibre(Handoffs(F0), Giver, k), g), out);
    SumRealRemove(F0.Keys, out, src);
    SumRealCongruence(F0.Keys - {src}, out, HeldOf(F));
  }

  /** Grouped by the vertex receiving flow, the hand-offs carry what every
      vertex holds beyond its own unit. */
  lemma HandedIn(F0: FlowTable, F: FlowTable, stack: seq<int>)
    requires Dag(F0, stack) && Shape(F0, F) && Balanced(F0, F, F0.Keys)
    ensures SumReal(Handoffs(F0), CarriedOf(F0, F)) == SumReal(F0.Keys, SurplusOf(F0, F))
  {
    var g := CarriedOf(F0, F);
    SumRealFibres(F0.Keys, Handoffs(F0), Taker, g);
    forall u | u in F0 ensures SumReal(Fibre(Handoffs(F0), Taker, u), g) == Surplus(F0, F, u) {
      TakerSum(F0, F, stack, u);
    }
    SumRealCongruence(F0.Keys, k => SumReal(Fibre(Handoffs(F0), Taker, k), g), SurplusOf(F0, F));
  }

  /** The source holds one unit of flow per other vertex of the layering:
      counted by giver and by taker, the hand-offs carry the same total. */
  lemma SourceHolds(F0: FlowTable, F: FlowTable, stack: seq<int>, src: int)
    requires Dag(F0, stack) && Shape(F0, F) && Balanced(F0, F, F0.Keys)
    requires src in F0 && F0[src].upstream == {}
    requires forall d :: d in F0 && d != src ==>
               F0[d].upstream != {} && F0[d].pathCount == PathSum(F0, F0[d].upstream)
    ensures F[src].flowCount == (|F0.Keys| - 1) as real
  {
    var rest := F0.Keys - {src};
    HandedUp(F0, F, stack, src);
    HandedIn(F0, F, stack);
    SumRealRemove(F0.Keys, SurplusOf(F0, F), src);
    OthersSurplus(F0, F, src);
    assert SurplusOf(F0, F)(src) == F[src].flowCount;
    Balance(F[src].flowCount, SumReal(rest, HeldOf(F)), SumReal(rest, SurplusOf(F0, F)), |rest|);
  }

  /** Every vertex but the source adds its own unit, so beyond it they
      hold their flows less one unit each. */
  lemma OthersSurplus(F0: FlowTable, F: FlowTable, src: int)
    requires forall d :: d in F0 && d != src ==> F0[d].upstream != {}
    ensures SumReal(F0.Keys - {src}, SurplusOf(F0, F))
         == SumReal(F0.Keys - {src}, HeldOf(F)) - |F0.Keys - {src}| as real
  {
    forall d | d in F0.Keys - {src} ensures SurplusOf(F0, F)(d) == HeldOf(F)(d) - 1.0 {
      assert Own(F0, d) == 1.0;
    }
    SumRealLessOnes(F0.Keys - {src}, HeldOf(F), SurplusOf(F0, F));
  }

  /** The bookkeeping behind SourceHolds: the hand-offs total the other
      vertices' flows, and also the source's flow plus their flows less
      one unit each. */
  lemma Balance(atSource: real, others: real, surplus: real, n: int)
    requires surplus == others - n as real
    requires others == atSource + surplus
    ensures atSource == n as real
  {
  }

  /** The link from the source to a downstream vertex n is credited with
      what n hands the source. */
  lemma SourceLinkCredit(F0: FlowTable, F: FlowTable, stack: seq<int>, src: int, n: int)
    requires Dag(F0, stack) && src in F0 && F0[src].upstream == {} && n in F0[src].downstream
    ensures n in F0
    ensures Credit(F0, F, F0.Keys, Pair(src, n)) == Recv(F0, F, n, src)
  {
  }

  /** Conservation of flow: every vertex but the source adds one unit and
      all of it reaches the source, so the source ends up holding one unit
      per other vertex of the layering, and the credits on the links to its
      downstream vertices add up to that number. */
  lemma SourceFlow(F0: FlowTable, F: FlowTable, stack: seq<int>, src: int)
    requires Dag(F0, stack) && Shape(F0, F) && Balanced(F0, F, F0.Keys)
    requires src in F0 && F0[src].upstream == {}
    requires forall d :: d in F0 && d != src ==>
               F0[d].upstream != {} && F0[d].pathCount == PathSum(F0, F0[d].upstream)
    ensures F[src].flowCount == (|F0.Keys| - 1) as real
    ensures SumReal(F0[src].downstream, n => Credit(F0, F, F0.Keys, Pair(src, n))) == (|F0.Keys| - 1) as real
  {
    SourceHolds(F0, F, stack, src);
    var down := F0[src].downstream;
    forall n | n in down ensures n in F0 && Credit(F0, F, F0.Keys, Pair(src, n)) == Recv(F0, F, n, src) {
      SourceLinkCredit(F0, F, stack, src, n);
    }
    TakerFibre(F0, stack, src);
    assert down * F0.Keys == down;
    SumRealCongruence(down, n => Credit(F0, F, F0.Keys, Pair(src, n)), d => Recv(F0, F, d, src));
  }

  /** The layering of the pass from 0 on the path 0 - 1 - 2 and the flows
      its reverse pass leaves: 2 holds its own unit, 1 its own and 2's, and
      the source 0 what 1 hands it. */
  ghost predicate PathPass(F0: FlowTable, F: FlowTable)
  {
    && F0.Keys == {0, 1, 2} && F.Keys == {0, 1, 2}
    && F0[0] == FlowData(0, 1, {}, {1}, 1, 0.0) && F[0] == F0[0].(flowCount := 2.0)
    && F0[1] == FlowData(1, 2, {0}, {2}, 1, 0.0) && F[1] == F0[1].(flowCount := 2.0)
    && F0[2] == FlowData(2, 3, {1}, {}, 1, 0.0) && F[2] == F0[2].(flowCount := 1.0)
  }

  /** The stack of the example lists its records once each, by level. */
  lemma PathStack(F0: FlowTable, F: FlowTable)
    requires PathPass(F0, F)
    ensures forall x :: x in F0 ==> x in [0, 1, 2]
    ensures forall i :: 0 <= i < 3 ==> [0, 1, 2][i] in F0
    ensures forall i, j :: 0 <= i < j < 3 ==> [0, 1, 2][i] != [0, 1, 2][j]
    ensures forall i, j :: 0 <= i < j < 3 ==> F0[[0, 1, 2][i]].level <= F0[[0, 1, 2][j]].level
  {
    var stack := [0, 1, 2];
    forall i | 0 <= i < 3 ensures stack[i] == i {
    }
  }

  /** The links of the example mirror each other across adjacent levels. */
  lemma PathLinks(F0: FlowTable, F: FlowTable)
    requires PathPass(F0, F)
    ensures forall x, d :: x in F0 && d in F0[x].downstream ==>
              d in F0 && x in F0[d].upstream && F0[d].level == F0[x].level + 1
    ensures forall x, u :: x in F0 && u in F0[x].upstream ==>
              u in F0 && x in F0[u].downstream && F0[u].level + 1 == F0[x].level
  {
    forall x, d | x in F0 && d in F0[x].downstream
      ensures d in F0 && x in F0[d].upstream && F0[d].level == F0[x].level + 1
    {
      assert x == 0 || x == 1;
    }
    forall x, u | x in F0 && u in F0[x].upstream
      ensures u in F0 && x in F0[u].downstream && F0[u].level + 1 == F0[x].level
    {
      assert x == 1 || x == 2;
    }
  }

  lemma PathDag(F0: FlowTable, F: FlowTable)
    requires PathPass(F0, F)
    ensures Dag(F0, [0, 1, 2]) && Shape(F0, F)
  {
    PathStack(F0, F);
    PathLinks(F0, F);
    forall x | x in F0 ensures F0[x].pathCount >= 1 && F0[x].flowCount == 0.0 {
      assert x == 0 || x == 1 || x == 2;
    }
    forall x | x in F ensures F[x] == F0[x].(flowCount := F[x].flowCount) && F[x].flowCount >= 0.0 {
      assert x == 0 || x == 1 || x == 2;
    }
  }

  /** The pass from 0 on the path 0 - 1 - 2: vertex 2 hands its unit to 1,
      and 1 hands its own unit and 2's to 0. The edge {0, 1} is credited 2
      and {1, 2} is credited 1, so the credits of one pass add up to the
      distances from the source (3), not to the number of vertices it
      reaches (2); only the credits at the source's own edges do. */
  lemma PathOfThree(F0: FlowTable, F: FlowTable)
    requires PathPass(F0, F)
    ensures Dag(F0, [0, 1, 2]) && Shape(F0, F) && Balanced(F0, F, F0.Keys)
    ensures |F0.Keys| == 3
    ensures Credit(F0, F, F0.Keys, Pair(0, 1)) == 2.0 && Credit(F0, F, F0.Keys, Pair(1, 2)) == 1.0
  {
    PathDag(F0, F);
    assert Recv(F0, F, 1, 0) == 2.0;
    assert Recv(F0, F, 2, 1) == 1.0;
    SumRealRemove({1}, d => Recv(F0, F, d, 0), 1);
    assert {1} - {1} == {};
    SumRealRemove({2}, d => Recv(F0, F, d, 1), 2);
    assert {2} - {2} == {};
    assert F0[0].downstream * F0.Keys == {1};
    assert F0[1].downstream * F0.Keys == {2};
    assert F0[2].downstream * F0.Keys == {};
    forall x | x in F0
      ensures F[x].flowCount == Own(F0, x) + Inflow(F0, F, x, F0[x].downstream * F0.Keys)
    {
      assert x == 0 || x == 1 || x == 2;
    }
  }

  /** The pass exists: the tables of PathPass can be built. */
  lemma PathPassExists()
    ensures PathPass(map[0 := FlowData(0, 1, {}, {1}, 1, 0.0), 1 := FlowData(1, 2, {0}, {2}, 1, 0.0),
                         2 := FlowData(2, 3, {1}, {}, 1, 0.0)],
                     map[0 := FlowData(0, 1, {}, {1}, 1, 2.0), 1 := FlowData(1, 2, {0}, {2}, 1, 2.0),
                         2 := FlowData(2, 3, {1}, {}, 1, 1.0)])
  {
  }
}

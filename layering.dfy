/** The BFS layering that Solver.incFlowAndBetwViaBFS builds from one source
    (girvannewman/Solver.java:80-115), stated over FlowData tables: the
    invariant of the BFS loop, the effect of expanding one vertex, and the
    proofs that expanding and skipping keep the invariant. */
module Layering {
  import opened VertexPairs
  import opened SetSums
  import opened Graphs
  import opened Flows

  /** The graphs the solver runs on: symmetric adjacency over non-negative
      ids with no self-loop. */
  ghost predicate WellFormed(adj: Adjacency)
  {
    && Symmetric(adj)
    && (forall v :: v in adj ==> v >= 0 && v !in adj[v])
  }

  /** a and b are adjacent and their pair has not been severed. */
  ghost predicate Linked(adj: Adjacency, cut: set<PairKey>, a: int, b: int)
  {
    a in adj && b in adj[a] && Pair(a, b) !in cut
  }

  /** The vertices reached from v by one step of the BFS. */
  ghost function Live(adj: Adjacency, cut: set<PairKey>, v: int): set<int>
    requires v in adj
  {
    LiveNeighbors(v, adj[v], cut)
  }

  /** The live neighbours of v one level below it. */
  ghost function Down(adj: Adjacency, cut: set<PairKey>, F: FlowTable, v: int): set<int>
    requires v in F
  {
    set n | n in F && Linked(adj, cut, v, n) && F[n].level == F[v].level + 1
  }

  /** The expanded live neighbours of w one level above it. */
  ghost function Up(adj: Adjacency, cut: set<PairKey>, F: FlowTable, visited: set<int>, w: int): set<int>
    requires w in F
  {
    set u | u in visited && u in F && Linked(adj, cut, u, w) && F[u].level + 1 == F[w].level
  }

  /** Record shape: the source sits alone at level 1 with one path; every
      other record is a vertex below it with at least one path. */
  ghost predicate Records(adj: Adjacency, src: int, F: FlowTable)
  {
    && src in F && F[src].level == 1 && F[src].upstream == {} && F[src].pathCount == 1
    && (forall v :: v in F ==>
          && v in adj && F[v].node == v && F[v].flowCount == 0.0 && F[v].pathCount >= 1
          && (v == src || F[v].level >= 2))
  }

  /** Every record is expanded or waiting in the queue. */
  ghost predicate Covered(F: FlowTable, queue: seq<int>, visited: set<int>)
  {
    && visited <= F.Keys
    && (forall i :: 0 <= i < |queue| ==> queue[i] in F)
    && (forall v :: v in F ==> v in visited || v in queue)
  }

  /** The queue is sorted by level and spans at most two levels, none of
      them above an expanded vertex. */
  ghost predicate Ordered(F: FlowTable, queue: seq<int>, visited: set<int>)
    requires Covered(F, queue, visited)
  {
    && (forall i, j :: 0 <= i < j < |queue| ==> F[queue[i]].level <= F[queue[j]].level)
    && (|queue| > 0 ==>
          && F[queue[|queue| - 1]].level <= F[queue[0]].level + 1
          && (forall v :: v in visited ==> F[v].level <= F[queue[0]].level))
  }

  /** The stack holds each expanded vertex once, in level order. */
  ghost predicate Stacked(F: FlowTable, stack: seq<int>, visited: set<int>)
    requires visited <= F.Keys
  {
    && (forall i :: 0 <= i < |stack| ==> stack[i] in visited)
    && (forall v :: v in visited ==> v in stack)
    && (forall i, j :: 0 <= i < j < |stack| ==> stack[i] != stack[j])
    && (forall i, j :: 0 <= i < j < |stack| ==> F[stack[i]].level <= F[stack[j]].level)
  }

  /** Links of the layering: an expanded vertex has records for all its
      live neighbours, none more than one level below it, and its
      downstream is exactly those one level below; a vertex not yet expanded
      has no downstream; the upstream of a record is exactly its expanded
      live neighbours one level above. */
  ghost predicate Links(adj: Adjacency, cut: set<PairKey>, F: FlowTable, visited: set<int>)
    requires visited <= F.Keys
  {
    && (forall v, n :: v in visited && Linked(adj, cut, v, n) ==> n in F && F[n].level <= F[v].level + 1)
    && (forall v :: v in visited ==> F[v].downstream == Down(adj, cut, F, v))
    && (forall v :: v in F && v !in visited ==> F[v].downstream == {})
    && (forall w :: w in F ==> F[w].upstream == Up(adj, cut, F, visited, w))
  }

  /** Path counts: every record but the source has an upstream vertex and
      counts the paths of its upstream vertices. */
  ghost predicate Counts(src: int, F: FlowTable)
  {
    forall w :: w in F && w != src ==>
      F[w].upstream != {} && F[w].pathCount == PathSum(F, F[w].upstream)
  }

  /** The invariant of the BFS loop. */
  ghost predicate BfsInv(adj: Adjacency, cut: set<PairKey>, src: int, F: FlowTable,
                         queue: seq<int>, visited: set<int>, stack: seq<int>)
  {
    && Records(adj, src, F)
    && Covered(F, queue, visited)
    && Ordered(F, queue, visited)
    && Stacked(F, stack, visited)
    && Links(adj, cut, F, visited)
    && Counts(src, F)
  }

  /** The layering left when the queue runs dry: every record expanded. */
  ghost predicate Layered(adj: Adjacency, cut: set<PairKey>, src: int, F: FlowTable, stack: seq<int>)
  {
    && Records(adj, src, F)
    && Stacked(F, stack, F.Keys)
    && Links(adj, cut, F, F.Keys)
    && Counts(src, F)
  }

  /** The table holding only the source's record. */
  function Start(src: int): FlowTable
  {
    map[src := FlowData(src, 1, {}, {}, 1, 0.0)]
  }

  lemma StartInv(adj: Adjacency, cut: set<PairKey>, src: int)
    requires src in adj
    ensures BfsInv(adj, cut, src, Start(src), [src], {}, [])
  {
  }

  /** The vertices that join v's downstream when v is expanded: live
      neighbours without a record, or with one exactly one level below. */
  ghost function NewDown(adj: Adjacency, cut: set<PairKey>, F: FlowTable, v: int): set<int>
    requires v in F && v in adj
  {
    set n | n in Live(adj, cut, v) && (n !in F || F[n].level == F[v].level + 1)
  }

  /** The record of n before v's update: its own, or a fresh one. */
  function Base(F: FlowTable, n: int, level: int): FlowData
  {
    if n in F then F[n] else FlowData(n, level, {}, {}, 0, 0.0)
  }

  /** The table after expanding v: populateDownstream followed by
      updateDownstream. */
  ghost function Expand(adj: Adjacency, cut: set<PairKey>, F: FlowTable, v: int): FlowTable
    requires v in F && v in adj
  {
    var L := F[v].level;
    var D := NewDown(adj, cut, F, v);
    map n | n in F.Keys + Live(adj, cut, v) ::
      if n == v then F[v].(downstream := D)
      else if n in D then
        Base(F, n, L + 1).(pathCount := Base(F, n, L + 1).pathCount + F[v].pathCount,
                           upstream := Base(F, n, L + 1).upstream + {v})
      else F[n]
  }

  /** populateDownstream then updateDownstream on v, as their contracts
      state them, give Expand. */
  lemma ExpandEffect(adj: Adjacency, cut: set<PairKey>, F: FlowTable, v: int, F1: FlowTable, F2: FlowTable)
    requires WellFormed(adj) && v in adj && v in F && F[v].downstream == {}
    requires F1.Keys == F.Keys + LiveNeighbors(v, adj[v], cut)
    requires forall n :: n in F1 && n !in F ==> F1[n] == FlowData(n, F[v].level + 1, {}, {}, 0, 0.0)
    requires forall n :: n in F && n != v ==> F1[n] == F[n]
    requires F1[v] == F[v].(downstream := F[v].downstream
                              + set n | n in LiveNeighbors(v, adj[v], cut) && n in F1
                                        && F1[n].level == F[v].level + 1)
    requires F2.Keys == F1.Keys && F2[v] == F1[v]
    requires forall n :: n in F1 && n in F1[v].downstream ==>
               F2[n] == F1[n].(pathCount := F1[n].pathCount + F1[v].pathCount,
                               upstream := F1[n].upstream + {v})
    requires forall n :: n in F1 && n !in F1[v].downstream ==> F2[n] == F1[n]
    ensures F2 == Expand(adj, cut, F, v)
  {
    var D := NewDown(adj, cut, F, v);
    forall n ensures n in F1[v].downstream <==> n in D {
      if n in LiveNeighbors(v, adj[v], cut) {
        assert n != v && n in F1;
      }
    }
    assert F1[v].downstream == D;
    var E := Expand(adj, cut, F, v);
    forall n | n in F2 ensures F2[n] == E[n] {
      if n != v && n in D && n !in F {
        assert F1[n] == Base(F, n, F[v].level + 1);
      }
    }
  }

  /** Levels, nodes and membership after expanding v. */
  lemma ExpandShape(adj: Adjacency, cut: set<PairKey>, F: FlowTable, v: int)
    requires WellFormed(adj) && v in adj && v in F
    ensures Expand(adj, cut, F, v).Keys == F.Keys + Live(adj, cut, v)
    ensures forall n :: n in F ==> Expand(adj, cut, F, v)[n].level == F[n].level
    ensures forall n :: n in Expand(adj, cut, F, v) && n !in F ==>
              n in NewDown(adj, cut, F, v) && Expand(adj, cut, F, v)[n].level == F[v].level + 1
    ensures forall n :: n in NewDown(adj, cut, F, v) ==> Linked(adj, cut, v, n) && n != v
    ensures v !in NewDown(adj, cut, F, v)
  {
  }

  /** Skipping a queued vertex that was already expanded keeps the invariant. */
  lemma SkipInv(adj: Adjacency, cut: set<PairKey>, src: int, F: FlowTable,
                queue: seq<int>, visited: set<int>, stack: seq<int>)
    requires BfsInv(adj, cut, src, F, queue, visited, stack)
    requires |queue| > 0 && queue[0] in visited
    ensures BfsInv(adj, cut, src, F, queue[1..], visited, stack)
  {
    SkipCovered(F, queue, visited);
    SkipOrdered(F, queue, visited);
  }

  /** Dropping an expanded vertex from the queue keeps every record covered. */
  lemma SkipCovered(F: FlowTable, queue: seq<int>, visited: set<int>)
    requires Covered(F, queue, visited) && |queue| > 0 && queue[0] in visited
    ensures Covered(F, queue[1..], visited)
  {
    var q := queue[1..];
    forall v | v in F ensures v in visited || v in q {
      if v !in visited {
        var i :| 0 <= i < |queue| && queue[i] == v;
        assert q[i - 1] == v;
      }
    }
  }

  /** Dropping the front of the queue keeps it in level order. */
  lemma SkipOrdered(F: FlowTable, queue: seq<int>, visited: set<int>)
    requires Covered(F, queue, visited) && Ordered(F, queue, visited) && |queue| > 0
    requires Covered(F, queue[1..], visited)
    ensures Ordered(F, queue[1..], visited)
  {
    var q := queue[1..];
    if |q| > 0 {
      assert F[queue[0]].level <= F[q[0]].level;
    }
  }

  /** The situation in which the BFS expands v: v is at the front of the
      queue and has not been expanded. */
  ghost predicate Step(adj: Adjacency, cut: set<PairKey>, src: int, F: FlowTable,
                       queue: seq<int>, visited: set<int>, stack: seq<int>, v: int)
  {
    && WellFormed(adj)
    && BfsInv(adj, cut, src, F, queue, visited, stack)
    && |queue| > 0 && queue[0] == v && v !in visited
  }

  /** Level facts at a step: every record is at least at level 1 and at most
      one below v; the expanded vertices are no lower than v; the queue after
      v lies between v's level and the next. */
  /** v is being expanded at level L: every record lies between level 1 and
      L + 1 and every expanded vertex is at most at level L. */
  ghost predicate Front(adj: Adjacency, F: FlowTable, visited: set<int>, v: int)
  {
    && v in F && v in adj && F[v].level >= 1 && v !in visited && visited <= F.Keys
    && (forall n :: n in F ==> 1 <= F[n].level <= F[v].level + 1)
    && (forall u :: u in visited ==> u in F && F[u].level <= F[v].level)
  }

  lemma StepLevels(src: int, adj: Adjacency, F: FlowTable, queue: seq<int>, visited: set<int>, v: int)
    requires Records(adj, src, F) && Covered(F, queue, visited) && Ordered(F, queue, visited)
    requires |queue| > 0 && queue[0] == v && v !in visited
    ensures Front(adj, F, visited, v)
    ensures forall i :: 1 <= i < |queue| ==> F[v].level <= F[queue[i]].level <= F[v].level + 1
  {
    var last := F[queue[|queue| - 1]].level;
    assert forall i :: 0 <= i < |queue| ==> F[queue[i]].level <= last;
    forall n | n in F ensures F[n].level <= F[v].level + 1 {
      if n !in visited {
        var i :| 0 <= i < |queue| && queue[i] == n;
      }
    }
  }

  /** The records written when v is expanded: D is v's new downstream, v
      gains it, each vertex of D gains v's path count and v as upstream (a
      vertex seen for the first time starts one level below v), every other
      record is kept. */
  ghost predicate Expanded(adj: Adjacency, cut: set<PairKey>, F: FlowTable, v: int,
                           E: FlowTable, D: set<int>)
    requires v in F
  {
    && (forall n :: n in D <==> Linked(adj, cut, v, n) && (n !in F || F[n].level == F[v].level + 1))
    && E.Keys == F.Keys + D
    && v !in D
    && E[v] == F[v].(downstream := D)
    && (forall n :: n in D && n in F ==>
          E[n] == F[n].(pathCount := F[n].pathCount + F[v].pathCount,
                        upstream := F[n].upstream + {v}))
    && (forall n :: n in D && n !in F ==>
          E[n] == FlowData(n, F[v].level + 1, {v}, {}, F[v].pathCount, 0.0))
    && (forall n :: n in F && n != v && n !in D ==> E[n] == F[n])
  }

  lemma ExpandAt(adj: Adjacency, cut: set<PairKey>, F: FlowTable, visited: set<int>, v: int)
    requires WellFormed(adj) && Front(adj, F, visited, v)
    ensures Expanded(adj, cut, F, v, Expand(adj, cut, F, v), NewDown(adj, cut, F, v))
  {
    ExpandShape(adj, cut, F, v);
    var D := NewDown(adj, cut, F, v);
    var E := Expand(adj, cut, F, v);
    forall n | n in Live(adj, cut, v) && n !in F ensures n in D { }
    assert E.Keys == F.Keys + D;
  }

  /** An expanded vertex is never in the new downstream and keeps its record. */
  lemma ExpandKeepsVisited(adj: Adjacency, cut: set<PairKey>, F: FlowTable, visited: set<int>, v: int,
                           E: FlowTable, D: set<int>)
    requires Front(adj, F, visited, v) && Expanded(adj, cut, F, v, E, D)
    ensures forall u :: u in visited ==> u in F && u !in D && u != v && E[u] == F[u]
  {
  }

  lemma ExpandRecords(adj: Adjacency, cut: set<PairKey>, src: int, F: FlowTable, visited: set<int>, v: int,
                      E: FlowTable, D: set<int>)
    requires WellFormed(adj) && Records(adj, src, F)
    requires Front(adj, F, visited, v) && Expanded(adj, cut, F, v, E, D)
    ensures Records(adj, src, E)
  {
    assert src !in D;
  }

  /** The vertices t pushed after expanding v are exactly its new downstream. */
  ghost predicate Pushed(t: seq<int>, D: set<int>)
  {
    && (forall i :: 0 <= i < |t| ==> t[i] in D)
    && (forall d :: d in D ==> d in t)
  }

  lemma ExpandCovered(F: FlowTable, queue: seq<int>, visited: set<int>, v: int,
                      E: FlowTable, D: set<int>, t: seq<int>)
    requires Covered(F, queue, visited) && |queue| > 0 && queue[0] == v
    requires E.Keys == F.Keys + D && Pushed(t, D)
    ensures Covered(E, queue[1..] + t, visited + {v})
  {
    var q := queue[1..] + t;
    forall n | n in E ensures n in visited + {v} || n in q {
      if n in F && n !in visited && n != v {
        var i :| 0 <= i < |queue| && queue[i] == n;
        assert q[i - 1] == n;
      } else if n !in F {
        var j :| 0 <= j < |t| && t[j] == n;
        assert q[|queue| - 1 + j] == n;
      }
    }
  }

  lemma ExpandOrdered(adj: Adjacency, cut: set<PairKey>, F: FlowTable, queue: seq<int>, visited: set<int>, v: int,
                      E: FlowTable, D: set<int>, t: seq<int>)
    requires Covered(F, queue, visited) && Ordered(F, queue, visited) && |queue| > 0 && queue[0] == v
    requires Front(adj, F, visited, v) && Expanded(adj, cut, F, v, E, D) && Pushed(t, D)
    requires forall i :: 1 <= i < |queue| ==> F[v].level <= F[queue[i]].level <= F[v].level + 1
    requires Covered(E, queue[1..] + t, visited + {v})
    ensures Ordered(E, queue[1..] + t, visited + {v})
  {
    var L := F[v].level;
    var q := queue[1..] + t;
    assert forall n :: n in F ==> E[n].level == F[n].level;
    forall i | 0 <= i < |q|
      ensures L <= E[q[i]].level <= L + 1
      ensures |queue| - 1 <= i ==> E[q[i]].level == L + 1
    {
      if i < |queue| - 1 {
        assert q[i] == queue[i + 1];
      } else {
        assert q[i] == t[i - (|queue| - 1)];
      }
    }
    forall i, j | 0 <= i < j < |q| ensures E[q[i]].level <= E[q[j]].level {
      if j < |queue| - 1 {
        assert q[i] == queue[i + 1] && q[j] == queue[j + 1];
      }
    }
  }

  lemma ExpandStacked(adj: Adjacency, cut: set<PairKey>, F: FlowTable, visited: set<int>, stack: seq<int>, v: int,
                      E: FlowTable, D: set<int>)
    requires Front(adj, F, visited, v) && Expanded(adj, cut, F, v, E, D)
    requires Stacked(F, stack, visited) && visited + {v} <= E.Keys
    ensures Stacked(E, stack + [v], visited + {v})
  {
    ExpandKeepsVisited(adj, cut, F, visited, v, E, D);
  }

  /** Expanding v keeps the level, node and flow of every old record and
      puts every new downstream vertex one level below v. */
  lemma ExpandLevels(adj: Adjacency, cut: set<PairKey>, F: FlowTable, visited: set<int>, v: int,
                     E: FlowTable, D: set<int>)
    requires Front(adj, F, visited, v) && Expanded(adj, cut, F, v, E, D)
    ensures forall n :: n in F ==>
              n in E && E[n].level == F[n].level && E[n].node == F[n].node && E[n].flowCount == F[n].flowCount
    ensures forall n :: n in D ==> n in E && E[n].level == F[v].level + 1
  {
  }

  /** Links, first clause: every live neighbour of an expanded vertex has a
      record at most one level below it. */
  lemma ExpandReach(adj: Adjacency, cut: set<PairKey>, F: FlowTable, visited: set<int>, v: int,
                    E: FlowTable, D: set<int>)
    requires Front(adj, F, visited, v) && Expanded(adj, cut, F, v, E, D)
    requires Links(adj, cut, F, visited)
    ensures forall u, n :: u in visited + {v} && Linked(adj, cut, u, n) ==>
              n in E && E[n].level <= E[u].level + 1
  {
    ExpandLevels(adj, cut, F, visited, v, E, D);
  }

  /** Links, second and third clauses: the downstream of each expanded vertex
      is its live neighbours one level below, and only expanded vertices have
      any. */
  lemma ExpandDown(adj: Adjacency, cut: set<PairKey>, F: FlowTable, visited: set<int>, v: int,
                   E: FlowTable, D: set<int>)
    requires Front(adj, F, visited, v) && Expanded(adj, cut, F, v, E, D)
    requires Links(adj, cut, F, visited)
    ensures forall u :: u in visited + {v} ==> E[u].downstream == Down(adj, cut, E, u)
    ensures forall u :: u in E && u !in visited + {v} ==> E[u].downstream == {}
  {
    ExpandLevels(adj, cut, F, visited, v, E, D);
    ExpandKeepsVisited(adj, cut, F, visited, v, E, D);
    forall n ensures n in D <==> n in Down(adj, cut, E, v) {
      if n in E && n !in F {
        assert n in D;
      }
    }
    forall u | u in visited ensures E[u].downstream == Down(adj, cut, E, u) {
      forall n ensures n in Down(adj, cut, F, u) <==> n in Down(adj, cut, E, u) {
        if n in E && Linked(adj, cut, u, n) {
          assert n in F;
        }
      }
    }
  }

  /** Links, fourth clause: the upstream of every record is its expanded
      live neighbours one level above. */
  lemma ExpandUp(adj: Adjacency, cut: set<PairKey>, F: FlowTable, visited: set<int>, v: int,
                 E: FlowTable, D: set<int>)
    requires WellFormed(adj)
    requires Front(adj, F, visited, v) && Expanded(adj, cut, F, v, E, D)
    requires Links(adj, cut, F, visited)
    ensures forall w :: w in E ==> E[w].upstream == Up(adj, cut, E, visited + {v}, w)
  {
    ExpandLevels(adj, cut, F, visited, v, E, D);
    ExpandKeepsVisited(adj, cut, F, visited, v, E, D);
    forall w | w in E ensures E[w].upstream == Up(adj, cut, E, visited + {v}, w) {
      var vis := visited + {v};
      if w in F {
        assert F[w].upstream == Up(adj, cut, F, visited, w);
        forall u ensures u in Up(adj, cut, E, vis, w) <==>
                         u in Up(adj, cut, F, visited, w) || (u == v && w in D) {
        }
      } else {
        forall u ensures u in Up(adj, cut, E, vis, w) <==> u == v {
        }
      }
    }
  }

  lemma ExpandLinks(adj: Adjacency, cut: set<PairKey>, F: FlowTable, visited: set<int>, v: int,
                    E: FlowTable, D: set<int>)
    requires WellFormed(adj)
    requires Front(adj, F, visited, v) && Expanded(adj, cut, F, v, E, D)
    requires Links(adj, cut, F, visited)
    ensures visited + {v} <= E.Keys && Links(adj, cut, E, visited + {v})
  {
    ExpandReach(adj, cut, F, visited, v, E, D);
    ExpandDown(adj, cut, F, visited, v, E, D);
    ExpandUp(adj, cut, F, visited, v, E, D);
  }

  /** Path sums over expanded vertices are the same before and after. */
  lemma ExpandPathSum(adj: Adjacency, cut: set<PairKey>, F: FlowTable, visited: set<int>, v: int,
                      E: FlowTable, D: set<int>, S: set<int>)
    requires Front(adj, F, visited, v) && Expanded(adj, cut, F, v, E, D)
    requires S <= visited + {v}
    ensures PathSum(E, S) == PathSum(F, S)
  {
    ExpandKeepsVisited(adj, cut, F, visited, v, E, D);
    PathSumCongruence(E, F, S);
  }

  lemma ExpandCounts(adj: Adjacency, cut: set<PairKey>, src: int, F: FlowTable, visited: set<int>, v: int,
                     E: FlowTable, D: set<int>)
    requires Records(adj, src, F) && Counts(src, F)
    requires Front(adj, F, visited, v) && Expanded(adj, cut, F, v, E, D)
    requires forall w :: w in F ==> F[w].upstream <= visited
    ensures Counts(src, E)
  {
    forall w | w in E && w != src
      ensures E[w].upstream != {} && E[w].pathCount == PathSum(E, E[w].upstream)
    {
      var f := u => PathCountOf(E, u);
      if w in D && w in F {
        var up := F[w].upstream;
        ExpandPathSum(adj, cut, F, visited, v, E, D, up + {v});
        SumRemove(up + {v}, u => PathCountOf(F, u), v);
        assert up + {v} - {v} == up;
      } else if w in D {
        SumRemove({v}, u => PathCountOf(E, u), v);
        assert {v} - {v} == {};
      } else {
        ExpandPathSum(adj, cut, F, visited, v, E, D, F[w].upstream);
      }
    }
  }

  /** Expanding the front vertex v and pushing its new downstream keeps the
      invariant of the BFS loop. */
  lemma ExpandInv(adj: Adjacency, cut: set<PairKey>, src: int, F: FlowTable,
                  queue: seq<int>, visited: set<int>, stack: seq<int>, v: int, t: seq<int>)
    requires Step(adj, cut, src, F, queue, visited, stack, v)
    requires v in F && v in adj && Pushed(t, NewDown(adj, cut, F, v))
    ensures BfsInv(adj, cut, src, Expand(adj, cut, F, v), queue[1..] + t, visited + {v}, stack + [v])
  {
    StepLevels(src, adj, F, queue, visited, v);
    var E := Expand(adj, cut, F, v);
    var D := NewDown(adj, cut, F, v);
    ExpandAt(adj, cut, F, visited, v);
    ExpandRecords(adj, cut, src, F, visited, v, E, D);
    ExpandCovered(F, queue, visited, v, E, D, t);
    ExpandOrdered(adj, cut, F, queue, visited, v, E, D, t);
    ExpandStacked(adj, cut, F, visited, stack, v, E, D);
    ExpandLinks(adj, cut, F, visited, v, E, D);
    assert forall w :: w in F ==> F[w].upstream == Up(adj, cut, F, visited, w);
    ExpandCounts(adj, cut, src, F, visited, v, E, D);
  }

  /** When the queue runs dry every record has been expanded. */
  lemma DoneLayered(adj: Adjacency, cut: set<PairKey>, src: int, F: FlowTable,
                    visited: set<int>, stack: seq<int>)
    requires BfsInv(adj, cut, src, F, [], visited, stack)
    ensures visited == F.Keys && Layered(adj, cut, src, F, stack)
  {
    forall x | x in F ensures x in visited {
      assert x !in [];
    }
  }

  /** A walk over live edges: consecutive vertices are linked by a pair
      that has not been severed. */
  ghost predicate LivePath(adj: Adjacency, cut: set<PairKey>, w: seq<int>)
  {
    |w| >= 1 && forall i :: 0 <= i < |w| - 1 ==> Linked(adj, cut, w[i], w[i + 1])
  }

  /** Along a live walk starting at a record, every vertex has a record and
      the level grows by at most one per step. */
  lemma {:induction false} PathLevels(adj: Adjacency, cut: set<PairKey>, src: int, F: FlowTable,
                                      stack: seq<int>, w: seq<int>)
    requires Layered(adj, cut, src, F, stack) && LivePath(adj, cut, w) && w[0] in F
    ensures w[|w| - 1] in F && F[w[|w| - 1]].level <= F[w[0]].level + |w| - 1
    decreases |w|
  {
    if |w| > 1 {
      var w' := w[..|w| - 1];
      assert LivePath(adj, cut, w');
      PathLevels(adj, cut, src, F, stack, w');
      assert Linked(adj, cut, w'[|w'| - 1], w[|w| - 1]);
    }
  }

  /** Each upstream vertex is a live neighbour one level above. */
  ghost predicate UpLinked(adj: Adjacency, cut: set<PairKey>, F: FlowTable)
  {
    forall y, u :: y in F && u in F[y].upstream ==>
      u in F && Linked(adj, cut, u, y) && F[u].level + 1 == F[y].level && F[u].level >= 1
  }

  lemma LayeredUpLinked(adj: Adjacency, cut: set<PairKey>, src: int, F: FlowTable, stack: seq<int>)
    requires Layered(adj, cut, src, F, stack)
    ensures UpLinked(adj, cut, F)
    ensures forall y :: y in F && y != src ==> F[y].upstream != {}
  {
    forall y, u | y in F && u in F[y].upstream
      ensures u in F && Linked(adj, cut, u, y) && F[u].level + 1 == F[y].level && F[u].level >= 1
    {
      assert u in Up(adj, cut, F, F.Keys, y);
    }
  }

  /** Following upstream links back to the source gives a live walk with as
      many vertices as the level. */
  lemma {:induction false} UpstreamPath(adj: Adjacency, cut: set<PairKey>, src: int, F: FlowTable, x: int)
      returns (w: seq<int>)
    requires src in F && F[src].level == 1 && x in F && F[x].level >= 1
    requires forall y :: y in F && y != src ==> F[y].upstream != {}
    requires UpLinked(adj, cut, F)
    ensures LivePath(adj, cut, w) && w[0] == src && w[|w| - 1] == x && |w| == F[x].level
    decreases F[x].level
  {
    if x == src {
      w := [src];
    } else {
      var u := Elem(F[x].upstream);
      var w' := UpstreamPath(adj, cut, src, F, u);
      w := w' + [x];
      assert w[|w| - 2] == u;
    }
  }

  /** The BFS from src reaches exactly the vertices joined to src by a live
      walk, and the level of each is one more than the number of edges on a
      shortest such walk. */
  lemma LayeredReach(adj: Adjacency, cut: set<PairKey>, src: int, F: FlowTable, stack: seq<int>, x: int)
    requires Layered(adj, cut, src, F, stack)
    ensures x in F <==> exists w :: LivePath(adj, cut, w) && w[0] == src && w[|w| - 1] == x
    ensures x in F ==>
              && (exists w :: LivePath(adj, cut, w) && w[0] == src && w[|w| - 1] == x && |w| == F[x].level)
              && (forall w :: LivePath(adj, cut, w) && w[0] == src && w[|w| - 1] == x ==> F[x].level <= |w|)
  {
    if x in F {
      LayeredUpLinked(adj, cut, src, F, stack);
      var w := UpstreamPath(adj, cut, src, F, x);
    }
    forall w | LivePath(adj, cut, w) && w[0] == src && w[|w| - 1] == x
      ensures x in F && F[x].level <= |w|
    {
      PathLevels(adj, cut, src, F, stack, w);
    }
  }
}

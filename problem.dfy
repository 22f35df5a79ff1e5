/** The state of one Girvan-Newman round (girvannewman/Problem.java): the
    betweenness accumulator, the BFS records of the current source, the edges
    chosen for removal, the communities and the modularity.

    Solver.java builds it as Problem(numEdge, iter) and reads betweenness by
    edge; the file's own constructor takes a Solution and starts betweenness
    at -1, a different revision. This model follows Solver.java and the
    tests: betweenness starts at 0, numEdge >= 0 and iter >= 1 are required.
    getFlowData is also only used by Solver.java and the tests; an absent
    vertex is an error there, modelled as None. */
module Problems {
  import opened Wrappers
  import opened Flows

  class Problem {
    const iter: int
    const betw: array<real>
    var flowsData: FlowTable
    var edgesToKill: set<int>
    var vertCommunity: map<int, int>
    var communitiesSet: map<int, set<int>>
    var mod: real

    /** Community ids are 0 .. count-1, and vertCommunity is exactly the
        membership relation of communitiesSet. */
    ghost predicate Valid()
      reads this
    {
      && iter >= 1
      && (forall c :: c in communitiesSet <==> 0 <= c < |communitiesSet|)
      && (forall n :: n in vertCommunity ==>
            vertCommunity[n] in communitiesSet && n in communitiesSet[vertCommunity[n]])
      && (forall c, n :: c in communitiesSet && n in communitiesSet[c] ==>
            n in vertCommunity && vertCommunity[n] == c)
    }

    constructor (numEdge: int, iter: int)
      requires numEdge >= 0 && iter >= 1
      ensures Valid()
      ensures this.iter == iter && betw.Length == numEdge && fresh(betw)
      ensures forall e :: 0 <= e < numEdge ==> betw[e] == 0.0
      ensures flowsData == map[] && edgesToKill == {}
      ensures vertCommunity == map[] && communitiesSet == map[] && mod == 0.0
    {
      this.iter := iter;
      betw := new real[numEdge](_ => 0.0);
      flowsData := map[];
      edgesToKill := {};
      vertCommunity := map[];
      communitiesSet := map[];
      mod := 0.0;
    }

    function GetBetw(edge: int): real
      requires 0 <= edge < betw.Length
      reads betw
    {
      betw[edge]
    }

    /** Adds inc to the betweenness of one edge and of no other. */
    method IncBetw(edge: int, inc: real)
      requires 0 <= edge < betw.Length && inc >= 0.0
      modifies betw
      ensures betw[edge] == old(betw[edge]) + inc
      ensures forall e :: 0 <= e < betw.Length && e != edge ==> betw[e] == old(betw[e])
    {
      betw[edge] := betw[edge] + inc;
    }

    method SetEdgesToKill(edges: set<int>)
      modifies this
      ensures edgesToKill == edges
      ensures flowsData == old(flowsData) && mod == old(mod)
      ensures vertCommunity == old(vertCommunity) && communitiesSet == old(communitiesSet)
    {
      edgesToKill := edges;
    }

    method ResetFlowsData()
      modifies this
      ensures flowsData == map[]
      ensures edgesToKill == old(edgesToKill) && mod == old(mod)
      ensures vertCommunity == old(vertCommunity) && communitiesSet == old(communitiesSet)
    {
      flowsData := map[];
    }

    /** The record of a vertex; looking up a vertex without one fails. */
    function GetFlowData(node: int): (r: Option<FlowData>)
      reads this
      ensures r.None? <==> node !in flowsData
      ensures r.Some? ==> r.value == flowsData[node]
    {
      if node in flowsData then Some(flowsData[node]) else None
    }

    /** True exactly when the vertex belongs to some community. */
    function IsInComm(node: int): (r: bool)
      requires Valid()
      reads this
      ensures r <==> exists c :: c in communitiesSet && node in communitiesSet[c]
    {
      if node in vertCommunity then
        var c := vertCommunity[node];
        assert c in communitiesSet && node in communitiesSet[c];
        true
      else
        false
    }

    /** Opens a new empty community whose id is the current count, so ids
        come out as 0, 1, 2, ... */
    method InitNewComm() returns (index: int)
      requires Valid()
      modifies this
      ensures Valid()
      ensures index == old(|communitiesSet|)
      ensures index !in old(communitiesSet)
      ensures communitiesSet == old(communitiesSet)[index := {}]
      ensures vertCommunity == old(vertCommunity) && mod == old(mod)
      ensures flowsData == old(flowsData) && edgesToKill == old(edgesToKill)
    {
      index := |communitiesSet|;
      communitiesSet := communitiesSet[index := {}];
    }

    /** Puts node into community commIndex and records node -> commIndex;
        other communities keep their members. The source dereferences the
        community's set, so the community must exist. */
    method PutInComm(commIndex: int, node: int)
      requires commIndex in communitiesSet
      modifies this
      ensures vertCommunity == old(vertCommunity)[node := commIndex]
      ensures communitiesSet == old(communitiesSet)[commIndex := old(communitiesSet[commIndex]) + {node}]
      ensures old(Valid()) && (node !in old(vertCommunity) || old(vertCommunity[node]) == commIndex)
              ==> Valid()
      ensures mod == old(mod) && flowsData == old(flowsData) && edgesToKill == old(edgesToKill)
    {
      vertCommunity := vertCommunity[node := commIndex];
      var members := communitiesSet[commIndex];
      members := members + {node};
      communitiesSet := communitiesSet[commIndex := members];
    }

    method IncMod(inc: real)
      modifies this
      ensures mod == old(mod) + inc
      ensures vertCommunity == old(vertCommunity) && communitiesSet == old(communitiesSet)
      ensures flowsData == old(flowsData) && edgesToKill == old(edgesToKill)
    {
      mod := mod + inc;
    }
  }
}

/** Per-edge bookkeeping (girvannewman/data/EdgeData.java). The constructor
    takes (node1, node2, edgeIndex), the order Solution.java and the tests
    use; the declared (edgeIndex, node1, node2) order is a different
    revision. The validation comments of the source are preconditions. */
module Edges {
  import opened VertexPairs

  class EdgeData {
    const edgeIndex: int
    const endpoints: VertexPair
    var alive: bool
    var iterKilled: int

    /** The constant part: a non-negative index and two distinct
        non-negative endpoints. */
    predicate Fixed()
    {
      && edgeIndex >= 0
      && endpoints.vert1 >= 0 && endpoints.vert2 >= 0
      && endpoints.vert1 != endpoints.vert2
    }

    /** An edge is alive exactly while it carries no kill round, and a kill
        round is always positive. */
    ghost predicate Valid()
      reads this
    {
      && Fixed()
      && (alive <==> iterKilled == -1)
      && (iterKilled == -1 || iterKilled >= 1)
    }

    constructor (node1: int, node2: int, edgeIndex: int)
      requires node1 >= 0 && node2 >= 0 && edgeIndex >= 0
      requires node1 != node2
      ensures Valid()
      ensures this.edgeIndex == edgeIndex && endpoints == VertexPair(node1, node2)
      ensures alive && iterKilled == -1
    {
      this.edgeIndex := edgeIndex;
      endpoints := VertexPair(node1, node2);
      alive := true;
      iterKilled := -1;
    }

    /** Marks the edge dead in round iter. Index and endpoints are constants,
        and nothing sets alive back to true. */
    method Kill(iter: int)
      requires Valid()
      requires iter > 0
      modifies this
      ensures Valid()
      ensures !alive && iterKilled == iter
    {
      alive := false;
      iterKilled := iter;
    }
  }
}

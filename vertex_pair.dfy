/** Unordered vertex pairs (graph/VertexPair.java). The source keeps the two
    ids in construction order and makes equals and hashCode ignore that order;
    here the order-free identity is the normalized key PairKey(min, max),
    which plain Dafny sets and maps can use directly. */
module VertexPairs {

  datatype VertexPair = VertexPair(vert1: int, vert2: int)

  /** Normalized key of an unordered pair: lo <= hi. */
  datatype PairKey = PairKey(lo: int, hi: int)

  function Min(a: int, b: int): int { if a <= b then a else b }
  function Max(a: int, b: int): int { if a <= b then b else a }

  /** The key hashCode depends on: the larger and the smaller id. */
  function Key(p: VertexPair): (k: PairKey)
    ensures k.lo <= k.hi
    ensures (k.lo == p.vert1 && k.hi == p.vert2) || (k.lo == p.vert2 && k.hi == p.vert1)
  {
    PairKey(Min(p.vert1, p.vert2), Max(p.vert1, p.vert2))
  }

  /** Key of the pair built from a and b. */
  function Pair(a: int, b: int): PairKey
  {
    Key(VertexPair(a, b))
  }

  /** Java's equals: same ids in the same or in the swapped order. It holds
      exactly when the two pairs have the same key, so a set or map of keys
      behaves like the source's HashSet/HashMap of VertexPair. */
  function Equals(p: VertexPair, q: VertexPair): (r: bool)
    ensures r <==> Key(p) == Key(q)
    ensures r <==> multiset{p.vert1, p.vert2} == multiset{q.vert1, q.vert2}
  {
    (p.vert1 == q.vert1 && p.vert2 == q.vert2) || (p.vert1 == q.vert2 && p.vert2 == q.vert1)
  }

  /** Swapping the ids gives an equal pair with the same hash key. */
  lemma SwappedPairsAreEqual(a: int, b: int)
    ensures Equals(VertexPair(a, b), VertexPair(b, a))
    ensures Pair(a, b) == Pair(b, a)
  {
  }

  /** Equality is reflexive, self-pairs included. */
  lemma EqualsIsReflexive(p: VertexPair)
    ensures Equals(p, p)
  {
  }

  /** With one end fixed, the key determines the other end. */
  lemma PairInjective(v: int, a: int, b: int)
    requires Pair(v, a) == Pair(v, b)
    ensures a == b
  {
  }

  /** The two ids recovered from a key. */
  lemma PairEnds(a: int, b: int, k: PairKey)
    requires Pair(a, b) == k
    ensures {a, b} == {k.lo, k.hi}
  {
  }
}

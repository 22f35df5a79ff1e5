/** Finite sums over sets, used by the specifications of path counts,
    degree sums, flow shares and modularity. The element picked first is
    arbitrary; SumRemove shows that any element can be taken out first. */
module SetSums {

  /** Some element of a non-empty set, as a ghost witness for picking one. */
  lemma Elem<T>(s: set<T>) returns (x: T)
    requires s != {}
    ensures x in s
  {
    x :| x in s;
  }

  ghost function Sum<T>(s: set<T>, f: T -> int): int
    decreases s
  {
    if s == {} then 0 else var x :| x in s; f(x) + Sum(s - {x}, f)
  }

  ghost function SumReal<T>(s: set<T>, f: T -> real): real
    decreases s
  {
    if s == {} then 0.0 else var x :| x in s; f(x) + SumReal(s - {x}, f)
  }

  lemma {:induction false} SumRemove<T>(s: set<T>, f: T -> int, x: T)
    requires x in s
    ensures Sum(s, f) == f(x) + Sum(s - {x}, f)
    decreases s
  {
    var y :| y in s && Sum(s, f) == f(y) + Sum(s - {y}, f);
    if y != x {
      SumRemove(s - {y}, f, x);
      SumRemove(s - {x}, f, y);
      assert s - {y} - {x} == s - {x} - {y};
    }
  }

  lemma {:induction false} SumRealRemove<T>(s: set<T>, f: T -> real, x: T)
    requires x in s
    ensures SumReal(s, f) == f(x) + SumReal(s - {x}, f)
    decreases s
  {
    var y :| y in s && SumReal(s, f) == f(y) + SumReal(s - {y}, f);
    if y != x {
      SumRealRemove(s - {y}, f, x);
      SumRealRemove(s - {x}, f, y);
      assert s - {y} - {x} == s - {x} - {y};
    }
  }

  /** Two functions that agree on s have the same sum over s. */
  lemma {:induction false} SumCongruence<T>(s: set<T>, f: T -> int, g: T -> int)
    requires forall x :: x in s ==> f(x) == g(x)
    ensures Sum(s, f) == Sum(s, g)
    decreases s
  {
    if s != {} {
      var x :| x in s;
      SumRemove(s, f, x);
      SumRemove(s, g, x);
      SumCongruence(s - {x}, f, g);
    }
  }

  lemma {:induction false} SumRealCongruence<T>(s: set<T>, f: T -> real, g: T -> real)
    requires forall x :: x in s ==> f(x) == g(x)
    ensures SumReal(s, f) == SumReal(s, g)
    decreases s
  {
    if s != {} {
      var x :| x in s;
      SumRealRemove(s, f, x);
      SumRealRemove(s, g, x);
      SumRealCongruence(s - {x}, f, g);
    }
  }

  /** A sum of terms that are all zero is zero. */
  lemma {:induction false} SumRealZero<T>(s: set<T>, f: T -> real)
    requires forall x :: x in s ==> f(x) == 0.0
    ensures SumReal(s, f) == 0.0
    decreases s
  {
    if s != {} {
      var x :| x in s;
      SumRealRemove(s, f, x);
      SumRealZero(s - {x}, f);
    }
  }

  /** A sum of positive terms is at least the number of terms. */
  lemma {:induction false} SumPositive<T>(s: set<T>, f: T -> int)
    requires forall x :: x in s ==> f(x) >= 1
    ensures Sum(s, f) >= |s|
    decreases s
  {
    if s != {} {
      var x :| x in s;
      SumRemove(s, f, x);
      SumPositive(s - {x}, f);
    }
  }

  lemma {:induction false} SumRealNonNegative<T>(s: set<T>, f: T -> real)
    requires forall x :: x in s ==> f(x) >= 0.0
    ensures SumReal(s, f) >= 0.0
    decreases s
  {
    if s != {} {
      var x :| x in s;
      SumRealRemove(s, f, x);
      SumRealNonNegative(s - {x}, f);
    }
  }

  /** Summing an integer function as reals gives the integer sum as a real. */
  lemma {:induction false} SumRealOfInt<T>(s: set<T>, h: T -> real, f: T -> int)
    requires forall x :: x in s ==> h(x) == f(x) as real
    ensures SumReal(s, h) == Sum(s, f) as real
    decreases s
  {
    if s != {} {
      var x :| x in s;
      SumRealRemove(s, h, x);
      SumRemove(s, f, x);
      SumRealOfInt(s - {x}, h, f);
    }
  }

  /** Membership, as a term that only the proofs below mention, so that a
      quantifier triggered on it is instantiated only where they ask. */
  ghost predicate Member<T>(s: set<T>, x: T)
  {
    x in s
  }

  /** A constant multiple of a sum, term by term. */
  lemma {:induction false} SumRealScale<T>(s: set<T>, g: T -> real, c: real, h: T -> real)
    requires forall x {:trigger Member(s, x)} :: Member(s, x) ==> g(x) == c * h(x)
    ensures SumReal(s, g) == c * SumReal(s, h)
    decreases s
  {
    if s != {} {
      var x :| x in s;
      SumRealRemove(s, g, x);
      SumRealRemove(s, h, x);
      forall y {:trigger Member(s - {x}, y)} | Member(s - {x}, y) ensures g(y) == c * h(y) {
        assert Member(s, y);
      }
      SumRealScale(s - {x}, g, c, h);
      assert Member(s, x);
      ScaleStep(c, h(x), SumReal(s - {x}, h), SumReal(s, h));
    } else {
      ScaleStep(c, 0.0, 0.0, SumReal(s, h));
    }
  }

  /** Scaling distributes over the sum of a head and a rest. */
  lemma ScaleStep(c: real, a: real, b: real, sum: real)
    requires sum == a + b
    ensures c * sum == c * a + c * b
  {
  }

  /** Terms outside t are zero, so only t contributes. */
  lemma {:induction false} SumRestrict<T>(s: set<T>, t: set<T>, f: T -> int, g: T -> int)
    requires t <= s
    requires forall x :: x in s && x !in t ==> f(x) == 0
    requires forall x :: x in t ==> f(x) == g(x)
    ensures Sum(s, f) == Sum(t, g)
    decreases s
  {
    if s != {} {
      var x :| x in s;
      SumRemove(s, f, x);
      SumRestrict(s - {x}, t - {x}, f, g);
      if x in t {
        SumRemove(t, g, x);
      } else {
        assert t - {x} == t;
      }
    } else {
      assert t == {};
    }
  }

  /** The sum over a disjoint union is the sum of the two sums. */
  lemma {:induction false} SumRealUnion<T>(a: set<T>, b: set<T>, f: T -> real)
    requires a !! b
    ensures SumReal(a + b, f) == SumReal(a, f) + SumReal(b, f)
    decreases a
  {
    if a == {} {
      assert a + b == b;
    } else {
      var x :| x in a;
      SumRealRemove(a + b, f, x);
      SumRealRemove(a, f, x);
      assert a + b - {x} == (a - {x}) + b;
      SumRealUnion(a - {x}, b, f);
    }
  }

  /** Lowering every term by one lowers the sum by one per term. */
  lemma {:induction false} SumRealLessOnes<T>(s: set<T>, f: T -> real, g: T -> real)
    requires forall x :: x in s ==> g(x) == f(x) - 1.0
    ensures SumReal(s, g) == SumReal(s, f) - |s| as real
    decreases s
  {
    if s != {} {
      var x :| x in s;
      SumRealRemove(s, f, x);
      SumRealRemove(s, g, x);
      SumRealLessOnes(s - {x}, f, g);
    }
  }

  /** Summing over the image of s under a one-to-one map. */
  lemma {:induction false} SumRealImage<T, U>(s: set<T>, mk: T -> U, img: set<U>, g: U -> real, h: T -> real)
    requires forall x :: x in s ==> mk(x) in img
    requires forall y :: y in img ==> exists x :: x in s && mk(x) == y
    requires forall x, y :: x in s && y in s && mk(x) == mk(y) ==> x == y
    requires forall x :: x in s ==> g(mk(x)) == h(x)
    ensures SumReal(img, g) == SumReal(s, h)
    decreases s
  {
    if s == {} {
      assert img == {};
    } else {
      var x :| x in s;
      SumRealRemove(img, g, mk(x));
      SumRealRemove(s, h, x);
      SumRealImage(s - {x}, mk, img - {mk(x)}, g, h);
    }
  }

  /** The elements of es whose key is k. */
  ghost function Fibre<E, K>(es: set<E>, key: E -> K, k: K): set<E>
  {
    set e | e in es && key(e) == k
  }

  /** A sum regrouped by key: the sum over es is the sum, over the keys,
      of the sums over the fibres. */
  lemma {:induction false} SumRealFibres<E, K>(ks: set<K>, es: set<E>, key: E -> K, g: E -> real)
    requires forall e :: e in es ==> key(e) in ks
    ensures SumReal(es, g) == SumReal(ks, k => SumReal(Fibre(es, key, k), g))
    decreases ks
  {
    if ks == {} {
      assert es == {};
    } else {
      var k :| k in ks;
      var here := Fibre(es, key, k);
      var rest := es - here;
      SumRealFibres(ks - {k}, rest, key, g);
      assert here + rest == es;
      SumRealUnion(here, rest, g);
      SumRealRemove(ks, k' => SumReal(Fibre(es, key, k'), g), k);
      forall k' | k' in ks - {k} ensures Fibre(rest, key, k') == Fibre(es, key, k') {
      }
      SumRealCongruence(ks - {k}, k' => SumReal(Fibre(rest, key, k'), g), k' => SumReal(Fibre(es, key, k'), g));
    }
  }

  /** A subset is no larger, and a proper subset is smaller. */
  lemma {:induction false} SubsetCardinality<T>(a: set<T>, b: set<T>)
    requires a <= b
    ensures |a| <= |b|
    ensures a < b ==> |a| < |b|
    decreases b
  {
    if b != {} {
      var x := Elem(b);
      SubsetCardinality(a - {x}, b - {x});
      if x !in a {
        assert a - {x} == a;
        assert a < b;
      } else if a < b {
        var y := Elem(b - a);
        assert y in b - {x} && y !in a - {x};
      }
    }
  }
}

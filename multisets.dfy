/**
 * Facts about sequences and their multisets used to show that the order in
 * which the worker pool returns its jobs does not change what is collected.
 */
module Multisets {
  /** Taking one element out of the middle of a sequence takes one copy of it out of its multiset. */
  lemma SeqWithout<T>(b: seq<T>, j: int)
    requires 0 <= j < |b|
    ensures multiset(b) == multiset(b[..j] + b[j + 1..]) + multiset{b[j]}
  {
    assert b == b[..j] + [b[j]] + b[j + 1..];
  }

  /** One copy of the same element can be cancelled from both sides. */
  lemma MultisetCancel<T>(a: multiset<T>, b: multiset<T>, x: T)
    requires a + multiset{x} == b + multiset{x}
    ensures a == b
  {
    forall y
      ensures a[y] == b[y]
    {
      assert (a + multiset{x})[y] == (b + multiset{x})[y];
    }
  }

  /** `f` applied to every element, in order. */
  function Map<A, B>(f: A -> B, s: seq<A>): seq<B>
  {
    seq(|s|, k requires 0 <= k < |s| => f(s[k]))
  }

  /** A sequence is its prefix, the element at `j` and its suffix. */
  lemma SplitAt<T>(b: seq<T>, j: int)
    requires 0 <= j < |b|
    ensures b == b[..j] + ([b[j]] + b[j + 1..])
  {
  }

  /**
   * The first element of a permutation occurs somewhere in the other sequence,
   * and what is left of the two is again a permutation.
   */
  lemma PickMatch<T>(p: seq<T>, q: seq<T>) returns (j: int)
    requires p != [] && multiset(p) == multiset(q)
    ensures 0 <= j < |q| && q[j] == p[0]
    ensures multiset(p[1..]) == multiset(q[..j] + q[j + 1..])
  {
    assert p[0] in multiset(q);
    j :| 0 <= j < |q| && q[j] == p[0];
    SeqWithout(q, j);
    SeqWithout(p, 0);
    assert p[..0] + p[1..] == p[1..];
    MultisetCancel(multiset(p[1..]), multiset(q[..j] + q[j + 1..]), p[0]);
  }

  /** Mapping a permutation gives a permutation. */
  lemma {:induction false} MapPermutation<A, B>(f: A -> B, p: seq<A>, q: seq<A>)
    requires multiset(p) == multiset(q)
    ensures multiset(Map(f, p)) == multiset(Map(f, q))
    decreases |p|
  {
    if p == [] {
      assert |q| == |multiset(q)| == 0;
    } else {
      var j := PickMatch(p, q);
      MapPermutation(f, p[1..], q[..j] + q[j + 1..]);
      MapHead(f, p);
      MapWithout(f, q, j);
    }
  }

  /** The image of the first element and the image of the rest make up the image of the whole. */
  lemma MapHead<A, B>(f: A -> B, s: seq<A>)
    requires s != []
    ensures multiset(Map(f, s)) == multiset(Map(f, s[1..])) + multiset{f(s[0])}
  {
    assert Map(f, s) == [f(s[0])] + Map(f, s[1..]);
  }

  /** Leaving one element out of a mapped sequence leaves one copy of its image out of the multiset. */
  lemma MapWithout<A, B>(f: A -> B, s: seq<A>, j: int)
    requires 0 <= j < |s|
    ensures multiset(Map(f, s)) == multiset(Map(f, s[..j] + s[j + 1..])) + multiset{f(s[j])}
  {
    var m := Map(f, s);
    assert Map(f, s[..j] + s[j + 1..]) == m[..j] + m[j + 1..];
    SeqWithout(m, j);
  }
}

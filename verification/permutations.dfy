/** Arrival orders: the order in which concurrently running workers report is
    any permutation of the task indices. */
module Permutations {

  /** The task indices 0 .. n-1 in submission order. */
  function Indices(n: nat): (s: seq<nat>)
    ensures |s| == n
    ensures forall i :: 0 <= i < n ==> s[i] == i
  {
    seq(n, i => i)
  }

  /** `order` lists every index below n exactly once, in some order. */
  predicate IsPermutationOf(order: seq<nat>, n: nat) {
    multiset(order) == multiset(Indices(n))
  }

  /** `order` picks elements of `s` by position. */
  function Pick<X>(s: seq<X>, order: seq<nat>): (r: seq<X>)
    requires forall k :: k in order ==> k < |s|
    ensures |r| == |order|
    ensures forall j :: 0 <= j < |order| ==> order[j] in order && r[j] == s[order[j]]
  {
    seq(|order|, j requires 0 <= j < |order| => assert order[j] in order; s[order[j]])
  }

  /** A permutation of 0 .. n-1 has n entries, all below n, and reaches every index. */
  lemma PermutationCovers(order: seq<nat>, n: nat)
    requires IsPermutationOf(order, n)
    ensures |order| == n
    ensures forall j :: 0 <= j < |order| ==> order[j] < n
    ensures forall k :: 0 <= k < n ==> k in order
  {
    assert |multiset(order)| == |order|;
    forall j | 0 <= j < |order|
      ensures order[j] < n
    {
      assert order[j] in multiset(order);
      assert order[j] in Indices(n);
    }
    forall k | 0 <= k < n
      ensures k in order
    {
      assert Indices(n)[k] == k;
      assert k in multiset(Indices(n));
    }
  }

  /** Each index below n occurs once in 0 .. n-1, and no other value occurs. */
  lemma {:induction false} IndicesOnce(n: nat, x: nat)
    ensures multiset(Indices(n))[x] == if x < n then 1 else 0
  {
    if n > 0 {
      IndicesOnce(n - 1, x);
      assert Indices(n) == Indices(n - 1) + [n - 1];
    }
  }

  /** No two workers of an arrival order carry the same task index. */
  lemma PermutationDistinct(order: seq<nat>, n: nat)
    requires IsPermutationOf(order, n)
    ensures forall j, k :: 0 <= j < k < |order| ==> order[j] != order[k]
  {
    forall j, k | 0 <= j < k < |order|
      ensures order[j] != order[k]
    {
      if order[j] == order[k] {
        var x := order[j];
        assert order == order[..j] + [x] + order[j + 1..k] + [x] + order[k + 1..];
        IndicesOnce(n, x);
        assert false;
      }
    }
  }

  /** Applies f to every element of a sequence. */
  function MapSeq<A, B>(f: A -> B, a: seq<A>): (r: seq<B>)
    ensures |r| == |a|
    ensures forall j :: 0 <= j < |a| ==> r[j] == f(a[j])
  {
    seq(|a|, j requires 0 <= j < |a| => f(a[j]))
  }

  /** Mapping distributes over concatenation. */
  lemma MapConcat<A, B>(f: A -> B, a: seq<A>, b: seq<A>)
    ensures MapSeq(f, a + b) == MapSeq(f, a) + MapSeq(f, b)
  {
  }

  /** Removing the element at position i from b removes one copy of b[i]
      from its multiset. */
  lemma RemoveAt<X>(b: seq<X>, i: nat)
    requires i < |b|
    ensures b == b[..i] + [b[i]] + b[i + 1..]
    ensures multiset(b[..i] + b[i + 1..]) == multiset(b) - multiset{b[i]}
  {
    assert b == b[..i] + [b[i]] + b[i + 1..];
  }

  /** Mapping two sequences that are permutations of each other yields
      permutations of each other. */
  lemma {:induction false} MapPermutation<A, B>(f: A -> B, a: seq<A>, b: seq<A>)
    requires multiset(a) == multiset(b)
    ensures multiset(MapSeq(f, a)) == multiset(MapSeq(f, b))
    decreases |a|
  {
    if |a| == 0 {
      assert |b| == |multiset(b)| == 0;
    } else {
      var x := a[0];
      assert x in multiset(b);
      var i :| 0 <= i < |b| && b[i] == x;
      var a', b1, b2 := a[1..], b[..i], b[i + 1..];
      assert a == [x] + a';
      RemoveAt(b, i);
      MapPermutation(f, a', b1 + b2);
      MapConcat(f, [x], a');
      MapConcat(f, b1, [x]);
      MapConcat(f, b1 + [x], b2);
      MapConcat(f, b1, b2);
    }
  }

  /** Picking along two orders that are permutations of each other yields
      permutations of each other. */
  lemma PickPermutation<X>(s: seq<X>, a: seq<nat>, b: seq<nat>)
    requires forall k :: k in a ==> k < |s|
    requires forall k :: k in b ==> k < |s|
    requires multiset(a) == multiset(b)
    ensures multiset(Pick(s, a)) == multiset(Pick(s, b))
  {
    if |a| == 0 {
      assert |b| == |multiset(b)| == 0;
    } else {
      assert a[0] in a;
      var f := (k: nat) => if k < |s| then s[k] else s[0];
      MapPermutation(f, a, b);
      assert Pick(s, a) == MapSeq(f, a);
      assert Pick(s, b) == MapSeq(f, b);
    }
  }

  /** Picking along a permutation of all indices rearranges the whole sequence. */
  lemma PickAllIsPermutation<X>(s: seq<X>, order: seq<nat>)
    requires IsPermutationOf(order, |s|)
    ensures forall k :: k in order ==> k < |s|
    ensures multiset(Pick(s, order)) == multiset(s)
  {
    PermutationCovers(order, |s|);
    PickPermutation(s, order, Indices(|s|));
    assert Pick(s, Indices(|s|)) == s;
  }
}

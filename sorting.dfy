/**
 * `Array.prototype.sort` with a comparator, as the exemption screen and the
 * exemption report use it: an in-place sort of an array by a total preorder.
 */
module Sorting {

  /** `leq` orders every pair and is transitive: what a consistent comparator gives. */
  ghost predicate TotalPreorder<T(!new)>(leq: (T, T) -> bool)
  {
    && (forall x, y :: leq(x, y) || leq(y, x))
    && (forall x, y, z :: leq(x, y) && leq(y, z) ==> leq(x, z))
  }

  ghost predicate SortedBy<T>(s: seq<T>, leq: (T, T) -> bool)
  {
    forall i, j :: 0 <= i < j < |s| ==> leq(s[i], s[j])
  }

  /** Sorts `a` in place by `leq`; the result is a permutation of the input. */
  method InsertionSort<T(!new)>(a: array<T>, leq: (T, T) -> bool)
    requires TotalPreorder(leq)
    modifies a
    ensures SortedBy(a[..], leq)
    ensures multiset(a[..]) == old(multiset(a[..]))
  {
    var i := 0;
    while i < a.Length
      invariant 0 <= i <= a.Length
      invariant SortedBy(a[..i], leq)
      invariant multiset(a[..]) == old(multiset(a[..]))
    {
      Insert(a, i, leq);
      i := i + 1;
    }
    assert a[..a.Length] == a[..];
  }

  /** Moves `a[i]` left into the sorted prefix `a[..i]`; nothing after `a[i]` moves. */
  method Insert<T(!new)>(a: array<T>, i: nat, leq: (T, T) -> bool)
    requires TotalPreorder(leq)
    requires i < a.Length && SortedBy(a[..i], leq)
    modifies a
    ensures SortedBy(a[..i + 1], leq)
    ensures multiset(a[..i + 1]) == old(multiset(a[..i + 1]))
    ensures a[i + 1..] == old(a[i + 1..])
    ensures multiset(a[..]) == old(multiset(a[..]))
  {
    Sift(a, i, leq);
    assert a[i + 1..] == old(a[i + 1..]);
    PrefixMultiset(a[..], old(a[..]), i + 1);
  }

  /** The loop of `Insert`: swaps `a[i]` leftwards while its left neighbour is greater. */
  method Sift<T(!new)>(a: array<T>, i: nat, leq: (T, T) -> bool)
    requires TotalPreorder(leq)
    requires i < a.Length && SortedBy(a[..i], leq)
    modifies a
    ensures SortedBy(a[..i + 1], leq)
    ensures forall m :: i < m < a.Length ==> a[m] == old(a[m])
    ensures multiset(a[..]) == old(multiset(a[..]))
  {
    var j := i;
    while j > 0 && !leq(a[j - 1], a[j])
      invariant 0 <= j <= i
      invariant forall k, l :: 0 <= k < l <= i && k != j && l != j ==> leq(a[k], a[l])
      invariant forall l :: j < l <= i ==> leq(a[j], a[l])
      invariant multiset(a[..]) == old(multiset(a[..]))
      invariant forall m :: i < m < a.Length ==> a[m] == old(a[m])
    {
      Swap(a, j);
      j := j - 1;
    }
  }

  /** Exchanges `a[k - 1]` and `a[k]`. */
  method Swap<T>(a: array<T>, k: nat)
    requires 0 < k < a.Length
    modifies a
    ensures a[k - 1] == old(a[k]) && a[k] == old(a[k - 1])
    ensures forall m :: 0 <= m < a.Length && m != k - 1 && m != k ==> a[m] == old(a[m])
    ensures multiset(a[..]) == old(multiset(a[..]))
  {
    a[k - 1], a[k] := a[k], a[k - 1];
  }

  /** Two permutations that agree after position `n` are permutations up to `n`. */
  lemma PrefixMultiset<T>(x: seq<T>, y: seq<T>, n: nat)
    requires n <= |x| == |y| && multiset(x) == multiset(y) && x[n..] == y[n..]
    ensures multiset(x[..n]) == multiset(y[..n])
  {
    assert x == x[..n] + x[n..];
    assert y == y[..n] + y[n..];
    assert multiset(x) == multiset(x[..n]) + multiset(x[n..]);
    assert multiset(y) == multiset(y[..n]) + multiset(x[n..]);
    assert forall e :: multiset(x[..n])[e] == multiset(x)[e] - multiset(x[n..])[e];
    assert forall e :: multiset(y[..n])[e] == multiset(y)[e] - multiset(x[n..])[e];
  }
}

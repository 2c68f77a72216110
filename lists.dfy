/**
 * `Array.prototype.filter` on sequences, with the two facts every caller
 * needs: which elements it keeps, and that it keeps them in input order
 * (it distributes over concatenation).
 */
module Lists {
  function Filter<T>(s: seq<T>, keep: T -> bool): (r: seq<T>)
    ensures |r| <= |s|
    ensures forall k :: 0 <= k < |r| ==> r[k] in s && keep(r[k])
    ensures forall k :: 0 <= k < |s| && keep(s[k]) ==> s[k] in r
    ensures (forall k :: 0 <= k < |s| ==> keep(s[k])) ==> r == s
    decreases |s|
  {
    if s == [] then []
    else
      assert s == [s[0]] + s[1..];
      (if keep(s[0]) then [s[0]] else []) + Filter(s[1..], keep)
  }

  /** Filtering a concatenation filters each part: kept elements keep their order. */
  lemma {:induction false} FilterConcat<T>(a: seq<T>, b: seq<T>, keep: T -> bool)
    ensures Filter(a + b, keep) == Filter(a, keep) + Filter(b, keep)
    decreases |a|
  {
    if a != [] {
      assert (a + b)[1..] == a[1..] + b;
      FilterConcat(a[1..], b, keep);
    } else {
      assert a + b == b;
    }
  }

  /** Filtering a sequence with one more element at the end. */
  lemma FilterSnoc<T>(init: seq<T>, last: T, keep: T -> bool)
    ensures Filter(init + [last], keep) == Filter(init, keep) + (if keep(last) then [last] else [])
  {
    FilterConcat(init, [last], keep);
    assert [last][1..] == [];
  }

  /** Nothing is kept iff no element passes. */
  lemma FilterEmptyIff<T>(s: seq<T>, keep: T -> bool)
    ensures Filter(s, keep) == [] <==> forall k :: 0 <= k < |s| ==> !keep(s[k])
  {
    if Filter(s, keep) != [] {
      assert Filter(s, keep)[0] in Filter(s, keep);
    }
  }
}

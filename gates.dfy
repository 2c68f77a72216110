/**
 * Handlers that run an ordered chain of checks with early returns: the first
 * check that fails decides the answer. `FirstFailure` is the reference
 * definition the route and form models are compared with.
 */
module Gates {
  import opened Wrappers

  datatype Check<E> = Check(passes: bool, failure: E)

  function FirstFailure<E>(checks: seq<Check<E>>): (r: Option<E>)
    ensures r.None? <==> forall k :: 0 <= k < |checks| ==> checks[k].passes
    ensures r.Some? ==> exists k :: 0 <= k < |checks| && !checks[k].passes && r.value == checks[k].failure
                                   && forall j :: 0 <= j < k ==> checks[j].passes
    decreases |checks|
  {
    if checks == [] then None
    else if !checks[0].passes then Some(checks[0].failure)
    else
      var r := FirstFailure(checks[1..]);
      assert r.Some? ==> exists k :: 1 <= k < |checks| && !checks[k].passes && r.value == checks[k].failure
                                     && forall j :: 0 <= j < k ==> checks[j].passes;
      r
  }

  /** The failure of the first failing check, found by position. */
  lemma {:induction false} FirstFailureAt<E>(checks: seq<Check<E>>, k: nat)
    requires k < |checks| && !checks[k].passes
    requires forall j :: 0 <= j < k ==> checks[j].passes
    ensures FirstFailure(checks) == Some(checks[k].failure)
    decreases k
  {
    if k > 0 {
      FirstFailureAt(checks[1..], k - 1);
    }
  }

  /** Two chains run one after the other: the second is consulted only when
      the first passes. */
  lemma {:induction false} FirstFailureConcat<E>(a: seq<Check<E>>, b: seq<Check<E>>)
    ensures FirstFailure(a + b) == if FirstFailure(a).Some? then FirstFailure(a) else FirstFailure(b)
    decreases |a|
  {
    if a == [] {
      assert a + b == b;
    } else {
      assert (a + b)[1..] == a[1..] + b;
      FirstFailureConcat(a[1..], b);
    }
  }
}

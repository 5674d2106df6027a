/** The two policies the adapter uses when one tool call runs a provider
    operation once per input item. */
module Batch {
  import opened Wrappers

  /** `i` is the first position at which the operation fails. */
  ghost predicate FirstFailure<A, B>(f: A -> Result<B>, xs: seq<A>, i: int) {
    0 <= i < |xs| && f(xs[i]).Failure? && forall j :: 0 <= j < i ==> f(xs[j]).Success?
  }

  /** Fail-fast: run `f` on each item in order; the first failure aborts the whole
      batch and no partial results survive. */
  function FailFast<A, B>(f: A -> Result<B>, xs: seq<A>): (r: Result<seq<B>>)
    ensures r.Success? <==> forall i :: 0 <= i < |xs| ==> f(xs[i]).Success?
    ensures r.Success? ==> |r.value| == |xs| && forall i :: 0 <= i < |xs| ==> f(xs[i]) == Success(r.value[i])
    ensures r.Failure? ==> exists i :: FirstFailure(f, xs, i) && r.error == f(xs[i]).error
  {
    if |xs| == 0 then Success([])
    else
      match f(xs[0])
      case Failure(e) =>
        assert FirstFailure(f, xs, 0);
        Failure(e)
      case Success(b) =>
        match FailFast(f, xs[1..])
        case Failure(e) =>
          ghost var k :| FirstFailure(f, xs[1..], k) && e == f(xs[1..][k]).error;
          assert FirstFailure(f, xs, k + 1);
          Failure(e)
        case Success(bs) =>
          assert forall i :: 1 <= i < |xs| ==> xs[i] == xs[1..][i - 1];
          Success([b] + bs)
  }

  /** `a` is `b` with some elements left out (order kept). */
  ghost predicate IsSubseq<T>(a: seq<T>, b: seq<T>)
    decreases |b|
  {
    if |a| == 0 then true
    else if |b| == 0 then false
    else (a[0] == b[0] && IsSubseq(a[1..], b[1..])) || IsSubseq(a, b[1..])
  }

  /** The inputs of a list of (input, outcome) pairs. */
  function Keys<A, V>(ps: seq<(A, V)>): seq<A> {
    seq(|ps|, j requires 0 <= j < |ps| => ps[j].0)
  }

  /** How many items the operation succeeds on. */
  function CountSuccesses<A, B>(f: A -> Result<B>, xs: seq<A>): nat {
    if |xs| == 0 then 0 else (if f(xs[0]).Success? then 1 else 0) + CountSuccesses(f, xs[1..])
  }

  /** Collect-and-report: run `f` on every item whatever happened before, keeping the
      successes and the (item, error message) failures, each in input order. */
  function Collect<A, B>(f: A -> Result<B>, xs: seq<A>): (r: (seq<(A, B)>, seq<(A, string)>))
    ensures |r.0| + |r.1| == |xs|
    ensures |r.0| == CountSuccesses(f, xs)
    ensures forall j :: 0 <= j < |r.0| ==> f(r.0[j].0) == Success(r.0[j].1)
    ensures forall j :: 0 <= j < |r.1| ==> f(r.1[j].0) == Failure(r.1[j].1)
    ensures IsSubseq(Keys(r.0), xs) && IsSubseq(Keys(r.1), xs)
  {
    if |xs| == 0 then ([], [])
    else
      var rest := Collect(f, xs[1..]);
      match f(xs[0])
      case Success(b) =>
        var oks := [(xs[0], b)] + rest.0;
        assert Keys(oks) == [xs[0]] + Keys(rest.0);
        SubseqSkip(Keys(rest.1), xs);
        (oks, rest.1)
      case Failure(e) =>
        var errs := [(xs[0], e)] + rest.1;
        assert Keys(errs) == [xs[0]] + Keys(rest.1);
        SubseqSkip(Keys(rest.0), xs);
        (rest.0, errs)
  }

  lemma SubseqSkip<T>(a: seq<T>, b: seq<T>)
    requires |b| > 0 && IsSubseq(a, b[1..])
    ensures IsSubseq(a, b)
  {
  }
}

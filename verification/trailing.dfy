/** The deduplicated execution of the trailing calls queued during a pass. */
module TrailingCalls {
  import opened Objects
  import opened Observers

  /** `Array.prototype.lastIndexOf`: the last index holding `c`, or -1. */
  function LastIndexOf(s: seq<Call>, c: Call): (r: int)
    ensures -1 <= r < |s|
    ensures r == -1 <==> c !in s
    ensures 0 <= r ==> s[r] == c && forall j :: r < j < |s| ==> s[j] != c
  {
    if s == [] then -1
    else if s[|s| - 1] == c then |s| - 1
    else LastIndexOf(s[..|s| - 1], c)
  }

  /** The `forEach` over the first `n` queued entries: a truthy entry runs when
      its index is the last one holding the same function. */
  function ExecutedUpTo(calls: seq<Call>, n: nat): seq<nat>
    requires n <= |calls|
  {
    if n == 0 then []
    else
      var c := calls[n - 1];
      ExecutedUpTo(calls, n - 1) + (if c.Fn? && LastIndexOf(calls, c) == n - 1 then [c.id] else [])
  }

  /** The ids of the trailing calls run, in the order they run. */
  function Executed(calls: seq<Call>): seq<nat> {
    ExecutedUpTo(calls, |calls|)
  }

  lemma {:induction false} ExecutedUpToMembers(calls: seq<Call>, n: nat)
    requires n <= |calls|
    ensures forall x :: x in ExecutedUpTo(calls, n) <==> Fn(x) in calls && LastIndexOf(calls, Fn(x)) < n
  {
    if n > 0 {
      ExecutedUpToMembers(calls, n - 1);
      var c := calls[n - 1];
      forall x ensures x in ExecutedUpTo(calls, n) <==> Fn(x) in calls && LastIndexOf(calls, Fn(x)) < n {
        if Fn(x) in calls && LastIndexOf(calls, Fn(x)) == n - 1 {
          assert c == Fn(x);
        }
      }
    }
  }

  lemma {:induction false} ExecutedUpToBound(calls: seq<Call>, n: nat)
    requires n <= |calls|
    ensures forall x :: x in ExecutedUpTo(calls, n) ==> LastIndexOf(calls, Fn(x)) < n
  {
    if n > 0 {
      ExecutedUpToBound(calls, n - 1);
    }
  }

  /** The ids in `e` run in the order of their last occurrences in `calls`. */
  predicate InCallOrder(calls: seq<Call>, e: seq<nat>) {
    forall a, b {:trigger e[a], e[b]} :: 0 <= a < b < |e| ==> LastIndexOf(calls, Fn(e[a])) < LastIndexOf(calls, Fn(e[b]))
  }

  lemma InCallOrderAppend(calls: seq<Call>, e: seq<nat>, x: nat)
    requires InCallOrder(calls, e)
    requires forall y :: y in e ==> LastIndexOf(calls, Fn(y)) < LastIndexOf(calls, Fn(x))
    ensures InCallOrder(calls, e + [x])
  {
    var e' := e + [x];
    forall a, b | 0 <= a < b < |e'|
      ensures LastIndexOf(calls, Fn(e'[a])) < LastIndexOf(calls, Fn(e'[b]))
    {
      assert e'[a] == e[a] && e[a] in e;
      if b < |e| {
        assert e'[b] == e[b];
      }
    }
  }

  lemma {:induction false} ExecutedUpToOrder(calls: seq<Call>, n: nat)
    requires n <= |calls|
    ensures InCallOrder(calls, ExecutedUpTo(calls, n))
  {
    if n > 0 {
      ExecutedUpToOrder(calls, n - 1);
      var prev := ExecutedUpTo(calls, n - 1);
      var c := calls[n - 1];
      if c.Fn? && LastIndexOf(calls, c) == n - 1 {
        assert InCallOrder(calls, prev + [c.id]) by {
          ExecutedUpToBound(calls, n - 1);
          InCallOrderAppend(calls, prev, c.id);
        }
        assert ExecutedUpTo(calls, n) == prev + [c.id];
      } else {
        assert ExecutedUpTo(calls, n) == prev;
      }
    }
  }

  /** Each function queued at least once runs exactly once, at the index of its
      last occurrence; falsy entries never run. */
  lemma TrailingCallsOnce(calls: seq<Call>)
    ensures var e := Executed(calls);
      && (forall x :: x in e <==> Fn(x) in calls)
      && Distinct(e)
      && InCallOrder(calls, e)
  {
    ExecutedUpToMembers(calls, |calls|);
    ExecutedUpToOrder(calls, |calls|);
    var e := Executed(calls);
    forall a, b | 0 <= a < b < |e| ensures e[a] != e[b] {
      assert LastIndexOf(calls, Fn(e[a])) < LastIndexOf(calls, Fn(e[b]));
    }
  }
}

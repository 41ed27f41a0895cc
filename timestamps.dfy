/** Queues of call timestamps, oldest first, as kept by the two queue-based
    fuses, and the front eviction they share. */
module Timestamps {

  /** What remains of `q` once the timestamps before `bound` at its front are
      dequeued; what remains, if anything, starts at a timestamp `>= bound`. */
  function DropBefore(q: seq<int>, bound: int): (r: seq<int>)
    ensures |r| <= |q|
    ensures r != [] ==> r[0] >= bound
  {
    if q == [] then []
    else if q[0] < bound then DropBefore(q[1..], bound)
    else q
  }

  /** `r` is a suffix of `q` and every timestamp of `q` ahead of it is `< bound`. */
  ghost predicate KeptSuffix(q: seq<int>, r: seq<int>, bound: int)
  {
    && |r| <= |q|
    && r == q[|q| - |r|..]
    && (forall i :: 0 <= i < |q| - |r| ==> q[i] < bound)
  }

  /** The eviction keeps a suffix of the queue, and every timestamp it drops
      is `< bound`. */
  lemma {:induction false} DropBeforeSuffix(q: seq<int>, bound: int)
    ensures KeptSuffix(q, DropBefore(q, bound), bound)
  {
    if q != [] && q[0] < bound {
      var t := q[1..];
      DropBeforeSuffix(t, bound);
      var r := DropBefore(t, bound);
      assert t[|t| - |r|..] == q[|q| - |r|..];
      forall i | 0 < i < |q| - |r| ensures q[i] < bound {
        assert q[i] == t[i - 1];
      }
    }
  }

  /** A queue holding only timestamps before `bound` is evicted entirely. */
  lemma {:induction false} DropBeforeAllStale(q: seq<int>, bound: int)
    requires forall i :: 0 <= i < |q| ==> q[i] < bound
    ensures DropBefore(q, bound) == []
  {
    if q != [] {
      assert forall i :: 0 <= i < |q[1..]| ==> q[1..][i] == q[i + 1];
      DropBeforeAllStale(q[1..], bound);
    }
  }

  /** Timestamps were enqueued in non-decreasing order. */
  ghost predicate Ordered(q: seq<int>)
  {
    forall i, j :: 0 <= i < j < |q| ==> q[i] <= q[j]
  }

  /** On an ordered queue the eviction keeps exactly the timestamps that are
      `>= bound`: the kept part starts at index `|q| - |r|`. */
  lemma {:induction false} DropBeforeKeepsExactlyRecent(q: seq<int>, bound: int)
    requires Ordered(q)
    ensures forall i :: 0 <= i < |q| ==> (q[i] >= bound <==> i >= |q| - |DropBefore(q, bound)|)
  {
    var r := DropBefore(q, bound);
    var d := |q| - |r|;
    DropBeforeSuffix(q, bound);
    forall i | d <= i < |q| ensures q[i] >= bound {
      assert q[d] == r[0];
      assert q[d] <= q[i];
    }
  }

  /** Eviction keeps an ordered queue ordered. */
  lemma {:induction false} DropBeforeOrdered(q: seq<int>, bound: int)
    requires Ordered(q)
    ensures Ordered(DropBefore(q, bound))
  {
    var r := DropBefore(q, bound);
    var d := |q| - |r|;
    DropBeforeSuffix(q, bound);
    forall i, j | 0 <= i < j < |r| ensures r[i] <= r[j] {
      assert r[i] == q[d + i] && r[j] == q[d + j];
    }
  }

  /** A timestamp at or after `bound` survives eviction behind whatever
      survives ahead of it. */
  lemma {:induction false} DropBeforeKeepsRecent(q: seq<int>, t: int, bound: int)
    requires t >= bound
    ensures DropBefore(q + [t], bound) == DropBefore(q, bound) + [t]
  {
    if q == [] {
      assert q + [t] == [t];
    } else {
      assert (q + [t])[0] == q[0] && (q + [t])[1..] == q[1..] + [t];
      if q[0] < bound {
        DropBeforeKeepsRecent(q[1..], t, bound);
      }
    }
  }

  /** Evicting and then enqueueing a timestamp no earlier than the last one
      keeps an ordered queue ordered. */
  lemma OrderedAfterEnqueue(q: seq<int>, bound: int, t: int)
    requires Ordered(q) && (q == [] || q[|q| - 1] <= t)
    ensures Ordered(DropBefore(q, bound) + [t])
  {
    var r := DropBefore(q, bound);
    DropBeforeOrdered(q, bound);
    DropBeforeSuffix(q, bound);
    if r != [] {
      assert r[|r| - 1] == q[|q| - 1];
    }
  }

  /** On an ordered queue every timestamp the eviction keeps is no earlier
      than the bound, and the kept queue is ordered. */
  lemma OrderedKeptInWindow(q: seq<int>, bound: int)
    requires Ordered(q)
    ensures Ordered(DropBefore(q, bound))
    ensures forall t :: t in DropBefore(q, bound) ==> t >= bound
  {
    var r := DropBefore(q, bound);
    DropBeforeOrdered(q, bound);
    forall t | t in r ensures t >= bound {
      var k :| 0 <= k < |r| && r[k] == t;
      assert r[0] <= r[k];
    }
  }

  /** Enqueueing a timestamp no earlier than the last keeps a queue ordered. */
  lemma {:induction false} EnqueueOrdered(q: seq<int>, t: int)
    requires Ordered(q) && (q == [] || q[|q| - 1] <= t)
    ensures Ordered(q + [t])
  {
    var e := q + [t];
    forall i, j | 0 <= i < j < |e| ensures e[i] <= e[j] {
      if j == |q| && i < |q| {
        assert q[i] <= q[|q| - 1];
      }
    }
  }
}

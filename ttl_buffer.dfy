/** The time-bounded buffer (Internal/TtlBuffer.cs): a FIFO of
    `(time, item)` entries whose reads evict expired entries from the front. */
module TtlBuffers {

  /** One stored entry: the time it was added and its payload. */
  datatype Entry<T> = Entry(time: int, obj: T)

  /** An entry is expired at `now` once its age has reached `ttl`. */
  predicate Expired<T>(e: Entry<T>, now: int, ttl: int)
  {
    now - e.time >= ttl
  }

  /** What remains of `q` once the expired entries at its front are dropped;
      what remains, if anything, starts at an entry that is not expired. */
  function Evict<T>(q: seq<Entry<T>>, now: int, ttl: int): (r: seq<Entry<T>>)
    ensures |r| <= |q|
    ensures r != [] ==> !Expired(r[0], now, ttl)
  {
    if q == [] then []
    else if Expired(q[0], now, ttl) then Evict(q[1..], now, ttl)
    else q
  }

  /** `r` is a suffix of `q` and every entry of `q` ahead of it is expired. */
  ghost predicate KeptSuffix<T>(q: seq<Entry<T>>, r: seq<Entry<T>>, now: int, ttl: int)
  {
    && |r| <= |q|
    && r == q[|q| - |r|..]
    && (forall i :: 0 <= i < |q| - |r| ==> Expired(q[i], now, ttl))
  }

  /** Eviction keeps a suffix of the buffer and drops only expired entries. */
  lemma {:induction false} EvictSuffix<T>(q: seq<Entry<T>>, now: int, ttl: int)
    ensures KeptSuffix(q, Evict(q, now, ttl), now, ttl)
  {
    if q != [] && Expired(q[0], now, ttl) {
      var t := q[1..];
      EvictSuffix(t, now, ttl);
      var r := Evict(t, now, ttl);
      assert t[|t| - |r|..] == q[|q| - |r|..];
      forall i | 0 < i < |q| - |r| ensures Expired(q[i], now, ttl) {
        assert q[i] == t[i - 1];
      }
    }
  }

  /** The payloads of `q`, in insertion order. */
  function Payloads<T>(q: seq<Entry<T>>): (items: seq<T>)
    ensures |items| == |q|
    ensures forall i :: 0 <= i < |q| ==> items[i] == q[i].obj
  {
    if q == [] then [] else [q[0].obj] + Payloads(q[1..])
  }

  /** Entries were added in non-decreasing time order. */
  ghost predicate TimeOrdered<T>(q: seq<Entry<T>>)
  {
    forall i, j :: 0 <= i < j < |q| ==> q[i].time <= q[j].time
  }

  /** Evicting again at the same time drops nothing further. */
  lemma EvictIdempotent<T>(q: seq<Entry<T>>, now: int, ttl: int)
    ensures Evict(Evict(q, now, ttl), now, ttl) == Evict(q, now, ttl)
  {
  }

  /** With time-ordered entries, eviction keeps exactly the live entries:
      an entry is kept (it lies at or after the first index the eviction
      keeps) exactly when it is younger than `ttl`. */
  lemma {:induction false} EvictOrderedKeepsLive<T>(q: seq<Entry<T>>, now: int, ttl: int)
    requires TimeOrdered(q)
    ensures forall i :: 0 <= i < |q| ==> (now - q[i].time < ttl <==> i >= |q| - |Evict(q, now, ttl)|)
  {
    var r := Evict(q, now, ttl);
    var d := |q| - |r|;
    EvictSuffix(q, now, ttl);
    forall i | d <= i < |q| ensures now - q[i].time < ttl {
      assert q[d] == r[0] && q[d].time <= q[i].time;
    }
  }

  /** An entry that is not expired survives eviction behind whatever survives
      ahead of it. */
  lemma {:induction false} EvictKeepsFresh<T>(q: seq<Entry<T>>, e: Entry<T>, now: int, ttl: int)
    requires !Expired(e, now, ttl)
    ensures Evict(q + [e], now, ttl) == Evict(q, now, ttl) + [e]
  {
    if q == [] {
      assert q + [e] == [e];
    } else {
      assert (q + [e])[0] == q[0] && (q + [e])[1..] == q[1..] + [e];
      if Expired(q[0], now, ttl) {
        EvictKeepsFresh(q[1..], e, now, ttl);
      }
    }
  }

  /** The buffer. `queue` is the `ConcurrentQueue` of entries, oldest first. */
  class TtlBuffer<T> {
    const ttl: int
    var queue: seq<Entry<T>>

    constructor (ttl: int)
      ensures this.ttl == ttl && queue == []
    {
      this.ttl := ttl;
      queue := [];
    }

    /** Appends one `(now, obj)` entry at the back. */
    method Add(now: int, obj: T)
      modifies this
      ensures queue == old(queue) + [Entry(now, obj)]
      ensures (TimeOrdered(old(queue)) && (old(queue) == [] || old(queue)[|old(queue)| - 1].time <= now))
              ==> TimeOrdered(queue)
    {
      queue := queue + [Entry(now, obj)];
    }

    /** Dequeues expired entries from the front until the first live one,
        then returns the payloads of what remains. */
    method GetItems(now: int) returns (items: seq<T>)
      modifies this
      ensures queue == Evict(old(queue), now, ttl)
      ensures items == Payloads(queue)
    {
      while |queue| > 0
        invariant Evict(queue, now, ttl) == Evict(old(queue), now, ttl)
        decreases |queue|
      {
        if now - queue[0].time >= ttl {
          queue := queue[1..];
        } else {
          break;
        }
      }
      items := Payloads(queue);
    }

    /** Removes every entry. */
    method Clear()
      modifies this
      ensures queue == []
    {
      queue := [];
    }
  }
}

/** The sliding-window count fuse (Fuses/TimeSlidingWindowCountFuse.cs): every
    call adds a token to a time-bounded buffer whose entries live for the
    window's duration; when the live tokens, the new one included, reach the
    threshold the fuse trips, empties the buffer and fails the triggering call. */
module SlidingWindowCountFuses {
  import opened Statuses
  import opened Outcomes
  import opened TtlBuffers

  /** The token the source adds for every call: the byte 0. */
  const Token: bv8 := 0

  class TimeSlidingWindowCountFuse {
    const threshold: int
    /** The buffer of call tokens; its time-to-live is the window duration. */
    const buffer: TtlBuffer<bv8>
    var status: FuseStatus
    /** The `StatusChanged` notifications raised so far, oldest first. */
    var events: seq<FuseStatus>

    /** `Initial` is never reached; a tripped or manually tripped fuse holds
        no tokens; the log agrees with the status. */
    ghost predicate Valid()
      reads this, buffer
    {
      && status != Initial
      && (status != Normal ==> buffer.queue == [])
      && LogAgrees(events, status)
    }

    /** A new fuse is Normal with an empty buffer whose entries live for
        `duration`. The constructor's assignment of Normal notifies nobody,
        as nothing has subscribed yet. */
    constructor (threshold: int, duration: int)
      ensures Valid() && fresh(buffer)
      ensures this.threshold == threshold && buffer.ttl == duration
      ensures status == Normal && buffer.queue == [] && events == []
    {
      this.threshold := threshold;
      buffer := new TtlBuffer(duration);
      status := Normal;
      events := [];
    }

    /** The private `Status` setter: notifies only on a change. */
    method SetStatus(value: FuseStatus)
      requires LogAgrees(events, status)
      modifies this`status, this`events
      ensures status == value && LogAgrees(events, status)
      ensures events == old(events) + Notifications(old(status), value)
    {
      SetterKeepsLog(events, status, value);
      if status != value {
        status := value;
        events := events + [value];
      }
    }

    /** Fails untouched while tripped or manually tripped. Otherwise adds a
        token at `now`, evicts the expired tokens, and fails, tripping the
        fuse and emptying the buffer, when the live tokens have reached the
        threshold. With a positive duration the new token is always live, so
        a passing call keeps exactly the earlier live tokens and its own. */
    method Invoke(now: int) returns (r: Outcome)
      requires Valid()
      modifies this, buffer
      ensures Valid()
      ensures old(status) == Tripped || old(status) == ManuallyTripped ==>
        r == Fail(FuseTripped) && unchanged(this) && unchanged(buffer)
      ensures old(status) == Normal ==>
        var live := Evict(old(buffer.queue) + [Entry(now, Token)], now, buffer.ttl);
        && (r.Fail? <==> |live| >= threshold)
        && (r.Fail? ==> r == Fail(FuseTripped) && status == Tripped && buffer.queue == [])
        && (r.Pass? ==> status == Normal && buffer.queue == live)
      ensures old(status) == Normal && buffer.ttl > 0 && r.Pass? ==>
        buffer.queue == Evict(old(buffer.queue), now, buffer.ttl) + [Entry(now, Token)]
      ensures events == old(events) + Notifications(old(status), status)
    {
      if status == Tripped || status == ManuallyTripped {
        return Fail(FuseTripped);
      }
      if buffer.ttl > 0 {
        EvictKeepsFresh(buffer.queue, Entry(now, Token), now, buffer.ttl);
      }
      buffer.Add(now, Token);
      var items := buffer.GetItems(now);
      if |items| >= threshold {
        SetStatus(Tripped);
        buffer.Clear();
        return Fail(FuseTripped);
      }
      return Pass;
    }

    /** Empties the buffer and forces ManuallyTripped, whatever the status. */
    method Trip()
      requires Valid()
      modifies this, buffer
      ensures Valid()
      ensures buffer.queue == [] && status == ManuallyTripped
      ensures events == old(events) + Notifications(old(status), ManuallyTripped)
    {
      buffer.Clear();
      SetStatus(ManuallyTripped);
    }

    /** Empties the buffer and returns to Normal. */
    method Reset()
      requires Valid()
      modifies this, buffer
      ensures Valid()
      ensures buffer.queue == [] && status == Normal
      ensures events == old(events) + Notifications(old(status), Normal)
    {
      buffer.Clear();
      SetStatus(Normal);
    }
  }

  /** Every entry of `q` is a token added at `t`. */
  ghost predicate AllTokensAt(q: seq<Entry<bv8>>, t: int)
  {
    forall k :: 0 <= k < |q| ==> q[k] == Entry(t, Token)
  }

  /** Calls that all arrive within the window: the first `threshold - 1`
      pass, the next one fails and trips the fuse, raising one notification,
      and the buffer is left empty. */
  method ThresholdCallFails(threshold: int, duration: int, now: int)
    returns (allPassed: bool, last: Outcome, status: FuseStatus, left: seq<Entry<bv8>>, fired: seq<FuseStatus>)
    requires threshold >= 1 && duration > 0
    ensures allPassed && last == Fail(FuseTripped) && status == Tripped
    ensures left == [] && fired == [Tripped]
  {
    var fuse := new TimeSlidingWindowCountFuse(threshold, duration);
    allPassed := true;
    var j := 0;
    while j < threshold - 1
      invariant 0 <= j <= threshold - 1
      invariant fuse.Valid() && fuse.threshold == threshold && fuse.buffer.ttl == duration
      invariant fuse.status == Normal && fuse.events == []
      invariant |fuse.buffer.queue| == j && AllTokensAt(fuse.buffer.queue, now)
      invariant allPassed
      modifies fuse, fuse.buffer
    {
      var r := fuse.Invoke(now);
      allPassed := allPassed && r == Pass;
      j := j + 1;
    }
    last := fuse.Invoke(now);
    status := fuse.status;
    left := fuse.buffer.queue;
    fired := fuse.events;
  }

  /** Once a whole duration has passed since two earlier calls, their tokens
      have expired: a third call passes with threshold 3 and is the only
      token left. */
  method OldTokensExpire(duration: int, t0: int, t1: int)
    returns (first: Outcome, second: Outcome, third: Outcome, left: seq<Entry<bv8>>)
    requires duration > 0 && t1 - t0 >= duration
    ensures first == Pass && second == Pass && third == Pass
    ensures left == [Entry(t1, Token)]
  {
    var fuse := new TimeSlidingWindowCountFuse(3, duration);
    first := fuse.Invoke(t0);
    second := fuse.Invoke(t0);
    third := fuse.Invoke(t1);
    left := fuse.buffer.queue;
  }
}

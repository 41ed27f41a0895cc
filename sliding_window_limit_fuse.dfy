/** The sliding-window limit fuse (Fuses/TimeSlidingWindowLimitFuse.cs): a
    queue of call times; calls older than the window are dropped from the
    front, the new call is enqueued, and reaching the limit trips the fuse
    for the calls after it while the triggering call still passes. */
module SlidingWindowLimitFuses {
  import opened Statuses
  import opened Timestamps

  class TimeSlidingWindowLimitFuse {
    const limit: int
    const window: int
    var status: FuseStatus
    /** Times of the counted calls, oldest first. */
    var queue: seq<int>
    /** The `StatusChanged` notifications raised so far, oldest first. */
    var events: seq<FuseStatus>

    /** Only Normal and Tripped are reachable; the log agrees with the status. */
    ghost predicate Valid()
      reads this
    {
      && (status == Normal || status == Tripped)
      && LogAgrees(events, status)
    }

    constructor (limit: int, window: int)
      ensures Valid()
      ensures this.limit == limit && this.window == window
      ensures status == Normal && queue == [] && events == []
    {
      this.limit := limit;
      this.window := window;
      status := Normal;
      queue := [];
      events := [];
    }

    /** The private `Status` setter: notifies only on a change. */
    method SetStatus(value: FuseStatus)
      requires LogAgrees(events, status)
      modifies this`status, this`events
      ensures status == value && LogAgrees(events, status)
      ensures events == old(events) + Notifications(old(status), value)
    {
      SetterKeepsLog(events, status, value);
      if status != value {
        status := value;
        events := events + [value];
      }
    }

    /** Fails untouched while tripped. Otherwise dequeues the front times more
        than `window` before `now`, enqueues `now`, trips when the queue has
        reached the limit, and passes, even on the call that trips. */
    method TryPass(now: int) returns (passed: bool)
      requires Valid()
      modifies this
      ensures Valid()
      ensures passed <==> old(status) != Tripped
      ensures !passed ==> queue == old(queue) && status == old(status)
      ensures passed ==> queue == DropBefore(old(queue), now - window) + [now]
      ensures passed ==> forall i :: 0 <= i < |old(queue)| - (|queue| - 1) ==> now - old(queue)[i] > window
      ensures passed && |queue| > 1 ==> now - queue[0] <= window
      ensures passed ==> status == (if |queue| >= limit then Tripped else old(status))
      ensures events == old(events) + Notifications(old(status), status)
    {
      if status == Tripped {
        return false;
      }
      while queue != [] && now - queue[0] > window
        invariant DropBefore(queue, now - window) == DropBefore(old(queue), now - window)
        invariant status == old(status) && events == old(events)
        decreases |queue|
      {
        queue := queue[1..];
      }
      DropBeforeSuffix(old(queue), now - window);
      queue := queue + [now];
      if |queue| >= limit {
        SetStatus(Tripped);
      }
      return true;
    }

    /** Empties the queue and returns to Normal. */
    method Reset()
      requires Valid()
      modifies this
      ensures Valid()
      ensures queue == [] && status == Normal
      ensures events == old(events) + Notifications(old(status), Normal)
    {
      queue := [];
      SetStatus(Normal);
    }
  }

  /** Every element of `q` equals `t`. */
  ghost predicate AllAt(q: seq<int>, t: int)
  {
    forall k :: 0 <= k < |q| ==> q[k] == t
  }

  /** With limit 1 the first call passes and trips, the second fails, and
      after a reset a call passes again, whatever the call times. */
  method LimitOneTripsAndResets(window: int, t0: int, t1: int, t2: int)
    returns (first: bool, second: bool, third: bool)
    ensures first && !second && third
  {
    var fuse := new TimeSlidingWindowLimitFuse(1, window);
    first := fuse.TryPass(t0);
    second := fuse.TryPass(t1);
    fuse.Reset();
    third := fuse.TryPass(t2);
  }

  /** `limit - 1` calls at `t0` followed, more than `window` later, by another
      `limit - 1` calls at `t1` all pass and leave the fuse Normal: the first
      late call drops the whole earlier batch. */
  method CalmDown(limit: int, window: int, t0: int, t1: int) returns (allPassed: bool, status: FuseStatus)
    requires 2 <= limit && 0 <= window && t1 - t0 > window
    ensures allPassed && status == Normal
  {
    var fuse := new TimeSlidingWindowLimitFuse(limit, window);
    allPassed := true;
    var j := 0;
    while j < limit - 1
      invariant 0 <= j <= limit - 1
      invariant fuse.Valid() && fuse.limit == limit && fuse.window == window
      invariant fuse.status == Normal && |fuse.queue| == j && AllAt(fuse.queue, t0)
      invariant allPassed
    {
      var passed := fuse.TryPass(t0);
      allPassed := allPassed && passed;
      j := j + 1;
    }
    j := 0;
    while j < limit - 1
      invariant 0 <= j <= limit - 1
      invariant fuse.Valid() && fuse.limit == limit && fuse.window == window
      invariant fuse.status == Normal
      invariant j == 0 ==> |fuse.queue| == limit - 1 && AllAt(fuse.queue, t0)
      invariant j > 0 ==> |fuse.queue| == j && AllAt(fuse.queue, t1)
      invariant allPassed
    {
      if j == 0 {
        DropBeforeAllStale(fuse.queue, t1 - window);
      }
      var passed := fuse.TryPass(t1);
      allPassed := allPassed && passed;
      j := j + 1;
    }
    status := fuse.status;
  }
}

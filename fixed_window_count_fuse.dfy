/** The fixed-window count fuse (Fuses/TimeFixedWindowCountFuse.cs): a queue
    of call times and a window-start marker. Each call is enqueued, the
    window start moves on by one duration once a duration has elapsed, calls
    before the window start are dropped from the front, and reaching the
    threshold trips the fuse, empties the queue and fails the triggering call. */
module FixedWindowCountFuses {
  import opened Statuses
  import opened Timestamps
  import opened Outcomes

  /** The window start after a call at `now`: one duration later once at
      least a whole duration has elapsed since `start`, otherwise `start`.
      The window moves by one duration at most, so it catches up with a call
      less than two durations late and falls behind a later one. */
  function Advance(start: int, duration: int, now: int): (r: int)
    ensures now - start >= duration ==> r == start + duration
    ensures now - start < duration ==> r == start
    ensures duration > 0 && start <= now < start + 2 * duration ==> r <= now < r + duration
    ensures duration > 0 && now >= start + 2 * duration ==> r + duration <= now
  {
    if now - start >= duration then start + duration else start
  }

  class TimeFixedWindowCountFuse {
    const threshold: int
    const duration: int
    var status: FuseStatus
    var windowStart: int
    /** Times of the counted calls, oldest first. */
    var queue: seq<int>
    /** The `StatusChanged` notifications raised so far, oldest first. */
    var events: seq<FuseStatus>

    /** The constructor leaves `Initial` behind for good; a tripped fuse holds
        no calls; no queued call precedes the window start at the front; the
        log agrees with the status. */
    ghost predicate Valid()
      reads this
    {
      && status != Initial
      && (queue == [] || (status == Normal && queue[0] >= windowStart))
      && LogAgrees(events, status)
    }

    /** A new fuse is Normal with an empty queue; its first window starts at
        the given time, or else at `now`. The constructor's own assignment of
        Normal notifies nobody, as nothing has subscribed yet. */
    constructor (threshold: int, duration: int, firstWindowStartTime: Option<int>, now: int)
      ensures Valid()
      ensures this.threshold == threshold && this.duration == duration
      ensures status == Normal && queue == [] && events == []
      ensures windowStart == (if firstWindowStartTime.Some? then firstWindowStartTime.value else now)
    {
      this.threshold := threshold;
      this.duration := duration;
      status := Normal;
      windowStart := if firstWindowStartTime.Some? then firstWindowStartTime.value else now;
      queue := [];
      events := [];
    }

    /** The private `Status` setter: notifies only on a change. */
    method SetStatus(value: FuseStatus)
      requires LogAgrees(events, status)
      modifies this`status, this`events
      ensures status == value && LogAgrees(events, status)
      ensures events == old(events) + Notifications(old(status), value)
    {
      SetterKeepsLog(events, status, value);
      if status != value {
        status := value;
        events := events + [value];
      }
    }

    /** Fails untouched while tripped or manually tripped. Otherwise enqueues
        `now`, advances the window start at most once, drops the front calls
        before the window start, and fails, tripping the fuse and emptying
        the queue, when the calls left have reached the threshold. */
    method Invoke(now: int) returns (r: Outcome)
      requires Valid()
      modifies this
      ensures Valid()
      ensures old(status) == Tripped || old(status) == ManuallyTripped ==>
        r == Fail(FuseTripped) && unchanged(this)
      ensures old(status) == Normal ==>
        var kept := DropBefore(old(queue) + [now], windowStart);
        && windowStart == Advance(old(windowStart), duration, now)
        && (r.Fail? <==> |kept| >= threshold)
        && (r.Fail? ==> r == Fail(FuseTripped) && status == Tripped && queue == [])
        && (r.Pass? ==> status == Normal && queue == kept)
      ensures queue != [] ==> queue[0] >= windowStart
      ensures Ordered(old(queue)) && (old(queue) == [] || old(queue)[|old(queue)| - 1] <= now) ==>
        Ordered(queue) && forall t :: t in queue ==> t >= windowStart
      ensures events == old(events) + Notifications(old(status), status)
    {
      if status == Tripped || status == ManuallyTripped {
        return Fail(FuseTripped);
      }
      if Ordered(queue) && (queue == [] || queue[|queue| - 1] <= now) {
        EnqueueOrdered(queue, now);
        OrderedKeptInWindow(queue + [now], Advance(windowStart, duration, now));
      }
      queue := queue + [now];
      if now - windowStart >= duration {
        windowStart := windowStart + duration;
      }
      DropStale();
      if |queue| >= threshold {
        SetStatus(Tripped);
        queue := [];
        return Fail(FuseTripped);
      }
      return Pass;
    }

    /** The front-eviction loop: dequeues the calls before the window start. */
    method DropStale()
      modifies this`queue
      ensures queue == DropBefore(old(queue), windowStart)
    {
      while queue != [] && queue[0] < windowStart
        invariant DropBefore(queue, windowStart) == DropBefore(old(queue), windowStart)
        decreases |queue|
      {
        queue := queue[1..];
      }
    }

    /** Empties the queue and forces ManuallyTripped; the window start stays. */
    method Trip()
      requires Valid()
      modifies this
      ensures Valid()
      ensures queue == [] && status == ManuallyTripped && windowStart == old(windowStart)
      ensures events == old(events) + Notifications(old(status), ManuallyTripped)
    {
      queue := [];
      SetStatus(ManuallyTripped);
    }

    /** Empties the queue and returns to Normal; the window start stays. */
    method Reset()
      requires Valid()
      modifies this
      ensures Valid()
      ensures queue == [] && status == Normal && windowStart == old(windowStart)
      ensures events == old(events) + Notifications(old(status), Normal)
    {
      queue := [];
      SetStatus(Normal);
    }
  }

  /** Threshold 3: the first two calls of a window pass and the third fails
      itself, tripping the fuse and emptying the queue; the next call fails too. */
  method TriggeringCallFails(duration: int, now: int)
    returns (first: Outcome, second: Outcome, third: Outcome, fourth: Outcome, left: seq<int>, status: FuseStatus)
    requires duration > 0
    ensures first == Pass && second == Pass && third == Fail(FuseTripped) && fourth == Fail(FuseTripped)
    ensures left == [] && status == Tripped
  {
    var fuse := new TimeFixedWindowCountFuse(3, duration, None, now);
    first := fuse.Invoke(now);
    second := fuse.Invoke(now);
    third := fuse.Invoke(now);
    left := fuse.queue;
    fourth := fuse.Invoke(now);
    status := fuse.status;
  }

  /** A call three durations after the window start moves the start on by one
      duration only, not by the whole elapsed multiple. */
  method LateCallAdvancesOnce(threshold: int, duration: int, start: int)
    returns (r: Outcome, windowStart: int)
    requires threshold >= 2 && duration > 0
    ensures r == Pass && windowStart == start + duration
  {
    var fuse := new TimeFixedWindowCountFuse(threshold, duration, Some(start), start);
    r := fuse.Invoke(start + 3 * duration);
    windowStart := fuse.windowStart;
  }

  /** `Trip` does not check the status: an automatically tripped fuse goes
      straight to ManuallyTripped, and only `Reset` brings it back to Normal. */
  method TripAfterAutomaticTrip(duration: int, now: int) returns (before: FuseStatus, after: FuseStatus)
    requires duration > 0
    ensures before == Tripped && after == ManuallyTripped
  {
    var fuse := new TimeFixedWindowCountFuse(1, duration, None, now);
    var r := fuse.Invoke(now);
    before := fuse.status;
    fuse.Trip();
    after := fuse.status;
  }
}

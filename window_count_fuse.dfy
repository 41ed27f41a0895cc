/** The timer-driven window count fuse (Fuses/TimeWindowCountFuse.cs): calls
    increment a counter; reaching the threshold trips the fuse at once, the
    triggering call still passing; a periodic timer, started by the first
    call, clears the counter at the end of every window. */
module WindowCountFuses {
  import opened Statuses
  import opened Outcomes

  class TimeWindowCountFuse {
    const threshold: int
    const duration: int
    var status: FuseStatus
    /** The `long` call counter of the current window. */
    var count: int
    /** Whether the periodic timer is armed (`Change(duration, duration)`)
        rather than stopped (`Change(Infinite, Infinite)`). */
    var timerRunning: bool
    /** The `StatusChanged` notifications raised so far, oldest first. */
    var events: seq<FuseStatus>

    /** The timer runs exactly while the fuse is Normal; a Normal fuse has not
        yet reached the threshold in its window; the fuse counts nothing
        before its first call and after a manual trip; the log agrees with
        the status. */
    ghost predicate Valid()
      reads this
    {
      && count >= 0
      && (timerRunning <==> status == Normal)
      && (status == Normal ==> count < threshold)
      && (status == Initial || status == ManuallyTripped ==> count == 0)
      && LogAgrees(events, status)
    }

    /** A new fuse is Initial, counts nothing and its timer is stopped. */
    constructor (threshold: int, duration: int)
      ensures Valid()
      ensures this.threshold == threshold && this.duration == duration
      ensures status == Initial && count == 0 && !timerRunning && events == []
    {
      this.threshold := threshold;
      this.duration := duration;
      status := Initial;
      count := 0;
      timerRunning := false;
      events := [];
    }

    /** The private `Status` setter: notifies only on a change. */
    method SetStatus(value: FuseStatus)
      requires LogAgrees(events, status)
      modifies this`status, this`events
      ensures status == value && LogAgrees(events, status)
      ensures events == old(events) + Notifications(old(status), value)
    {
      SetterKeepsLog(events, status, value);
      if status != value {
        status := value;
        events := events + [value];
      }
    }

    /** Trips the fuse and stops the timer when the count has reached the
        threshold, then clears the count if `reset` is set. */
    method CheckThreshold(reset: bool)
      requires LogAgrees(events, status)
      modifies this`status, this`events, this`timerRunning, this`count
      ensures LogAgrees(events, status)
      ensures old(count) >= threshold ==> status == Tripped && !timerRunning
      ensures old(count) < threshold ==> status == old(status) && timerRunning == old(timerRunning)
      ensures count == (if reset then 0 else old(count))
      ensures events == old(events) + Notifications(old(status), status)
    {
      if count >= threshold {
        SetStatus(Tripped);
        timerRunning := false;
      }
      if reset {
        count := 0;
      }
    }

    /** Fails untouched while tripped or manually tripped. Otherwise a first
        call after construction or reset moves to Normal and starts the
        timer; the call is counted, and reaching the threshold trips the fuse
        and stops the timer. The call itself passes in every such case. */
    method Invoke() returns (r: Outcome)
      requires Valid()
      modifies this
      ensures Valid()
      ensures old(status) == Tripped || old(status) == ManuallyTripped ==>
        r == Fail(FuseTripped) && unchanged(this) && !timerRunning
      ensures old(status) == Initial || old(status) == Normal ==>
        && r == Pass
        && count == old(count) + 1
        && status == (if count >= threshold then Tripped else Normal)
        && events == old(events) + Notifications(old(status), Normal) + Notifications(Normal, status)
    {
      if status == Tripped || status == ManuallyTripped {
        return Fail(FuseTripped);
      } else if status == Initial {
        SetStatus(Normal);
        timerRunning := true;
      }
      count := count + 1;
      CheckThreshold(false);
      return Pass;
    }

    /** The timer callback at the end of a window: `CheckThreshold` with
        reset. As a Normal fuse is always below its threshold, the tick only
        clears the count: it never trips the fuse and never notifies. */
    method Tick()
      requires Valid() && timerRunning
      modifies this
      ensures Valid()
      ensures count == 0 && status == old(status) && timerRunning
      ensures events == old(events)
    {
      CheckThreshold(true);
    }

    /** Clears the count, forces ManuallyTripped and stops the timer. */
    method Trip()
      requires Valid()
      modifies this
      ensures Valid()
      ensures count == 0 && status == ManuallyTripped && !timerRunning
      ensures events == old(events) + Notifications(old(status), ManuallyTripped)
    {
      count := 0;
      SetStatus(ManuallyTripped);
      timerRunning := false;
    }

    /** Clears the count, returns to Initial and stops the timer, so that the
        next call starts a fresh window. */
    method Reset()
      requires Valid()
      modifies this
      ensures Valid()
      ensures count == 0 && status == Initial && !timerRunning
      ensures events == old(events) + Notifications(old(status), Initial)
    {
      count := 0;
      SetStatus(Initial);
      timerRunning := false;
    }
  }

  /** Within one window every one of `threshold` calls passes; the last one
      trips the fuse, so the fuse has notified Normal and then Tripped, and
      the call after it fails. */
  method ThresholdCallPasses(threshold: int, duration: int)
    returns (allPassed: bool, after: Outcome, status: FuseStatus, fired: seq<FuseStatus>)
    requires threshold >= 1
    ensures allPassed && after == Fail(FuseTripped) && status == Tripped
    ensures fired == [Normal, Tripped]
  {
    var fuse := new TimeWindowCountFuse(threshold, duration);
    allPassed := true;
    var j := 0;
    while j < threshold
      invariant 0 <= j <= threshold
      invariant fuse.Valid() && fuse.threshold == threshold
      invariant fuse.count == j && allPassed
      invariant j == 0 ==> fuse.status == Initial && fuse.events == []
      invariant 0 < j < threshold ==> fuse.status == Normal && fuse.events == [Normal]
      invariant j == threshold ==> fuse.status == Tripped && fuse.events == [Normal, Tripped]
      modifies fuse
    {
      var r := fuse.Invoke();
      allPassed := allPassed && r == Pass;
      j := j + 1;
    }
    after := fuse.Invoke();
    status := fuse.status;
    fired := fuse.events;
  }

  /** With threshold 2, a call, the end of the window, and another call leave
      the fuse Normal with one counted call: the window boundary forgets the
      first call. */
  method WindowEndForgets(duration: int) returns (status: FuseStatus, count: int)
    ensures status == Normal && count == 1
  {
    var fuse := new TimeWindowCountFuse(2, duration);
    var r1 := fuse.Invoke();
    fuse.Tick();
    var r2 := fuse.Invoke();
    status := fuse.status;
    count := fuse.count;
  }

  /** After a reset the fuse is Initial again, and its next call notifies
      Normal once more. */
  method ResetRestartsFromInitial(duration: int) returns (fired: seq<FuseStatus>)
    ensures fired == [Normal, Tripped, Initial, Normal, Tripped]
  {
    var fuse := new TimeWindowCountFuse(1, duration);
    var r1 := fuse.Invoke();
    fuse.Reset();
    var r2 := fuse.Invoke();
    fired := fuse.events;
  }
}

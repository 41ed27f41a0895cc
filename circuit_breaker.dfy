/** The circuit breaker (CircuitBreaker.cs): it subscribes to its fuse's
    `StatusChanged` event, maps every fuse status it is told about to a
    breaker status and republishes the event, and turns the fuse on and off
    through the guarded `On`/`Off`. */
module CircuitBreakers {
  import opened Statuses
  import opened Outcomes
  import FixedWindowCountFuses
  import SlidingWindowCountFuses
  import WindowCountFuses
  import Timestamps
  import TtlBuffers

  /** The breaker status the event handler assigns for a fuse status. */
  function BreakerStatusOf(s: FuseStatus): (b: CircuitBreakerStatus)
    ensures b == On <==> s == Initial || s == Normal
    ensures b == TrippedOff <==> s == Tripped
    ensures b == Off <==> s == ManuallyTripped
  {
    match s
    case Tripped => TrippedOff
    case ManuallyTripped => Off
    case Initial => On
    case Normal => On
  }

  /** The breaker notifications republished for a run of fuse
      notifications: one per fuse notification, in the same order, carrying
      the mapped status, whether or not the mapped status changed. */
  function Relayed(log: seq<FuseStatus>): (out: seq<CircuitBreakerStatus>)
    ensures |out| == |log|
    ensures forall i :: 0 <= i < |log| ==> out[i] == BreakerStatusOf(log[i])
  {
    if log == [] then [] else [BreakerStatusOf(log[0])] + Relayed(log[1..])
  }

  /** A fuse the breaker can drive: one of the fuses that define `Invoke`,
      `Trip` and `Reset`. */
  datatype Fuse =
    | FixedWindow(fixed: FixedWindowCountFuses.TimeFixedWindowCountFuse)
    | SlidingWindow(sliding: SlidingWindowCountFuses.TimeSlidingWindowCountFuse)
    | TimedWindow(timed: WindowCountFuses.TimeWindowCountFuse)
  {
    /** The objects that make up the fuse. */
    ghost function Repr(): set<object>
    {
      match this
      case FixedWindow(f) => {f}
      case SlidingWindow(f) => {f, f.buffer}
      case TimedWindow(f) => {f}
    }

    ghost predicate Valid()
      reads Repr()
    {
      match this
      case FixedWindow(f) => f.Valid()
      case SlidingWindow(f) => f.Valid()
      case TimedWindow(f) => f.Valid()
    }

    /** The fuse's `Status`. */
    function Status(): FuseStatus
      reads Repr()
    {
      match this
      case FixedWindow(f) => f.status
      case SlidingWindow(f) => f.status
      case TimedWindow(f) => f.status
    }

    /** Every `StatusChanged` notification the fuse has raised. */
    function Events(): seq<FuseStatus>
      reads Repr()
    {
      match this
      case FixedWindow(f) => f.events
      case SlidingWindow(f) => f.events
      case TimedWindow(f) => f.events
    }

    /** The state `Reset` leaves behind: nothing counted, and Normal, or for
        the timer-driven fuse Initial with its timer stopped. */
    ghost predicate IsReset()
      reads Repr()
    {
      match this
      case FixedWindow(f) => f.status == Normal && f.queue == []
      case SlidingWindow(f) => f.status == Normal && f.buffer.queue == []
      case TimedWindow(f) => f.status == Initial && f.count == 0 && !f.timerRunning
    }

    /** The state `Trip` leaves behind: nothing counted, ManuallyTripped, and
        for the timer-driven fuse its timer stopped. */
    ghost predicate IsTripped()
      reads Repr()
    {
      match this
      case FixedWindow(f) => f.status == ManuallyTripped && f.queue == []
      case SlidingWindow(f) => f.status == ManuallyTripped && f.buffer.queue == []
      case TimedWindow(f) => f.status == ManuallyTripped && f.count == 0 && !f.timerRunning
    }

    /** Exposes the `LogAgrees` conjunct of the fuse's own `Valid`: the
        latest notification carries the current status. The breaker's
        delivery needs it without unfolding each fuse class. */
    lemma LogAgreesWithStatus()
      requires Valid()
      ensures LogAgrees(Events(), Status())
    {
    }
  }

  class CircuitBreaker {
    /** The fuse given at construction; `Fuse` returns it. */
    const fuse: Fuse
    var status: CircuitBreakerStatus
    /** The breaker's own `StatusChanged` notifications, oldest first. */
    var events: seq<CircuitBreakerStatus>
    /** How many of the fuse's notifications the handler has received: those
        the fuse raised before the breaker subscribed are not delivered. */
    var seen: int

    /** The handler has received every notification raised since the
        subscription, and the breaker status is the mapping of the fuse
        status. */
    ghost predicate Valid()
      reads this, fuse.Repr()
    {
      && fuse.Valid()
      && 0 <= seen == |fuse.Events()|
      && status == BreakerStatusOf(fuse.Status())
    }

    /** Subscribes to the fuse and, since the guard reads the breaker's own
        status field, which still holds its default `On`, always resets the
        fuse: `initialStatus` is never consulted. The breaker ends `On`. */
    constructor (fuse: Fuse, initialStatus: CircuitBreakerStatus)
      requires fuse.Valid()
      modifies fuse.Repr()
      ensures Valid() && this.fuse == fuse
      ensures status == CircuitBreakerStatus.On && fuse.IsReset()
      ensures fuse.FixedWindow? ==> fuse.fixed.windowStart == old(fuse.fixed.windowStart)
      ensures events == Relayed(Notifications(old(fuse.Status()), fuse.Status()))
    {
      this.fuse := fuse;
      status := CircuitBreakerStatus.On;
      events := [];
      seen := |fuse.Events()|;
      new;
      InitialFuseHook(initialStatus);
    }

    /** `InitialFuseHook` after the subscription: resets the fuse when the
        breaker's status field is `On` and trips it otherwise. The
        `initialStatus` argument plays no part. */
    method InitialFuseHook(initialStatus: CircuitBreakerStatus)
      requires fuse.Valid() && 0 <= seen == |fuse.Events()|
      requires status == CircuitBreakerStatus.On || status == BreakerStatusOf(fuse.Status())
      modifies this`status, this`events, this`seen, fuse.Repr()
      ensures Valid()
      ensures old(status) == CircuitBreakerStatus.On ==> status == CircuitBreakerStatus.On && fuse.IsReset()
      ensures old(status) != CircuitBreakerStatus.On ==> status == CircuitBreakerStatus.Off && fuse.IsTripped()
      ensures fuse.FixedWindow? ==> fuse.fixed.windowStart == old(fuse.fixed.windowStart)
      ensures fuse.Events() == old(fuse.Events()) + Notifications(old(fuse.Status()), fuse.Status())
      ensures old(seen) <= seen
      ensures events == old(events) + Relayed(fuse.Events()[old(seen)..])
    {
      if status == CircuitBreakerStatus.On {
        ResetFuse();
      } else {
        TripFuse();
      }
      Relay();
    }

    /** The constructor as evidently intended: the guard reads
        `initialStatus`, resetting the fuse for `On` and tripping it
        otherwise, and the status field starts from the fuse's own status, so
        that a breaker created `Off` (or `TrippedOff`) starts `Off`. */
    constructor WithInitialStatus(fuse: Fuse, initialStatus: CircuitBreakerStatus)
      requires fuse.Valid()
      modifies fuse.Repr()
      ensures Valid() && this.fuse == fuse
      ensures status == (if initialStatus == CircuitBreakerStatus.On then CircuitBreakerStatus.On else CircuitBreakerStatus.Off)
      ensures initialStatus == CircuitBreakerStatus.On ==> fuse.IsReset()
      ensures initialStatus != CircuitBreakerStatus.On ==> fuse.IsTripped()
      ensures fuse.FixedWindow? ==> fuse.fixed.windowStart == old(fuse.fixed.windowStart)
      ensures events == Relayed(Notifications(old(fuse.Status()), fuse.Status()))
    {
      this.fuse := fuse;
      status := BreakerStatusOf(fuse.Status());
      events := [];
      seen := |fuse.Events()|;
      new;
      if initialStatus == CircuitBreakerStatus.On {
        ResetFuse();
      } else {
        TripFuse();
      }
      Relay();
    }

    /** The subscribed handler for one fuse notification, raised while the
        fuse's status is `fuseStatus`: maps it and republishes. */
    method OnFuseStatusChanged(fuseStatus: FuseStatus)
      modifies this`status, this`events
      ensures status == BreakerStatusOf(fuseStatus)
      ensures events == old(events) + [status]
    {
      status := BreakerStatusOf(fuseStatus);
      events := events + [status];
    }

    /** Delivers, in order, the notifications the fuse raised during the last
        fuse call; the source's delivery is synchronous, inside that call. */
    method Relay()
      requires fuse.Valid() && 0 <= seen <= |fuse.Events()|
      requires seen == |fuse.Events()| ==> status == BreakerStatusOf(fuse.Status())
      modifies this`status, this`events, this`seen
      ensures Valid()
      ensures events == old(events) + Relayed(fuse.Events()[old(seen)..])
      ensures old(seen) == |fuse.Events()| ==> unchanged(this)
    {
      fuse.LogAgreesWithStatus();
      Deliver(fuse.Events(), fuse.Status());
    }

    /** Hands the handler, in order, each notification of `log` it has not
        yet received; the last one carries the fuse's current status. */
    method Deliver(log: seq<FuseStatus>, current: FuseStatus)
      requires 0 <= seen <= |log|
      requires log != [] ==> log[|log| - 1] == current
      requires seen == |log| ==> status == BreakerStatusOf(current)
      modifies this`status, this`events, this`seen
      ensures seen == |log| && status == BreakerStatusOf(current)
      ensures events == old(events) + Relayed(log[old(seen)..])
      ensures old(seen) == |log| ==> unchanged(this)
    {
      if seen == |log| {
        return;
      }
      ghost var start := seen;
      while seen < |log|
        invariant start <= seen <= |log|
        invariant events == old(events) + Relayed(log[start..seen])
        invariant seen > start ==> status == BreakerStatusOf(log[seen - 1])
      {
        RelayedStep(log, start, seen);
        OnFuseStatusChanged(log[seen]);
        seen := seen + 1;
      }
    }

    /** `Fuse.Reset()`, dispatched to the fuse's own class. */
    method ResetFuse()
      requires fuse.Valid()
      modifies fuse.Repr()
      ensures fuse.Valid() && fuse.IsReset()
      ensures fuse.FixedWindow? ==> fuse.fixed.windowStart == old(fuse.fixed.windowStart)
      ensures fuse.Events() == old(fuse.Events()) + Notifications(old(fuse.Status()), fuse.Status())
    {
      match fuse
      case FixedWindow(f) => f.Reset();
      case SlidingWindow(f) => f.Reset();
      case TimedWindow(f) => f.Reset();
    }

    /** `Fuse.Trip()`, dispatched to the fuse's own class. */
    method TripFuse()
      requires fuse.Valid()
      modifies fuse.Repr()
      ensures fuse.Valid() && fuse.IsTripped()
      ensures fuse.FixedWindow? ==> fuse.fixed.windowStart == old(fuse.fixed.windowStart)
      ensures fuse.Events() == old(fuse.Events()) + Notifications(old(fuse.Status()), ManuallyTripped)
    {
      match fuse
      case FixedWindow(f) => f.Trip();
      case SlidingWindow(f) => f.Trip();
      case TimedWindow(f) => f.Trip();
    }

    /** Does nothing when already `On`; otherwise resets the fuse, whose one
        notification turns the breaker `On`. */
    method On()
      requires Valid()
      modifies this, fuse.Repr()
      ensures Valid()
      ensures old(status) == CircuitBreakerStatus.On ==> unchanged(this) && unchanged(fuse.Repr())
      ensures old(status) != CircuitBreakerStatus.On ==>
        && status == CircuitBreakerStatus.On && events == old(events) + [CircuitBreakerStatus.On]
        && fuse.IsReset() && (fuse.FixedWindow? ==> fuse.fixed.windowStart == old(fuse.fixed.windowStart))
    {
      if status == CircuitBreakerStatus.On {
        return;
      }
      ResetFuse();
      Relay();
    }

    /** Does nothing when `Off` or `TrippedOff`; otherwise trips the fuse,
        whose one notification turns the breaker `Off`. */
    method Off()
      requires Valid()
      modifies this, fuse.Repr()
      ensures Valid()
      ensures old(status) != CircuitBreakerStatus.On ==> unchanged(this) && unchanged(fuse.Repr())
      ensures old(status) == CircuitBreakerStatus.On ==>
        && status == CircuitBreakerStatus.Off && events == old(events) + [CircuitBreakerStatus.Off]
        && fuse.IsTripped() && (fuse.FixedWindow? ==> fuse.fixed.windowStart == old(fuse.fixed.windowStart))
    {
      if status == CircuitBreakerStatus.Off || status == CircuitBreakerStatus.TrippedOff {
        return;
      }
      TripFuse();
      Relay();
    }

    /** One call of the monitored method: the patch prefix invokes the fuse
        (`Fuse.Invoke`) and the handler relays what the fuse raised. A
        breaker that is not `On` fails every call, and a failed call leaves
        it not `On`. On an `On` breaker the call does what the fuse's own
        `Invoke` does, and the breaker turns `TrippedOff` exactly when that
        call trips the fuse. */
    method Call(now: int) returns (r: Outcome)
      requires Valid()
      modifies this, fuse.Repr()
      ensures Valid()
      ensures old(status) != CircuitBreakerStatus.On ==> r == Fail(FuseTripped) && unchanged(this) && unchanged(fuse.Repr())
      ensures r.Fail? ==> r == Fail(FuseTripped) && status != CircuitBreakerStatus.On
      ensures !fuse.TimedWindow? ==> fuse.Events() == old(fuse.Events()) + Notifications(old(fuse.Status()), fuse.Status())
      ensures fuse.TimedWindow? && old(status) == CircuitBreakerStatus.On ==>
        fuse.Events() == old(fuse.Events()) + Notifications(old(fuse.Status()), Normal) + Notifications(Normal, fuse.Status())
      ensures old(|fuse.Events()|) <= |fuse.Events()|
      ensures events == old(events) + Relayed(fuse.Events()[old(|fuse.Events()|)..])
      ensures old(status) == CircuitBreakerStatus.On && fuse.FixedWindow? ==>
        var kept := Timestamps.DropBefore(old(fuse.fixed.queue) + [now], fuse.fixed.windowStart);
        && fuse.fixed.windowStart == FixedWindowCountFuses.Advance(old(fuse.fixed.windowStart), fuse.fixed.duration, now)
        && (r.Fail? <==> |kept| >= fuse.fixed.threshold)
        && (r.Fail? ==> status == CircuitBreakerStatus.TrippedOff && fuse.fixed.queue == [])
        && (r.Pass? ==> status == CircuitBreakerStatus.On && fuse.fixed.queue == kept)
      ensures old(status) == CircuitBreakerStatus.On && fuse.SlidingWindow? ==>
        var live := TtlBuffers.Evict(old(fuse.sliding.buffer.queue) + [TtlBuffers.Entry(now, SlidingWindowCountFuses.Token)], now, fuse.sliding.buffer.ttl);
        && (r.Fail? <==> |live| >= fuse.sliding.threshold)
        && (r.Fail? ==> status == CircuitBreakerStatus.TrippedOff && fuse.sliding.buffer.queue == [])
        && (r.Pass? ==> status == CircuitBreakerStatus.On && fuse.sliding.buffer.queue == live)
      ensures old(status) == CircuitBreakerStatus.On && fuse.TimedWindow? ==>
        && r == Pass && fuse.timed.count == old(fuse.timed.count) + 1
        && status == (if fuse.timed.count >= fuse.timed.threshold then CircuitBreakerStatus.TrippedOff else CircuitBreakerStatus.On)
    {
      match fuse {
        case FixedWindow(f) => r := f.Invoke(now);
        case SlidingWindow(f) => r := f.Invoke(now);
        case TimedWindow(f) => r := f.Invoke();
      }
      Relay();
    }

    /** The end of a window of a timer-driven fuse: the fuse forgets the
        calls counted in the window and keeps running; the tick raises no
        notification, so the breaker is unchanged. */
    method Tick()
      requires Valid() && fuse.TimedWindow? && fuse.timed.timerRunning
      modifies fuse.Repr()
      ensures Valid()
      ensures fuse.timed.count == 0 && fuse.timed.status == old(fuse.timed.status) && fuse.timed.timerRunning
      ensures fuse.Events() == old(fuse.Events())
    {
      fuse.timed.Tick();
    }
  }

  /** Extending a run of fuse notifications by the next one extends what is
      republished by its mapping. */
  lemma RelayedStep(log: seq<FuseStatus>, i: int, j: int)
    requires 0 <= i <= j < |log|
    ensures Relayed(log[i..j + 1]) == Relayed(log[i..j]) + [BreakerStatusOf(log[j])]
  {
    assert log[i..j + 1] == log[i..j] + [log[j]];
    RelayedAppend(log[i..j], log[j]);
  }

  /** Appending a fuse notification appends its mapped breaker notification. */
  lemma RelayedAppend(log: seq<FuseStatus>, s: FuseStatus)
    ensures Relayed(log + [s]) == Relayed(log) + [BreakerStatusOf(s)]
  {
    var a := Relayed(log + [s]);
    var b := Relayed(log) + [BreakerStatusOf(s)];
    assert |a| == |b|;
    forall i | 0 <= i < |a| ensures a[i] == b[i] {
      if i < |log| {
        assert (log + [s])[i] == log[i];
      }
    }
  }
}

/** Multi-call behaviour of a breaker over each kind of fuse. A call of the
    monitored method is the patch prefix's `Fuse.Invoke` followed by the
    handler's delivery of what the fuse raised (`Relay`). */
module CircuitBreakerScenarios {
  import opened Statuses
  import opened Outcomes
  import opened CircuitBreakers
  import FixedWindowCountFuses
  import SlidingWindowCountFuses
  import WindowCountFuses
  import Timestamps
  import TtlBuffers

  /** A breaker created with initial status `Off` nevertheless starts `On`,
      with its fuse reset, and lets a call through. */
  method InitialOffIsIgnored(duration: int, now: int) returns (status: CircuitBreakerStatus, r: Outcome)
    requires duration > 0
    ensures status == CircuitBreakerStatus.On && r == Pass
  {
    var f := new SlidingWindowCountFuses.TimeSlidingWindowCountFuse(2, duration);
    var breaker := new CircuitBreaker(SlidingWindow(f), CircuitBreakerStatus.Off);
    status := breaker.status;
    r := breaker.Call(now);
  }

  /** With the corrected constructor, a breaker created `Off` starts `Off`
      and fails every call. */
  method InitialOffIsHonoured(duration: int, now: int) returns (status: CircuitBreakerStatus, r: Outcome)
    requires duration > 0
    ensures status == CircuitBreakerStatus.Off && r == Fail(FuseTripped)
  {
    var f := new SlidingWindowCountFuses.TimeSlidingWindowCountFuse(2, duration);
    var breaker := new CircuitBreaker.WithInitialStatus(SlidingWindow(f), CircuitBreakerStatus.Off);
    status := breaker.status;
    r := breaker.Call(now);
  }

  /** A second `Off` changes nothing: one notification in all; calls fail
      until the breaker is turned on again, and then pass. */
  method OffTwiceNotifiesOnce(duration: int, now: int)
    returns (fired: seq<CircuitBreakerStatus>, blocked: Outcome, afterOn: Outcome)
    ensures fired == [CircuitBreakerStatus.Off] && blocked == Fail(FuseTripped) && afterOn == Pass
  {
    var f := new FixedWindowCountFuses.TimeFixedWindowCountFuse(2, duration, None, now);
    var breaker := new CircuitBreaker(FixedWindow(f), CircuitBreakerStatus.On);
    breaker.Off();
    breaker.Off();
    fired := breaker.events;
    blocked := breaker.Call(now);
    breaker.On();
    afterOn := breaker.Call(now);
  }

  /** The first call through a timer-driven fuse moves it from Initial to
      Normal: the breaker stays `On` and still republishes the notification. */
  method FirstCallStillNotifies(duration: int, now: int) returns (status: CircuitBreakerStatus, fired: seq<CircuitBreakerStatus>)
    ensures status == CircuitBreakerStatus.On && fired == [CircuitBreakerStatus.On]
  {
    var f := new WindowCountFuses.TimeWindowCountFuse(2, duration);
    var breaker := new CircuitBreaker(TimedWindow(f), CircuitBreakerStatus.On);
    var r := breaker.Call(now);
    status := breaker.status;
    fired := breaker.events;
  }

  /** A call that trips a threshold-1 fixed-window fuse fails and turns the
      breaker `TrippedOff`; `On` then resets the fuse and the breaker is `On`. */
  method OnAfterTrip(duration: int, now: int)
    returns (r: Outcome, tripped: CircuitBreakerStatus, status: CircuitBreakerStatus, fired: seq<CircuitBreakerStatus>)
    requires duration > 0
    ensures r == Fail(FuseTripped) && tripped == CircuitBreakerStatus.TrippedOff
    ensures status == CircuitBreakerStatus.On
    ensures fired == [CircuitBreakerStatus.TrippedOff, CircuitBreakerStatus.On]
  {
    var f := new FixedWindowCountFuses.TimeFixedWindowCountFuse(1, duration, None, now);
    var breaker := new CircuitBreaker(FixedWindow(f), CircuitBreakerStatus.On);
    assert breaker.events == [];
    ghost var before := f.events;
    r := breaker.Call(now);
    assert f.events[|before|..] == [Tripped];
    assert breaker.events == [CircuitBreakerStatus.TrippedOff];
    tripped := breaker.status;
    breaker.On();
    status := breaker.status;
    fired := breaker.events;
  }
}

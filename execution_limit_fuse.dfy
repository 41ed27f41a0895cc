/** The execution-count fuse (Fuses/ExecutionLimitFuse.cs): a plain counter;
    the call that reaches the limit still passes and trips the fuse for the
    calls after it. */
module ExecutionLimitFuses {
  import opened Statuses

  /** The largest count the fuse can reach: one call always gets counted. */
  function Cap(limit: int): int
  {
    if limit < 1 then 1 else limit
  }

  class ExecutionLimitFuse {
    const limit: int
    var status: FuseStatus
    var count: int
    /** The `StatusChanged` notifications raised so far, oldest first. */
    var events: seq<FuseStatus>

    /** The fuse is Normal or Tripped, it is tripped exactly when at least one
        counted call has reached the limit, and the count never passes the cap. */
    ghost predicate Valid()
      reads this
    {
      && (status == Normal || status == Tripped)
      && 0 <= count <= Cap(limit)
      && (status == Tripped <==> count >= 1 && count >= limit)
      && LogAgrees(events, status)
    }

    constructor (limit: int)
      ensures Valid()
      ensures this.limit == limit && status == Normal && count == 0 && events == []
    {
      this.limit := limit;
      status := Normal;
      count := 0;
      events := [];
    }

    /** The private `Status` setter: notifies only on a change. */
    method SetStatus(value: FuseStatus)
      requires LogAgrees(events, status)
      modifies this`status, this`events
      ensures status == value && LogAgrees(events, status)
      ensures events == old(events) + Notifications(old(status), value)
    {
      SetterKeepsLog(events, status, value);
      if status != value {
        status := value;
        events := events + [value];
      }
    }

    /** Fails without counting while tripped; otherwise counts the call,
        trips once the count reaches the limit, and passes. */
    method TryPass() returns (passed: bool)
      requires Valid()
      modifies this
      ensures Valid()
      ensures passed <==> old(status) != Tripped
      ensures !passed ==> count == old(count) && status == old(status)
      ensures passed ==> count == old(count) + 1
      ensures passed ==> status == (if count >= limit then Tripped else old(status))
      ensures events == old(events) + Notifications(old(status), status)
      ensures status == Tripped <==> count >= limit
      ensures 1 <= limit ==> count <= limit
    {
      if status == Tripped {
        return false;
      }
      count := count + 1;
      if count >= limit {
        SetStatus(Tripped);
      }
      return true;
    }

    /** Zeroes the count and returns to Normal. */
    method Reset()
      requires Valid()
      modifies this
      ensures Valid()
      ensures count == 0 && status == Normal
      ensures events == old(events) + Notifications(old(status), Normal)
    {
      count := 0;
      SetStatus(Normal);
    }
  }

  /** With limit 1 the first call passes and trips, the second fails, and
      after a reset a call passes again. */
  method LimitOneTripsAndResets() returns (first: bool, second: bool, third: bool)
    ensures first && !second && third
  {
    var fuse := new ExecutionLimitFuse(1);
    first := fuse.TryPass();
    second := fuse.TryPass();
    fuse.Reset();
    third := fuse.TryPass();
  }

  /** With limit `limit`, `n <= limit` calls on a new fuse all pass; fewer
      than `limit` raise no notification, exactly `limit` raise one, to Tripped. */
  method NotificationsAfterCalls(limit: int, n: nat) returns (allPassed: bool, fired: seq<FuseStatus>)
    requires 1 <= limit && n <= limit
    ensures allPassed
    ensures fired == (if n == limit then [Tripped] else [])
  {
    var fuse := new ExecutionLimitFuse(limit);
    allPassed := true;
    var j := 0;
    while j < n
      invariant 0 <= j <= n
      invariant fuse.Valid() && fuse.limit == limit
      invariant fuse.count == j
      invariant fuse.events == (if j == limit then [Tripped] else [])
      invariant allPassed
    {
      var passed := fuse.TryPass();
      allPassed := allPassed && passed;
      j := j + 1;
    }
    fired := fuse.events;
  }
}

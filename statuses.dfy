/** The status enumerations of the breaker/fuse engine and the shared
    behaviour of every fuse's private `Status` setter. */
module Statuses {

  /** Fuse status (Fuses/FuseStatus.cs). `Initial` is used only by the
      timer-driven fuse, before its first call. */
  datatype FuseStatus = Initial | Normal | ManuallyTripped | Tripped

  /** Circuit breaker status (CircuitBreakerStatus.cs). */
  datatype CircuitBreakerStatus = On | TrippedOff | Off

  /** The notifications a fuse's `Status` setter raises when `value` is
      assigned while the status is `current`: one, carrying the new value,
      exactly when the value differs. */
  function Notifications(current: FuseStatus, value: FuseStatus): (fired: seq<FuseStatus>)
    ensures |fired| <= 1
    ensures fired == [] <==> current == value
    ensures fired != [] ==> fired[0] == value
  {
    if current != value then [value] else []
  }

  /** A notification log agrees with the fuse's status: the latest
      notification carries the current status, and no notification repeats
      the one before it (the setter only fires on a change). */
  ghost predicate LogAgrees(events: seq<FuseStatus>, status: FuseStatus)
  {
    && (events != [] ==> events[|events| - 1] == status)
    && forall i :: 0 < i < |events| ==> ChangedAt(events, i)
  }

  /** Notification `i` differs from the one before it. */
  ghost predicate ChangedAt(events: seq<FuseStatus>, i: int)
    requires 0 < i < |events|
  {
    events[i - 1] != events[i]
  }

  /** Assigning through the setter keeps the log in agreement with the new status. */
  lemma {:induction false} SetterKeepsLog(events: seq<FuseStatus>, status: FuseStatus, value: FuseStatus)
    requires LogAgrees(events, status)
    ensures LogAgrees(events + Notifications(status, value), value)
  {
    if status != value {
      var e := events + [value];
      forall i | 0 < i < |e| ensures ChangedAt(e, i) {
        if i < |events| {
          assert ChangedAt(events, i);
          assert e[i - 1] == events[i - 1] && e[i] == events[i];
        }
      }
    } else {
      assert events + Notifications(status, value) == events;
    }
  }
}

/** Outcomes of the operations that throw `InvalidOperationException` in the
    source, and an optional value. */
module Outcomes {

  datatype Option<T> = None | Some(value: T)

  /** The distinct failures raised by the core, by the message they carry. */
  datatype Error =
    | FuseTripped        // "Fuse is tripped"
    | AlreadyRegistered  // "Breaker already registered"
    | RegisterFailed     // "Failed to register breaker"
    | NotRegistered      // "Breaker not registered"
    | AlreadyInjected    // "The method has already been injected."
    | InvalidExpression  // ArgumentOutOfRangeException "Invalid expression type ..."

  /** A call that either returns normally or throws `error`. */
  datatype Outcome = Pass | Fail(error: Error)
}

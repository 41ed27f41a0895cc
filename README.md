# Circuit breaker and fuse engine, in Dafny

This project models the state machines at the heart of EdwardHsu.CircuitBreaker:

- the time-to-live buffer;
- the five fuses that decide whether a monitored call may go through;
- the circuit breaker that mirrors its fuse's status and republishes the fuse's status notifications;
- the two registries that map breakers to the calls they watch: the patch registry and the hook injector.

Each class of the source whose fields change is a Dafny `class`. The fuse
classes and `TtlBuffer` keep the source's fields. `CircuitBreaker` drops
the monitored object, the monitored method and the Harmony instance, and
adds `seen`, the number of fuse notifications its handler has received.
The monitored object and method feed the runtime patching and the
breaker's registration in the patch registry; the model drives the
registry on its own, through `PatchFactory.Register`. `CircuitBreakerInjectedHook` is
the datatype `Hook`. The timer of `TimeWindowCountFuse` is a flag. Time is an
integer tick count, passed to every operation that reads the clock as `now`.
A `TimeSpan` is an integer number of ticks. A `StatusChanged` event is a log
field `events` on the object that raises it, with one entry per notification,
oldest first. The breaker's handler is replayed over every new entry of its
fuse's log, in order, because the source's delivery is synchronous. The
periodic timer of the timer-driven fuse is a flag, `timerRunning`, plus an
explicit `Tick` method. Calls that throw `InvalidOperationException`
return `Fail(error)` of an `Outcome`. A selector the hook injector's
`Uninject(Expression<Action>)` cannot read, for which the source throws
`ArgumentOutOfRangeException`, returns `Fail(InvalidExpression)`. Calls
that return normally return `Pass`.

Files:

- `statuses.dfy`: the status enumerations, the shared `Status`-setter behaviour, and the `Outcome` type.
- `timestamps.dfy`: front eviction of timestamp queues.
- `ttl_buffer.dfy`: `TtlBuffer`.
- `execution_limit_fuse.dfy`, `sliding_window_limit_fuse.dfy`, `fixed_window_count_fuse.dfy`, `sliding_window_count_fuse.dfy`, `window_count_fuse.dfy`: the five fuses.
- `circuit_breaker.dfy`: `CircuitBreaker`, and multi-call behaviour of breakers over each kind of fuse.
- `patch_factory.dfy`: `PatchFactory`.
- `hook_injector.dfy`: `CircuitBreakerHookInjector`.

Behaviours of the code that its XML documentation comments and member names do not announce, all modelled as written:

- `Off` does nothing when the breaker is already `Off` or `TrippedOff`; it does not always trip the fuse.
- The fixed window moves on by exactly one duration per call, however long ago it started.
- Negative elapsed times are not clamped.
- Thresholds, limits and durations are not validated.
- `TimeWindowCountFuse` trips inside the call that reaches the threshold and still lets that call pass.
- `Trip` on a `Tripped` fuse goes straight to `ManuallyTripped`.
- The breaker ignores its `initialStatus` argument; see "## Findings".

## Model

| member | source | states |
|---|---|---|
| Statuses.Notifications | EdwardHsu.CircuitBreaker/Fuses/ExecutionLimitFuse.cs:41-52 | the setter raises at most one notification, exactly when the value differs, and it carries the new value |
| Statuses.SetterKeepsLog | EdwardHsu.CircuitBreaker/Fuses/ExecutionLimitFuse.cs:44-51 | after any assignment through the setter, the last notification is the current status and no notification repeats the previous one |
| Timestamps.DropBefore | EdwardHsu.CircuitBreaker/Fuses/TimeSlidingWindowLimitFuse.cs:66-69 | front eviction never lengthens the queue, and whatever remains starts at a timestamp no earlier than the bound |
| Timestamps.DropBeforeSuffix | EdwardHsu.CircuitBreaker/Fuses/TimeSlidingWindowLimitFuse.cs:66-69 | eviction keeps a suffix of the queue, and every timestamp it drops lies before the bound |
| Timestamps.DropBeforeAllStale | EdwardHsu.CircuitBreaker/Fuses/TimeSlidingWindowLimitFuse.cs:66-69 | a queue whose timestamps all lie before the bound is emptied |
| Timestamps.DropBeforeKeepsExactlyRecent | EdwardHsu.CircuitBreaker/Fuses/TimeSlidingWindowLimitFuse.cs:66-69 | on a time-ordered queue, a timestamp is kept if and only if it is no earlier than the bound |
| Timestamps.DropBeforeOrdered | EdwardHsu.CircuitBreaker/Fuses/TimeSlidingWindowLimitFuse.cs:66-69 | eviction keeps a time-ordered queue time-ordered |
| Timestamps.DropBeforeKeepsRecent | EdwardHsu.CircuitBreaker/Fuses/TimeFixedWindowCountFuse.cs:81-101 | a timestamp enqueued at or after the bound survives eviction, behind everything that survives ahead of it |
| Timestamps.OrderedKeptInWindow | EdwardHsu.CircuitBreaker/Fuses/TimeFixedWindowCountFuse.cs:88-101 | on a time-ordered queue, everything front eviction keeps is no earlier than the bound, and stays time-ordered |
| Timestamps.EnqueueOrdered | EdwardHsu.CircuitBreaker/Fuses/TimeFixedWindowCountFuse.cs:79-81 | enqueueing a time no earlier than the last keeps a queue time-ordered |
| Timestamps.OrderedAfterEnqueue | EdwardHsu.CircuitBreaker/Fuses/TimeSlidingWindowLimitFuse.cs:66-71 | evicting and then enqueueing a time no earlier than the last keeps the queue time-ordered |
| TtlBuffers.Evict | EdwardHsu.CircuitBreaker/Internal/TtlBuffer.cs:31-44 | the eviction never lengthens the queue, and the first entry it keeps is not expired |
| TtlBuffers.EvictSuffix | EdwardHsu.CircuitBreaker/Internal/TtlBuffer.cs:31-44 | the eviction keeps a suffix of the queue, and every entry it drops is expired (age at least the time-to-live) |
| TtlBuffers.EvictIdempotent | EdwardHsu.CircuitBreaker/Internal/TtlBuffer.cs:31-44 | evicting a second time at the same moment removes nothing further |
| TtlBuffers.EvictOrderedKeepsLive | EdwardHsu.CircuitBreaker/Internal/TtlBuffer.cs:35-42 | with time-ordered entries, an entry is kept if and only if its age is below the time-to-live |
| TtlBuffers.EvictKeepsFresh | EdwardHsu.CircuitBreaker/Internal/TtlBuffer.cs:22-44 | an unexpired entry added at the back survives eviction, behind the survivors of the earlier entries |
| TtlBuffers.Payloads | EdwardHsu.CircuitBreaker/Internal/TtlBuffer.cs:46-47 | the snapshot lists the payload of every remaining entry, in queue order |
| TtlBuffers.TtlBuffer.constructor | EdwardHsu.CircuitBreaker/Internal/TtlBuffer.cs:16-20 | a new buffer is empty and keeps the given time-to-live |
| TtlBuffers.TtlBuffer.Add | EdwardHsu.CircuitBreaker/Internal/TtlBuffer.cs:22-25 | appends exactly one `(now, obj)` entry at the back and keeps the earlier entries; a time no earlier than the last keeps the queue time-ordered |
| TtlBuffers.TtlBuffer.GetItems | EdwardHsu.CircuitBreaker/Internal/TtlBuffer.cs:27-48 | the loop leaves exactly the evicted queue, and the result is its payloads in order |
| TtlBuffers.TtlBuffer.Clear | EdwardHsu.CircuitBreaker/Internal/TtlBuffer.cs:50-53 | the buffer is empty afterwards |
| ExecutionLimitFuses.ExecutionLimitFuse.constructor | EdwardHsu.CircuitBreaker/Fuses/ExecutionLimitFuse.cs:22-26 | a new fuse is Normal with count 0 and no notifications |
| ExecutionLimitFuses.ExecutionLimitFuse.SetStatus | EdwardHsu.CircuitBreaker/Fuses/ExecutionLimitFuse.cs:41-52 | sets the status and notifies only on a change |
| ExecutionLimitFuses.ExecutionLimitFuse.TryPass | EdwardHsu.CircuitBreaker/Fuses/ExecutionLimitFuse.cs:64-79 | while Tripped it returns false and changes nothing; otherwise it counts exactly one call and returns true, even on the call that trips; afterwards the fuse is Tripped if and only if the count has reached the limit, and with a limit of at least 1 the count never exceeds it |
| ExecutionLimitFuses.ExecutionLimitFuse.Reset | EdwardHsu.CircuitBreaker/Fuses/ExecutionLimitFuse.cs:84-88 | count 0, Normal, one notification if the status changed |
| ExecutionLimitFuses.LimitOneTripsAndResets | EdwardHsu.CircuitBreaker.Tests/GeneralTest.cs:22-33 | with limit 1: true, then false, then true after a reset |
| ExecutionLimitFuses.NotificationsAfterCalls | EdwardHsu.CircuitBreaker.Tests/ExecutionLimitCircuitBreakerTest.cs:21-53 | fewer than `limit` calls raise no notification; exactly `limit` calls raise one, to Tripped; all of them pass |
| SlidingWindowLimitFuses.TimeSlidingWindowLimitFuse.constructor | EdwardHsu.CircuitBreaker/Fuses/TimeSlidingWindowLimitFuse.cs:25-31 | a new fuse is Normal with an empty queue |
| SlidingWindowLimitFuses.TimeSlidingWindowLimitFuse.SetStatus | EdwardHsu.CircuitBreaker/Fuses/TimeSlidingWindowLimitFuse.cs:36-47 | sets the status and notifies only on a change |
| SlidingWindowLimitFuses.TimeSlidingWindowLimitFuse.TryPass | EdwardHsu.CircuitBreaker/Fuses/TimeSlidingWindowLimitFuse.cs:59-79 | while Tripped it returns false with the queue unchanged; otherwise the queue becomes the kept suffix plus `now`, every dropped time is more than `window` old while a time exactly `window` old is kept, the fuse trips when the queue has reached the limit, and the call returns true |
| SlidingWindowLimitFuses.TimeSlidingWindowLimitFuse.Reset | EdwardHsu.CircuitBreaker/Fuses/TimeSlidingWindowLimitFuse.cs:84-88 | empty queue, Normal |
| SlidingWindowLimitFuses.LimitOneTripsAndResets | EdwardHsu.CircuitBreaker.Tests/GeneralTest.cs:36-47 | with limit 1: true, then false, then true after a reset, whatever the call times |
| SlidingWindowLimitFuses.CalmDown | EdwardHsu.CircuitBreaker.Tests/TimeSlidingWindowLimitCircuitBreakerTest.cs:118-130 | two batches of `limit - 1` calls, more than `window` apart, all pass and leave the fuse Normal |
| FixedWindowCountFuses.Advance | EdwardHsu.CircuitBreaker/Fuses/TimeFixedWindowCountFuse.cs:83-86 | the window start moves on by one duration exactly when a whole duration has elapsed, and otherwise stays; so it catches up with a call less than two durations late and stays a duration or more behind a later one |
| FixedWindowCountFuses.TimeFixedWindowCountFuse.constructor | EdwardHsu.CircuitBreaker/Fuses/TimeFixedWindowCountFuse.cs:29-40 | a new fuse is Normal with an empty queue, and its window starts at the given time or else at `now` |
| FixedWindowCountFuses.TimeFixedWindowCountFuse.SetStatus | EdwardHsu.CircuitBreaker/Fuses/TimeFixedWindowCountFuse.cs:45-59 | sets the status and notifies only on a change |
| FixedWindowCountFuses.TimeFixedWindowCountFuse.Invoke | EdwardHsu.CircuitBreaker/Fuses/TimeFixedWindowCountFuse.cs:71-111 | while tripped or manually tripped it fails and changes nothing; otherwise the window start moves as `Advance` says, the queue becomes the call appended and evicted before the window start, and the call fails, tripping and emptying the queue, exactly when that queue has reached the threshold; the queue's front is never before the window start, and when the queue was time-ordered and `now` is no earlier than its last time, the queue stays time-ordered and no queued time precedes the window start |
| FixedWindowCountFuses.TimeFixedWindowCountFuse.DropStale | EdwardHsu.CircuitBreaker/Fuses/TimeFixedWindowCountFuse.cs:88-101 | the eviction loop terminates and leaves exactly the queue evicted before the window start |
| FixedWindowCountFuses.TimeFixedWindowCountFuse.Trip | EdwardHsu.CircuitBreaker/Fuses/TimeFixedWindowCountFuse.cs:116-121 | empty queue, ManuallyTripped, window start unchanged |
| FixedWindowCountFuses.TimeFixedWindowCountFuse.Reset | EdwardHsu.CircuitBreaker/Fuses/TimeFixedWindowCountFuse.cs:126-131 | empty queue, Normal, window start unchanged |
| FixedWindowCountFuses.TriggeringCallFails | EdwardHsu.CircuitBreaker/Fuses/TimeFixedWindowCountFuse.cs:103-110 | with threshold 3, two calls pass, the third fails and trips with the queue emptied, and the next fails too |
| FixedWindowCountFuses.LateCallAdvancesOnce | EdwardHsu.CircuitBreaker/Fuses/TimeFixedWindowCountFuse.cs:83-86 | a call many durations after the window start moves the start on by one duration only |
| FixedWindowCountFuses.TripAfterAutomaticTrip | EdwardHsu.CircuitBreaker/Fuses/TimeFixedWindowCountFuse.cs:116-121 | `Trip` on an automatically tripped fuse makes it ManuallyTripped |
| SlidingWindowCountFuses.TimeSlidingWindowCountFuse.constructor | EdwardHsu.CircuitBreaker/Fuses/TimeSlidingWindowCountFuse.cs:24-31 | a new fuse is Normal with an empty buffer whose time-to-live is the duration |
| SlidingWindowCountFuses.TimeSlidingWindowCountFuse.SetStatus | EdwardHsu.CircuitBreaker/Fuses/TimeSlidingWindowCountFuse.cs:36-50 | sets the status and notifies only on a change |
| SlidingWindowCountFuses.TimeSlidingWindowCountFuse.Invoke | EdwardHsu.CircuitBreaker/Fuses/TimeSlidingWindowCountFuse.cs:62-82 | while tripped or manually tripped it fails and changes neither the fuse nor its buffer; otherwise it adds one token and evicts, and it fails, tripping and clearing the buffer, exactly when the live tokens have reached the threshold; a passing call keeps the live tokens, its own among them |
| SlidingWindowCountFuses.TimeSlidingWindowCountFuse.Trip | EdwardHsu.CircuitBreaker/Fuses/TimeSlidingWindowCountFuse.cs:87-92 | empty buffer, ManuallyTripped |
| SlidingWindowCountFuses.TimeSlidingWindowCountFuse.Reset | EdwardHsu.CircuitBreaker/Fuses/TimeSlidingWindowCountFuse.cs:97-101 | empty buffer, Normal |
| SlidingWindowCountFuses.ThresholdCallFails | EdwardHsu.CircuitBreaker/Fuses/TimeSlidingWindowCountFuse.cs:74-81 | within one window, `threshold - 1` calls pass and the next fails, tripping the fuse with one notification and an empty buffer |
| SlidingWindowCountFuses.OldTokensExpire | EdwardHsu.CircuitBreaker/Fuses/TimeSlidingWindowCountFuse.cs:62-82 | tokens a whole duration old have expired, so a third call passes under threshold 3 and is the only token left |
| WindowCountFuses.TimeWindowCountFuse.constructor | EdwardHsu.CircuitBreaker/Fuses/TimeWindowCountFuse.cs:25-36 | a new fuse is Initial with count 0 and its timer stopped |
| WindowCountFuses.TimeWindowCountFuse.SetStatus | EdwardHsu.CircuitBreaker/Fuses/TimeWindowCountFuse.cs:41-55 | sets the status and notifies only on a change |
| WindowCountFuses.TimeWindowCountFuse.CheckThreshold | EdwardHsu.CircuitBreaker/Fuses/TimeWindowCountFuse.cs:62-78 | a count at the threshold trips the fuse and stops the timer; otherwise nothing changes; the count is zeroed exactly when `reset` is set |
| WindowCountFuses.TimeWindowCountFuse.Invoke | EdwardHsu.CircuitBreaker/Fuses/TimeWindowCountFuse.cs:85-103 | while tripped or manually tripped it fails and changes nothing, its timer stopped; otherwise a first call moves Initial to Normal and starts the timer, the count rises by exactly one, reaching the threshold trips the fuse and stops the timer without zeroing the count, and the call passes |
| WindowCountFuses.TimeWindowCountFuse.Tick | EdwardHsu.CircuitBreaker/Fuses/TimeWindowCountFuse.cs:32-35 | the timer callback zeroes the count and, since a running fuse is below its threshold, neither trips nor notifies |
| WindowCountFuses.TimeWindowCountFuse.Trip | EdwardHsu.CircuitBreaker/Fuses/TimeWindowCountFuse.cs:108-117 | count 0, ManuallyTripped, timer stopped |
| WindowCountFuses.TimeWindowCountFuse.Reset | EdwardHsu.CircuitBreaker/Fuses/TimeWindowCountFuse.cs:122-131 | count 0, Initial, timer stopped |
| WindowCountFuses.ThresholdCallPasses | EdwardHsu.CircuitBreaker/Fuses/TimeWindowCountFuse.cs:92-102 | `threshold` calls in one window all pass, notifying Normal then Tripped; the next call fails |
| WindowCountFuses.WindowEndForgets | EdwardHsu.CircuitBreaker/Fuses/TimeWindowCountFuse.cs:62-78 | the end of a window forgets the calls counted in it |
| WindowCountFuses.ResetRestartsFromInitial | EdwardHsu.CircuitBreaker/Fuses/TimeWindowCountFuse.cs:122-131 | after a reset, the next call notifies Normal again |
| CircuitBreakers.BreakerStatusOf | EdwardHsu.CircuitBreaker/CircuitBreaker.cs:76-90 | Tripped maps to TrippedOff, ManuallyTripped to Off, and Initial and Normal to On, each in both directions |
| CircuitBreakers.Relayed | EdwardHsu.CircuitBreaker/CircuitBreaker.cs:76-93 | one breaker notification per fuse notification, in order, carrying the mapped status, even when the mapped status does not change |
| CircuitBreakers.RelayedAppend | EdwardHsu.CircuitBreaker/CircuitBreaker.cs:92 | one more fuse notification adds exactly its mapped breaker notification |
| CircuitBreakers.CircuitBreaker.constructor | EdwardHsu.CircuitBreaker/CircuitBreaker.cs:31-47 | the breaker keeps the given fuse, always resets it and ends On, whatever `initialStatus` says, having republished the reset's notification |
| CircuitBreakers.CircuitBreaker.InitialFuseHook | EdwardHsu.CircuitBreaker/CircuitBreaker.cs:74-103 | with the status field On the fuse is reset and the breaker is On; otherwise the fuse is tripped and the breaker is Off; the fuse's notifications are republished |
| CircuitBreakers.CircuitBreaker.WithInitialStatus | EdwardHsu.CircuitBreaker/CircuitBreaker.cs:95-102 | the corrected construction: `initialStatus` On resets the fuse and the breaker is On; any other status trips it and the breaker is Off |
| CircuitBreakers.CircuitBreaker.OnFuseStatusChanged | EdwardHsu.CircuitBreaker/CircuitBreaker.cs:76-93 | the handler sets the mapped status and republishes once |
| CircuitBreakers.CircuitBreaker.Relay | EdwardHsu.CircuitBreaker/CircuitBreaker.cs:76-93 | after delivering the fuse's outstanding notifications, the breaker status is the mapping of the fuse status and its log grows by the relayed notifications; with none outstanding the breaker is unchanged |
| CircuitBreakers.CircuitBreaker.Deliver | EdwardHsu.CircuitBreaker/CircuitBreaker.cs:76-93 | the handler receives every outstanding notification in order, ending with the status of the last one; with none outstanding nothing changes |
| CircuitBreakers.RelayedStep | EdwardHsu.CircuitBreaker/CircuitBreaker.cs:92 | delivering one more notification of a run adds exactly its mapped breaker notification |
| CircuitBreakers.CircuitBreaker.ResetFuse | EdwardHsu.CircuitBreaker/CircuitBreaker.cs:97 | `Fuse.Reset()` leaves the fuse reset, notifying only on a change |
| CircuitBreakers.CircuitBreaker.TripFuse | EdwardHsu.CircuitBreaker/CircuitBreaker.cs:101 | `Fuse.Trip()` leaves the fuse manually tripped, notifying only on a change |
| CircuitBreakers.CircuitBreaker.On | EdwardHsu.CircuitBreaker/CircuitBreaker.cs:167-175 | when On, neither the breaker nor its fuse changes; otherwise resets the fuse, and the breaker is On with exactly one notification |
| CircuitBreakers.CircuitBreaker.Off | EdwardHsu.CircuitBreaker/CircuitBreaker.cs:180-189 | when Off or TrippedOff, neither the breaker nor its fuse changes; otherwise trips the fuse, and the breaker is Off with exactly one notification |
| CircuitBreakers.CircuitBreaker.Call | EdwardHsu.CircuitBreaker/PatchFactory.cs:61-64 | a breaker that is not On fails the call, and neither it nor its fuse changes; on an On breaker the call does what the fuse's `Invoke` does (for the fixed window: the window advances, the call is queued and stale times evicted, and the call fails exactly when the queue reaches the threshold; for the sliding window: a token is added and expired ones evicted, failing exactly when the live tokens reach the threshold; for the timer-driven fuse: the count rises by one and the call passes), and the breaker is TrippedOff exactly when the fuse tripped; a failed call leaves it not On; the fuse's notifications are republished |
| CircuitBreakers.CircuitBreaker.Tick | EdwardHsu.CircuitBreaker/Fuses/TimeWindowCountFuse.cs:32-35 | a window end of a timer-driven fuse zeroes its count, keeps its status and its timer running, raises nothing, and leaves the breaker in step |
| CircuitBreakerScenarios.InitialOffIsIgnored | EdwardHsu.CircuitBreaker/CircuitBreaker.cs:95-102 | a breaker created Off starts On, and a call passes |
| CircuitBreakerScenarios.InitialOffIsHonoured | EdwardHsu.CircuitBreaker/CircuitBreaker.cs:95-102 | with the corrected construction, a breaker created Off starts Off, and a call fails |
| CircuitBreakerScenarios.OffTwiceNotifiesOnce | EdwardHsu.CircuitBreaker/CircuitBreaker.cs:180-189 | a second `Off` changes nothing; calls fail until `On`, and then pass |
| CircuitBreakerScenarios.FirstCallStillNotifies | EdwardHsu.CircuitBreaker/CircuitBreaker.cs:86-92 | Initial to Normal keeps the breaker On but is still republished |
| CircuitBreakerScenarios.OnAfterTrip | EdwardHsu.CircuitBreaker.Tests/ExecutionLimitCircuitBreakerTest.cs:58-81 | a tripping call fails and turns the breaker TrippedOff; `On` turns it On again |
| PatchFactories.Selected | EdwardHsu.CircuitBreaker/PatchFactory.cs:55-57 | a breaker is selected if and only if it is registered for exactly the call's instance and method |
| PatchFactories.RegisterSelects | EdwardHsu.CircuitBreaker/PatchFactory.cs:31 | registering adds exactly the new breaker to the selection for its own target and to no other |
| PatchFactories.UnregisterDeselects | EdwardHsu.CircuitBreaker/PatchFactory.cs:49 | unregistering removes exactly that breaker from every selection |
| PatchFactories.PatchFactory.constructor | EdwardHsu.CircuitBreaker/PatchFactory.cs:15-18 | the registry starts empty |
| PatchFactories.PatchFactory.Register | EdwardHsu.CircuitBreaker/PatchFactory.cs:20-36 | a registered breaker is refused in every build, with the build's own error; otherwise exactly one entry is added |
| PatchFactories.PatchFactory.Unregister | EdwardHsu.CircuitBreaker/PatchFactory.cs:38-51 | removes the entry; an absent breaker fails in a release build and is ignored otherwise |
| PatchFactories.PatchFactory.Prefix | EdwardHsu.CircuitBreaker/PatchFactory.cs:53-67 | the loop invokes only fuses of breakers registered for the call; the method proceeds if and only if none of those fuses throws, and then every one of them was invoked; otherwise exactly one throwing fuse was invoked, the last |
| PatchFactories.DoubleRegister | EdwardHsu.CircuitBreaker/PatchFactory.cs:25-34 | the second registration of a breaker fails in both builds; a call then invokes that breaker's fuse and proceeds, and unregistering empties the registry |
| PatchFactories.TrippedFuseStopsCall | EdwardHsu.CircuitBreaker/PatchFactory.cs:61-64 | a call whose one registered fuse throws invokes that fuse and does not proceed |
| PatchFactories.UnregisterAbsent | EdwardHsu.CircuitBreaker/PatchFactory.cs:42-49 | unregistering an unknown breaker fails only in a release build |
| HookInjectors.Matching | EdwardHsu.CircuitBreaker.HookInjector/CircuitBreakerHookInjector.cs:31-35 | the filter returns as many copies of the hook as the list holds, and nothing else |
| HookInjectors.FirstIndex | EdwardHsu.CircuitBreaker.HookInjector/CircuitBreakerHookInjector.cs:89-90 | the index of the first matching hook, or the length when none matches |
| HookInjectors.Triggered | EdwardHsu.CircuitBreaker.HookInjector/CircuitBreakerHookInjector.cs:391-393 | the selection is never longer than the hook list |
| HookInjectors.TriggeredExactly | EdwardHsu.CircuitBreaker.HookInjector/CircuitBreakerHookInjector.cs:391-393 | a breaker is selected for a call if and only if it has a hook on that method and instance |
| HookInjectors.TriggeredPrefix | EdwardHsu.CircuitBreaker.HookInjector/CircuitBreakerHookInjector.cs:399-402 | the breakers selected from the first hooks of the list are the first of those selected from the whole list |
| HookInjectors.RemoveAt | EdwardHsu.CircuitBreaker.HookInjector/CircuitBreakerHookInjector.cs:93 | removing one hook keeps the others in order |
| HookInjectors.RemoveAtMethods | EdwardHsu.CircuitBreaker.HookInjector/CircuitBreakerHookInjector.cs:95-98 | after a removal, the removed hook's method is still referenced exactly when another hook refers to it |
| HookInjectors.HookInjector.constructor | EdwardHsu.CircuitBreaker.HookInjector/CircuitBreakerHookInjector.cs:17-18 | no hooks and no patched methods |
| HookInjectors.HookInjector.GetInjectedMethods | EdwardHsu.CircuitBreaker.HookInjector/CircuitBreakerHookInjector.cs:27-37 | the hooks equal to the breaker, method and instance given: one copy per time the list holds it, and nothing else |
| HookInjectors.HookInjector.IsInjected | EdwardHsu.CircuitBreaker.HookInjector/CircuitBreakerHookInjector.cs:46-49 | true if and only if the triple is listed, and if and only if `GetInjectedMethods` is non-empty |
| HookInjectors.HookInjector.AtMostOneHook | EdwardHsu.CircuitBreaker.HookInjector/CircuitBreakerHookInjector.cs:62-66 | a breaker holds at most one hook per method and instance |
| HookInjectors.HookInjector.HarmonyPatch | EdwardHsu.CircuitBreaker.HookInjector/CircuitBreakerHookInjector.cs:351-368 | patching an already patched method changes nothing; otherwise the method becomes patched |
| HookInjectors.HookInjector.HarmonyUnpatch | EdwardHsu.CircuitBreaker.HookInjector/CircuitBreakerHookInjector.cs:370-387 | the method is no longer patched |
| HookInjectors.HookInjector.Inject | EdwardHsu.CircuitBreaker.HookInjector/CircuitBreakerHookInjector.cs:58-77 | a listed triple is refused with nothing changed; otherwise exactly one hook is appended and its method is patched |
| HookInjectors.HookInjector.Uninject | EdwardHsu.CircuitBreaker.HookInjector/CircuitBreakerHookInjector.cs:85-101 | removes only the first matching hook, does nothing when none matches, and afterwards the triple is not injected; a method stays patched exactly while some hook refers to it |
| HookInjectors.HookInjector.Prefix | EdwardHsu.CircuitBreaker.HookInjector/CircuitBreakerHookInjector.cs:389-406 | the loop executes, in list order, the breakers of the hooks on the call; the method proceeds if and only if none of them throws, and then all were executed; otherwise the executed breakers are the first of them, up to and including the first that throws |
| HookInjectors.HookInjector.UninjectBySelector | EdwardHsu.CircuitBreaker.HookInjector/CircuitBreakerHookInjector.cs:264-287 | as written: a method-call selector uninjects, but a unary selector around a method call injects, so the hook is listed afterwards |
| HookInjectors.HookInjector.UninjectBySelectorFixed | EdwardHsu.CircuitBreaker.HookInjector/CircuitBreakerHookInjector.cs:295-311 | corrected: both selector forms uninject, and the hook is gone afterwards |
| HookInjectors.IsPatched | EdwardHsu.CircuitBreaker.HookInjector/CircuitBreakerHookInjector.cs:95 | a method is patched exactly when some hook refers to it |
| HookInjectors.InjectThenUninject | EdwardHsu.CircuitBreaker.HookInjector.Tests/InjectHookToMethod.cs:16-23 | a hook is reported for its own instance only, and not after `Uninject` |
| HookInjectors.TwoBreakersOneTarget | EdwardHsu.CircuitBreaker.HookInjector.Tests/InjectHookToMethod.cs:193-200 | two breakers on one call each report exactly one hook |
| HookInjectors.PrefixExecutesAll | EdwardHsu.CircuitBreaker.HookInjector/CircuitBreakerHookInjector.cs:389-406 | with two breakers on one call and none throwing, the prefix executes both in injection order and the method proceeds |
| HookInjectors.TrippedBreakerStopsPrefix | EdwardHsu.CircuitBreaker.HookInjector.Tests/InjectHookToMethod.cs:65-68 | when the first of two breakers on a call throws, only it is executed and the method does not run |
| HookInjectors.LastHookUnpatches | EdwardHsu.CircuitBreaker.HookInjector/CircuitBreakerHookInjector.cs:95-98 | the method stays patched while another breaker's hook remains, and is unpatched with the last one |
| HookInjectors.UnaryUninject | EdwardHsu.CircuitBreaker.HookInjector/CircuitBreakerHookInjector.cs:271-277 | after `Inject`, the as-written unary uninject fails as already injected and leaves the hook; the corrected one removes it |

## Left out

- Runtime patching through Harmony (`Patch`, `Unpatch`, `UnpatchAll`, the patch calls in `MonitorObjectAndMethod`) is a foreign library. The hook injector keeps only a ghost set of patched methods. The breaker and the patch registry keep no patch state.
- Expression-tree and reflection parsing (`ParseExpression`, the `MemberExpression` and `FieldInfo` handling in `MonitorObjectAndMethod`) is left out. Methods and instances are opaque values compared by equality, and a selector arrives already reduced to its method and instance. The failures of that parsing are not modelled.
- The `Expression` overloads of `IsInjected`, `GetInjectedMethods` and `Inject` only parse their selector and forward to the modelled operations. They are not modelled separately. Their unary branch dereferences a cast that may be null, and that null dereference is not modelled.
- Concurrency is not modelled: locks, the thread safety of `ConcurrentQueue` and `ConcurrentDictionary`, and races between timer callbacks and calls. Every operation runs to completion before the next one starts.
- The source raises `StatusChanged` from inside the setter, so a handler runs in the middle of the fuse operation. The model delivers the notifications after the fuse operation returns, so a handler that re-enters the fuse or the breaker (say, calls `On` or `Off`) is not modelled. Such a handler would also see states the model never exposes, for instance a `TimeWindowCountFuse` that is already Normal while its timer has not yet started.
- Clocks are not read: `DateTime.UtcNow` and `DateTime.Now` become a `now` argument. `TimeSlidingWindowLimitFuse.TryPass` reads `DateTime.Now` once for every test of its eviction loop and once more for its enqueue. `TimeSlidingWindowCountFuse.Invoke` reads `DateTime.UtcNow` twice, once in `TtlBuffer.Add` and once in `TtlBuffer.GetItems`. The model uses one `now` for every read within one call.
- Timers are not modelled as threads. The timer of `TimeWindowCountFuse` is a flag plus an explicit `Tick`, which may only happen while the timer runs.
- WindowCountFuses.TimeWindowCountFuse.Tick: a Normal fuse is always below its threshold, so in this sequential model a tick never trips the fuse. `CheckThreshold` still states the tripping case for any count.
- `CircuitBreaker.Execute` (ICircuitBreaker.cs) has no body in the source, so it is not modelled.
- `CircuitBreaker.Status` and `CircuitBreaker.Fuse` are plain getters. They are the `status` and `fuse` fields.
- `ExecutionLimitFuse` and `TimeSlidingWindowLimitFuse` define `TryPass` but neither `Invoke` nor `Trip`, which the breaker calls. They are modelled as standalone fuses, and the breaker drives only the three fuses that define those operations.
- PatchFactories.PatchFactory.Prefix: the dictionary's iteration order is left open, so the model does not say which fuses run before the first one that throws. It takes the set of breakers whose fuse throws on this call as an argument, and does not model the state changes of the fuses it invokes. `CircuitBreaker.Call` models one breaker's fuse invocation with its state.
- HookInjectors.HookInjector.Prefix: the breakers whose `Execute` throws on this call are an argument, since `Execute` has no body in the source.
- The `arguments` / `__args` parameters are never read by the fuses, so they are dropped.
- `Dispose` and `DisposeAsync` (unpatch and unregister) are not modelled, nor is the timer's disposal.
- CircuitBreakers.CircuitBreaker.constructor: the source constructor also registers the new breaker in the patch registry for its monitored object and method (`PatchFactory.Register` in `MonitorObjectAndMethod`). Neither constructor of the model does; the model holds no monitored target, and the registry is driven directly through `PatchFactories.PatchFactory.Register`. The link from a registered breaker to its fuse firing on a call is therefore made by `CircuitBreaker.Call`, not by the registry.
- The legacy two-value `FuseStatus` (FuseStatus.cs), the `EH.CircuitBreaker` interfaces and the test-only fuse models are not part of this model.
- TtlBuffers.TtlBuffer.Add and the fuses take `now` as a caller-supplied value. The model does not require it to grow from call to call. The ordering lemmas state what holds when it does.
- The source's `int` and `long` counters are unbounded integers here. The execution counter stops at its limit, and the window counter stays below its threshold while counting. Neither can wrap for a positive limit or threshold.

## Findings

| source | as written | input that shows it | evidently intended | confidence | as-written member | corrected member |
|---|---|---|---|---|---|---|
| EdwardHsu.CircuitBreaker/CircuitBreaker.cs:95 | the guard reads the breaker's own `_status` field, which still holds its default `On` during construction, so the fuse is always reset | `new CircuitBreaker(fuse, selector, CircuitBreakerStatus.Off)` starts `On` and lets calls through | the status field starts from the mapping of the fuse's own status, the guard reads `initialStatus`, and a breaker created `Off` starts `Off` with its fuse tripped | high, not executed | CircuitBreakers.CircuitBreaker.InitialFuseHook | CircuitBreakers.CircuitBreaker.WithInitialStatus |
| EdwardHsu.CircuitBreaker.HookInjector/CircuitBreakerHookInjector.cs:273-276 | the unary-expression branch of `Uninject(Expression<Action>)` calls `Inject` | after `breaker.Inject(m, o)`, `Uninject` given a selector whose body is a unary node around the call `o.M()` throws "already injected" and the hook stays | the branch calls `Uninject`, as the `Expression<Func<object>>` overload does | high, not executed | HookInjectors.HookInjector.UninjectBySelector | HookInjectors.HookInjector.UninjectBySelectorFixed |

/** The patch registry (PatchFactory.cs): a dictionary from each breaker to
    the `(instance, method)` it monitors, and the selection the patch prefix
    makes on every call of a patched method. Breakers, instances and methods
    are opaque identities compared by equality. */
module PatchFactories {
  import opened Outcomes

  /** The breakers registered for `(instance, originalMethod)`. */
  function Selected<B(!new), O(==), M(==)>(targets: map<B, (O, M)>, instance: O, originalMethod: M): (s: set<B>)
    ensures forall b :: b in s <==> b in targets && targets[b] == (instance, originalMethod)
  {
    set b | b in targets && targets[b] == (instance, originalMethod)
  }

  /** Registering `b` for `(o, m)` adds exactly `b` to the selection for
      `(o, m)` and leaves the selection for every other target unchanged. */
  lemma {:induction false} RegisterSelects<B(!new), O, M>(targets: map<B, (O, M)>, b: B, o: O, m: M, instance: O, originalMethod: M)
    requires b !in targets
    ensures Selected(targets[b := (o, m)], instance, originalMethod)
      == if (o, m) == (instance, originalMethod) then Selected(targets, instance, originalMethod) + {b}
         else Selected(targets, instance, originalMethod)
  {
    var after := Selected(targets[b := (o, m)], instance, originalMethod);
    var before := Selected(targets, instance, originalMethod);
    if (o, m) == (instance, originalMethod) {
      assert after == before + {b};
    } else {
      assert after == before;
    }
  }

  /** Unregistering `b` removes exactly `b` from every selection. */
  lemma {:induction false} UnregisterDeselects<B(!new), O, M>(targets: map<B, (O, M)>, b: B, instance: O, originalMethod: M)
    ensures Selected(targets - {b}, instance, originalMethod) == Selected(targets, instance, originalMethod) - {b}
  {
    var after := Selected(targets - {b}, instance, originalMethod);
    var before := Selected(targets, instance, originalMethod);
    assert after == before - {b};
  }

  class PatchFactory<B(==,!new), O(==), M(==)> {
    /** Whether the assembly is a release build: the explicit membership
        checks under `#if !DEBUG` are compiled in. */
    const release: bool
    var targets: map<B, (O, M)>

    constructor (release: bool)
      ensures this.release == release && targets == map[]
    {
      this.release := release;
      targets := map[];
    }

    /** Adds `breaker ↦ (monitorObj, monitorMethod)`. A breaker already
        registered is refused in every build: by the explicit check in a
        release build, by `TryAdd` otherwise. */
    method Register(breaker: B, monitorObj: O, monitorMethod: M) returns (r: Outcome)
      modifies this
      ensures r.Pass? <==> breaker !in old(targets)
      ensures r.Pass? ==> targets == old(targets)[breaker := (monitorObj, monitorMethod)]
      ensures r.Fail? ==> targets == old(targets) && r.error == (if release then AlreadyRegistered else RegisterFailed)
    {
      if release && breaker in targets {
        return Fail(AlreadyRegistered);
      }
      if breaker in targets {
        return Fail(RegisterFailed);
      }
      targets := targets[breaker := (monitorObj, monitorMethod)];
      return Pass;
    }

    /** Removes the breaker's entry. An absent breaker is refused in a
        release build and ignored otherwise. */
    method Unregister(breaker: B) returns (r: Outcome)
      modifies this
      ensures r.Fail? <==> release && breaker !in old(targets)
      ensures r.Fail? ==> r == Fail(NotRegistered) && targets == old(targets)
      ensures r.Pass? ==> targets == old(targets) - {breaker}
    {
      if release && breaker !in targets {
        return Fail(NotRegistered);
      }
      targets := targets - {breaker};
      return Pass;
    }

    /** The prefix run before every call of a patched method: it invokes,
        in the dictionary's enumeration order (which the model leaves open),
        the fuse of every breaker registered for the call's instance and
        original method. `blocked` are the breakers whose fuse throws on
        this call: the first of them ends the visit, and the exception takes
        the place of the original method, which proceeds only when no
        selected fuse throws. */
    method Prefix(instance: O, originalMethod: M, blocked: set<B>) returns (proceed: bool, invoked: set<B>)
      ensures invoked <= Selected(targets, instance, originalMethod)
      ensures proceed <==> Selected(targets, instance, originalMethod) !! blocked
      ensures proceed ==> invoked == Selected(targets, instance, originalMethod)
      ensures !proceed ==> exists b :: invoked * blocked == {b}
    {
      var remaining := Selected(targets, instance, originalMethod);
      invoked := {};
      while remaining != {}
        invariant invoked + remaining == Selected(targets, instance, originalMethod)
        invariant invoked !! remaining && invoked !! blocked
        decreases |remaining|
      {
        var b :| b in remaining;
        invoked := invoked + {b};
        if b in blocked {
          assert invoked * blocked == {b};
          return false, invoked;
        }
        remaining := remaining - {b};
      }
      return true, invoked;
    }
  }

  /** Registering the same breaker twice fails the second time in both
      builds, and unregistering then empties the registry. */
  method DoubleRegister<B(==,!new), O(==), M(==)>(release: bool, b: B, o: O, m: M)
    returns (first: Outcome, second: Outcome, proceed: bool, selected: set<B>, gone: Outcome, left: map<B, (O, M)>)
    ensures first == Pass && second.Fail? && proceed && selected == {b}
    ensures gone == Pass && left == map[]
  {
    var factory := new PatchFactory<B, O, M>(release);
    first := factory.Register(b, o, m);
    second := factory.Register(b, o, m);
    proceed, selected := factory.Prefix(o, m, {});
    gone := factory.Unregister(b);
    left := factory.targets;
  }

  /** Unregistering a breaker that was never registered fails only in a
      release build. */
  method UnregisterAbsent<B(==,!new), O(==), M(==)>(release: bool, b: B) returns (r: Outcome)
    ensures r == (if release then Fail(NotRegistered) else Pass)
  {
    var factory := new PatchFactory<B, O, M>(release);
    r := factory.Unregister(b);
  }

  /** A call whose one registered fuse throws does not reach the original
      method. */
  method TrippedFuseStopsCall<B(==,!new), O(==), M(==)>(release: bool, b: B, o: O, m: M)
    returns (proceed: bool, invoked: set<B>)
    ensures !proceed && invoked == {b}
  {
    var factory := new PatchFactory<B, O, M>(release);
    var registered := factory.Register(b, o, m);
    proceed, invoked := factory.Prefix(o, m, {b});
  }
}

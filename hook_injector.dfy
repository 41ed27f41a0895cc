/** The hook injector (HookInjector/CircuitBreakerHookInjector.cs): a list of
    `(breaker, method, instance)` hooks, and the set of methods the patching
    library has patched with the injector's prefix, which the model keeps as
    ghost state. Breakers, methods and instances are opaque identities
    compared by equality. */
module HookInjectors {
  import opened Outcomes

  /** One injected hook (CircuitBreakerInjectedHook.cs). */
  datatype Hook<B, M, O> = Hook(breaker: B, targetMethod: M, instance: O)

  /** The hooks of `hooks` equal to `h`, in list order: as many copies of
      `h` as `hooks` holds. */
  function Matching<B(==), M(==), O(==)>(hooks: seq<Hook<B, M, O>>, h: Hook<B, M, O>): (r: seq<Hook<B, M, O>>)
    ensures |r| == multiset(hooks)[h]
    ensures forall k :: 0 <= k < |r| ==> r[k] == h
  {
    if hooks == [] then []
    else
      assert hooks == [hooks[0]] + hooks[1..];
      (if hooks[0] == h then [h] else []) + Matching(hooks[1..], h)
  }

  /** The index of the first hook equal to `h`, or `|hooks|` when there is none. */
  function FirstIndex<B(==), M(==), O(==)>(hooks: seq<Hook<B, M, O>>, h: Hook<B, M, O>): (k: int)
    ensures 0 <= k <= |hooks|
    ensures k < |hooks| ==> hooks[k] == h
    ensures forall j :: 0 <= j < k ==> hooks[j] != h
  {
    if hooks == [] then 0
    else if hooks[0] == h then 0
    else 1 + FirstIndex(hooks[1..], h)
  }

  /** The breakers of the hooks on `targetMethod` and `instance`, in list order. */
  function Triggered<B, M(==), O(==)>(hooks: seq<Hook<B, M, O>>, targetMethod: M, instance: O): (r: seq<B>)
    ensures |r| <= |hooks|
  {
    if hooks == [] then []
    else
      var last := hooks[|hooks| - 1];
      Triggered(hooks[..|hooks| - 1], targetMethod, instance)
        + (if last.targetMethod == targetMethod && last.instance == instance then [last.breaker] else [])
  }

  /** A breaker is triggered exactly when it has a hook on the call. */
  lemma {:induction false} TriggeredExactly<B, M, O>(hooks: seq<Hook<B, M, O>>, targetMethod: M, instance: O, b: B)
    ensures b in Triggered(hooks, targetMethod, instance) <==> Hook(b, targetMethod, instance) in hooks
  {
    if hooks != [] {
      var init := hooks[..|hooks| - 1];
      assert hooks == init + [hooks[|hooks| - 1]];
      TriggeredExactly(init, targetMethod, instance, b);
    }
  }

  /** The breakers triggered by a prefix of the list are a prefix of those
      triggered by the whole list. */
  lemma {:induction false} TriggeredPrefix<B, M, O>(hooks: seq<Hook<B, M, O>>, i: int, targetMethod: M, instance: O)
    requires 0 <= i <= |hooks|
    ensures Triggered(hooks[..i], targetMethod, instance) <= Triggered(hooks, targetMethod, instance)
    decreases |hooks|
  {
    if i == |hooks| {
      assert hooks[..i] == hooks;
    } else {
      var init := hooks[..|hooks| - 1];
      assert init[..i] == hooks[..i];
      TriggeredPrefix(init, i, targetMethod, instance);
    }
  }

  /** The methods some hook refers to. */
  ghost function MethodsOf<B, M, O>(hooks: seq<Hook<B, M, O>>): set<M>
  {
    set h | h in hooks :: h.targetMethod
  }

  /** `hooks` without its element at index `k`. */
  function RemoveAt<T>(hooks: seq<T>, k: int): (r: seq<T>)
    requires 0 <= k < |hooks|
    ensures |r| == |hooks| - 1
    ensures forall j :: 0 <= j < k ==> r[j] == hooks[j]
    ensures forall j :: k <= j < |r| ==> r[j] == hooks[j + 1]
  {
    hooks[..k] + hooks[k + 1..]
  }

  /** The expression a selector overload is given, as far as the injector
      inspects it: a method call (already reduced to its method and
      instance), a unary expression around an operand, or anything else. */
  datatype Selector<M, O> =
    | MethodCall(callee: M, target: O)
    | Unary(operand: Selector<M, O>)
    | OtherExpression

  class HookInjector<B(==), M(==), O(==)> {
    /** `_injectedHooks`, in insertion order. */
    var hooks: seq<Hook<B, M, O>>
    /** The methods currently patched with the injector's prefix. */
    ghost var patched: set<M>

    /** A method is patched exactly when some hook refers to it, and no hook
        is listed twice. */
    ghost predicate Valid()
      reads this
    {
      && patched == MethodsOf(hooks)
      && forall i, j :: 0 <= i < j < |hooks| ==> hooks[i] != hooks[j]
    }

    constructor ()
      ensures Valid() && hooks == [] && patched == {}
    {
      hooks := [];
      patched := {};
    }

    /** The hooks of `breaker` on `targetMethod` and `instance`: one copy
        of that hook for every time the list holds it. */
    function GetInjectedMethods(breaker: B, targetMethod: M, instance: O): (r: seq<Hook<B, M, O>>)
      reads this
      ensures |r| == multiset(hooks)[Hook(breaker, targetMethod, instance)]
      ensures forall k :: 0 <= k < |r| ==> r[k] == Hook(breaker, targetMethod, instance)
    {
      Matching(hooks, Hook(breaker, targetMethod, instance))
    }

    /** Whether `breaker` has a hook on `targetMethod` and `instance`. */
    function IsInjected(breaker: B, targetMethod: M, instance: O): (r: bool)
      reads this
      ensures r <==> Hook(breaker, targetMethod, instance) in hooks
      ensures r <==> GetInjectedMethods(breaker, targetMethod, instance) != []
    {
      GetInjectedMethods(breaker, targetMethod, instance) != []
    }

    /** In a valid registry a breaker holds at most one hook per call. */
    lemma AtMostOneHook(breaker: B, targetMethod: M, instance: O)
      requires Valid()
      ensures |GetInjectedMethods(breaker, targetMethod, instance)| <= 1
    {
      var h := Hook(breaker, targetMethod, instance);
      var k := FirstIndex(hooks, h);
      if k < |hooks| {
        assert hooks == hooks[..k] + [h] + hooks[k + 1..];
        assert h !in hooks[..k];
        assert h !in hooks[k + 1..] by {
          forall j | k + 1 <= j < |hooks| ensures hooks[j] != h {
            assert hooks[j] != hooks[k];
          }
        }
        assert multiset(hooks)[h] == multiset(hooks[..k])[h] + 1 + multiset(hooks[k + 1..])[h];
      } else {
        assert multiset(hooks)[h] == 0;
      }
    }

    /** Patches `targetMethod` with the prefix unless it is patched already;
        patching twice changes nothing. */
    method HarmonyPatch(targetMethod: M)
      modifies this`patched
      ensures targetMethod in old(patched) ==> patched == old(patched)
      ensures targetMethod !in old(patched) ==> patched == old(patched) + {targetMethod}
    {
      if targetMethod !in patched {
        patched := patched + {targetMethod};
      }
    }

    /** Removes the prefix from `targetMethod` if it is patched. */
    method HarmonyUnpatch(targetMethod: M)
      modifies this`patched
      ensures patched == old(patched) - {targetMethod}
    {
      if targetMethod in patched {
        patched := patched - {targetMethod};
      }
    }

    /** Refuses a hook that is already listed; otherwise appends it and
        patches its method. */
    method Inject(breaker: B, targetMethod: M, instance: O) returns (r: Outcome)
      requires Valid()
      modifies this
      ensures Valid()
      ensures r.Fail? <==> Hook(breaker, targetMethod, instance) in old(hooks)
      ensures r.Fail? ==> r == Fail(AlreadyInjected) && hooks == old(hooks) && patched == old(patched)
      ensures r.Pass? ==> hooks == old(hooks) + [Hook(breaker, targetMethod, instance)]
      ensures r.Pass? ==> patched == old(patched) + {targetMethod}
    {
      var h := Hook(breaker, targetMethod, instance);
      if h in hooks {
        return Fail(AlreadyInjected);
      }
      hooks := hooks + [h];
      HarmonyPatch(targetMethod);
      assert MethodsOf(hooks) == MethodsOf(old(hooks)) + {targetMethod};
      return Pass;
    }

    /** Removes the first hook of `breaker` on `targetMethod` and `instance`,
        if any, and unpatches the method once no hook refers to it; without
        such a hook it does nothing. Afterwards the breaker is not injected
        there. */
    method Uninject(breaker: B, targetMethod: M, instance: O)
      requires Valid()
      modifies this
      ensures Valid()
      ensures Hook(breaker, targetMethod, instance) !in old(hooks) ==> hooks == old(hooks) && patched == old(patched)
      ensures Hook(breaker, targetMethod, instance) in old(hooks) ==>
        hooks == RemoveAt(old(hooks), FirstIndex(old(hooks), Hook(breaker, targetMethod, instance)))
      ensures !IsInjected(breaker, targetMethod, instance)
    {
      var h := Hook(breaker, targetMethod, instance);
      var k := FirstIndex(hooks, h);
      if k < |hooks| {
        ghost var before := hooks;
        hooks := RemoveAt(hooks, k);
        RemoveAtMethods(before, k);
        if !(exists g :: g in hooks && g.targetMethod == targetMethod) {
          HarmonyUnpatch(targetMethod);
        }
        assert h !in hooks by {
          forall j | 0 <= j < |hooks| ensures hooks[j] != h {
            if j >= k {
              assert before[j + 1] != before[k];
            }
          }
        }
        forall i, j | 0 <= i < j < |hooks| ensures hooks[i] != hooks[j] {
          var i' := if i < k then i else i + 1;
          var j' := if j < k then j else j + 1;
          assert hooks[i] == before[i'] && hooks[j] == before[j'];
        }
      }
    }

    /** The prefix run before every call of a patched method: it visits, in
        list order, the hooks on the call's method and instance and executes
        their breakers. `blocked` are the breakers whose `Execute` throws on
        this call: the first of them ends the visit, and the exception takes
        the place of the original method, which proceeds only when no
        executed breaker throws. */
    method Prefix(instance: O, originalMethod: M, blocked: set<B>) returns (proceed: bool, executed: seq<B>)
      ensures var t := Triggered(hooks, originalMethod, instance);
        && (proceed <==> forall k :: 0 <= k < |t| ==> t[k] !in blocked)
        && (proceed ==> executed == t)
        && (!proceed ==> 0 < |executed| && executed <= t && executed[|executed| - 1] in blocked)
      ensures forall k :: 0 <= k < |executed| - 1 ==> executed[k] !in blocked
    {
      executed := [];
      var i := 0;
      while i < |hooks|
        invariant 0 <= i <= |hooks|
        invariant executed == Triggered(hooks[..i], originalMethod, instance)
        invariant forall k :: 0 <= k < |executed| ==> executed[k] !in blocked
      {
        assert hooks[..i + 1][..i] == hooks[..i];
        if hooks[i].targetMethod == originalMethod && hooks[i].instance == instance {
          executed := executed + [hooks[i].breaker];
          if hooks[i].breaker in blocked {
            TriggeredPrefix(hooks, i + 1, originalMethod, instance);
            ghost var t := Triggered(hooks, originalMethod, instance);
            assert t[|executed| - 1] == executed[|executed| - 1];
            return false, executed;
          }
        }
        i := i + 1;
      }
      assert hooks[..|hooks|] == hooks;
      return true, executed;
    }

    /** `Uninject(Expression<Action>)` as written: its unary-expression
        branch calls `Inject`, so a hook named through a unary selector is
        added, or refused as already injected, instead of removed. */
    method UninjectBySelector(breaker: B, selector: Selector<M, O>) returns (r: Outcome)
      requires Valid()
      modifies this
      ensures Valid()
      ensures selector.MethodCall? ==> r == Pass && !IsInjected(breaker, selector.callee, selector.target)
      ensures selector.Unary? && selector.operand.MethodCall? ==>
        && (r.Pass? <==> Hook(breaker, selector.operand.callee, selector.operand.target) !in old(hooks))
        && (r.Fail? ==> r == Fail(AlreadyInjected))
        && IsInjected(breaker, selector.operand.callee, selector.operand.target)
      ensures !selector.MethodCall? && !(selector.Unary? && selector.operand.MethodCall?) ==>
        r == Fail(InvalidExpression) && hooks == old(hooks)
    {
      match selector
      case MethodCall(m, o) =>
        Uninject(breaker, m, o);
        r := Pass;
      case Unary(MethodCall(m, o)) =>
        r := Inject(breaker, m, o);
      case Unary(_) =>
        r := Fail(InvalidExpression);
      case OtherExpression =>
        r := Fail(InvalidExpression);
    }

    /** `Uninject(Expression<Action>)` as evidently intended: the unary
        branch uninjects the operand's call, as the `Func<object>` overload
        does for a call operand. Only that branch follows the other
        overload: a non-call operand and any other expression still fail
        as invalid, as this overload does, where the other one would pass
        on a null call. */
    method UninjectBySelectorFixed(breaker: B, selector: Selector<M, O>) returns (r: Outcome)
      requires Valid()
      modifies this
      ensures Valid()
      ensures selector.MethodCall? ==> r == Pass && !IsInjected(breaker, selector.callee, selector.target)
      ensures selector.Unary? && selector.operand.MethodCall? ==>
        r == Pass && !IsInjected(breaker, selector.operand.callee, selector.operand.target)
      ensures !selector.MethodCall? && !(selector.Unary? && selector.operand.MethodCall?) ==>
        r == Fail(InvalidExpression) && hooks == old(hooks)
    {
      match selector
      case MethodCall(m, o) =>
        Uninject(breaker, m, o);
        r := Pass;
      case Unary(MethodCall(m, o)) =>
        Uninject(breaker, m, o);
        r := Pass;
      case Unary(_) =>
        r := Fail(InvalidExpression);
      case OtherExpression =>
        r := Fail(InvalidExpression);
    }
  }

  /** Removing the hook at `k` keeps every other hook's method, and drops
      the removed hook's method only when no remaining hook refers to it. */
  lemma RemoveAtMethods<B, M, O>(hooks: seq<Hook<B, M, O>>, k: int)
    requires 0 <= k < |hooks|
    ensures var rest := RemoveAt(hooks, k);
      MethodsOf(rest) == if exists g :: g in rest && g.targetMethod == hooks[k].targetMethod
                         then MethodsOf(hooks) else MethodsOf(hooks) - {hooks[k].targetMethod}
  {
    var rest := RemoveAt(hooks, k);
    assert hooks == rest[..k] + [hooks[k]] + rest[k..];
    forall g | g in hooks && g != hooks[k] ensures g in rest {
      var j :| 0 <= j < |hooks| && hooks[j] == g;
      if j < k { assert rest[j] == g; } else { assert j > k && rest[j - 1] == g; }
    }
  }

  /** A hook is reported for its own instance only, and is gone after
      `Uninject`. */
  method InjectThenUninject<B(==), M(==), O(==)>(b: B, m: M, o1: O, o2: O)
    returns (injected: bool, otherInstance: bool, afterUninject: bool)
    requires o1 != o2
    ensures injected && !otherInstance && !afterUninject
  {
    var injector := new HookInjector<B, M, O>();
    var r := injector.Inject(b, m, o1);
    injected := injector.IsInjected(b, m, o1);
    otherInstance := injector.IsInjected(b, m, o2);
    injector.Uninject(b, m, o1);
    afterUninject := injector.IsInjected(b, m, o1);
  }

  /** Two breakers injected on one call each hold exactly one hook. */
  method TwoBreakersOneTarget<B(==), M(==), O(==)>(b1: B, b2: B, m: M, o: O)
    returns (one: int, two: int)
    requires b1 != b2
    ensures one == 1 && two == 1
  {
    var injector := new HookInjector<B, M, O>();
    var h1, h2 := Hook(b1, m, o), Hook(b2, m, o);
    var r1 := injector.Inject(b1, m, o);
    var r2 := injector.Inject(b2, m, o);
    assert injector.hooks == [h1, h2];
    one := |injector.GetInjectedMethods(b1, m, o)|;
    two := |injector.GetInjectedMethods(b2, m, o)|;
  }

  /** With two breakers on one call the prefix executes both, in injection
      order, and the method proceeds. */
  method PrefixExecutesAll<B(==), M(==), O(==)>(b1: B, b2: B, m: M, o: O)
    returns (proceed: bool, executed: seq<B>)
    requires b1 != b2
    ensures proceed && executed == [b1, b2]
  {
    var injector := new HookInjector<B, M, O>();
    var r1 := injector.Inject(b1, m, o);
    var r2 := injector.Inject(b2, m, o);
    assert injector.hooks == [Hook(b1, m, o), Hook(b2, m, o)];
    assert injector.hooks[..1] == [Hook(b1, m, o)];
    proceed, executed := injector.Prefix(o, m, {});
  }

  /** When the first of two breakers on a call throws, the second is never
      executed and the method does not run. */
  method TrippedBreakerStopsPrefix<B(==), M(==), O(==)>(b1: B, b2: B, m: M, o: O)
    returns (proceed: bool, executed: seq<B>)
    requires b1 != b2
    ensures !proceed && executed == [b1]
  {
    var injector := new HookInjector<B, M, O>();
    var r1 := injector.Inject(b1, m, o);
    var r2 := injector.Inject(b2, m, o);
    assert injector.hooks == [Hook(b1, m, o), Hook(b2, m, o)];
    assert injector.hooks[..1] == [Hook(b1, m, o)];
    assert [Hook(b1, m, o)][..0] == [];
    assert Triggered(injector.hooks, m, o) == [b1, b2];
    proceed, executed := injector.Prefix(o, m, {b1});
    assert executed[0] == b1;
    assert |executed| <= 2;
    assert executed[|executed| - 1] == b1;
  }

  /** The method stays patched while another breaker's hook refers to it,
      and is unpatched when the last hook goes. */
  method LastHookUnpatches<B(==), M(==), O(==)>(b1: B, b2: B, m: M, o: O)
    returns (stillPatched: bool, finallyPatched: bool)
    requires b1 != b2
    ensures stillPatched && !finallyPatched
  {
    var injector := new HookInjector<B, M, O>();
    var h1, h2 := Hook(b1, m, o), Hook(b2, m, o);
    var r1 := injector.Inject(b1, m, o);
    var r2 := injector.Inject(b2, m, o);
    assert injector.hooks == [h1, h2];
    injector.Uninject(b1, m, o);
    assert FirstIndex([h1, h2], h1) == 0;
    assert injector.hooks == [h2];
    stillPatched := IsPatched(injector, m);
    injector.Uninject(b2, m, o);
    assert injector.hooks == [];
    finallyPatched := IsPatched(injector, m);
  }

  /** Whether the injector has patched `m`, as a value for the scenarios. */
  method IsPatched<B(==), M(==), O(==)>(injector: HookInjector<B, M, O>, m: M) returns (p: bool)
    requires injector.Valid()
    ensures p <==> m in injector.patched
  {
    p := exists g :: g in injector.hooks && g.targetMethod == m;
  }

  /** A unary selector given to `Uninject` injects instead: after an
      `Inject`, the uninject fails as already injected and the hook stays;
      the corrected overload removes it. */
  method UnaryUninject<B(==), M(==), O(==)>(b: B, m: M, o: O)
    returns (asWritten: Outcome, injectedAfter: bool, fixed: Outcome, injectedAfterFix: bool)
    ensures asWritten == Fail(AlreadyInjected) && injectedAfter
    ensures fixed == Pass && !injectedAfterFix
  {
    var injector := new HookInjector<B, M, O>();
    var r := injector.Inject(b, m, o);
    asWritten := injector.UninjectBySelector(b, Unary(MethodCall(m, o)));
    injectedAfter := injector.IsInjected(b, m, o);
    fixed := injector.UninjectBySelectorFixed(b, Unary(MethodCall(m, o)));
    injectedAfterFix := injector.IsInjected(b, m, o);
  }
}

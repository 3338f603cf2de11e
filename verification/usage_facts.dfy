/**
 * How the pieces of the registry fit together: what a lookup below a
 * provider returns, how a hook made by `createGlobalHook` is registered, and
 * what a component wrapped by `withGlobalHooks` receives.
 */
module UsageFacts {
  import opened Wrappers
  import opened JsValues
  import opened GlobalHook
  import opened ProviderFacts

  /** What `useGlobalHook` returns for a stored value: the value itself, unless it is falsy. */
  function Found(name: Value, store: Value): Result<Value, Error> {
    if Truthy(store) then Success(store) else Failure(StoreNotInitialized(name))
  }

  // ---------------------------------------------------------------------------
  // useGlobalHook below a provider
  // ---------------------------------------------------------------------------

  /**
   * Below a provider that succeeded, a lookup finds an inherited store as
   * the enclosing provider would, finds a registered hook's store as the
   * value its producer returned, and finds nothing under any other name.
   */
  lemma LookupAfterProvider(parent: Option<Registry>, hooks: Value, oracle: Oracle, name: Value)
    requires GlobalHooksProvider(parent, hooks, oracle).result.Success?
    ensures hooks.Array?
    ensures var published := GlobalHooksProvider(parent, hooks, oracle).result.value;
            var key := PropertyKey(name);
            && (key in Inherited(parent) ==>
                  UseGlobalHook(Some(published), name) == UseGlobalHook(Some(Inherited(parent)), name))
            && (forall j | 0 <= j < |hooks.elems| && Tag(hooks.elems[j]) == Some(key) ::
                  UseGlobalHook(Some(published), name) == Found(name, Invoke(hooks.elems[j].f, [], oracle)))
            && (key !in Inherited(parent).Keys + TagSet(hooks.elems) ==>
                  UseGlobalHook(Some(published), name) == Failure(StoreNotInitialized(name)))
  {
    ProviderRegistersEveryHook(parent, hooks, oracle);
  }

  /**
   * Registering a producer under a name and looking that name up below the
   * provider yields exactly the value the producer returned at registration.
   */
  lemma LookupReturnsRegisteredStore(parent: Option<Registry>, hooks: Value, oracle: Oracle, j: nat)
    requires GlobalHooksProvider(parent, hooks, oracle).result.Success?
    requires hooks.Array? && j < |hooks.elems|
    ensures Tag(hooks.elems[j]).Some?
    ensures var published := GlobalHooksProvider(parent, hooks, oracle).result.value;
            var name := Str(Tag(hooks.elems[j]).value);
            UseGlobalHook(Some(published), name) == Found(name, Invoke(hooks.elems[j].f, [], oracle))
  {
    ProviderRegistersEveryHook(parent, hooks, oracle);
    LookupAfterProvider(parent, hooks, oracle, Str(Tag(hooks.elems[j]).value));
  }

  // ---------------------------------------------------------------------------
  // createGlobalHook and the provider
  // ---------------------------------------------------------------------------

  /**
   * A provider given only a hook made by `createGlobalHook(name, fn)` invokes
   * it and stores `fn`'s result under `name` when `name` is a string new to
   * the inherited registry; it throws a duplicate error for an inherited
   * name, and an untagged error, invoking nothing, for a non-string name.
   */
  lemma CreatedHookRegistersUnderItsName(parent: Option<Registry>, name: Value, fn: Value, oracle: Oracle)
    requires fn.Fn?
    ensures CreateGlobalHook(name, fn).Success?
    ensures var hook := CreateGlobalHook(name, fn).value;
            var p := GlobalHooksProvider(parent, Array([Fn(hook)]), oracle);
            var base := Inherited(parent);
            && (!name.Str? ==> p == Provided(Failure(HookNotTagged), []))
            && (name.Str? && name.s in base ==> p == Provided(Failure(DuplicateHook(name.s)), []))
            && (name.Str? && name.s !in base ==>
                  p == Provided(Success(base[name.s := Invoke(fn.f, [], oracle)]), [hook]))
  {
    var hook := CreateGlobalHook(name, fn).value;
    var hooks := [Fn(hook)];
    var base := Inherited(parent);
    assert hooks[1..] == [];
    if name.Str? && name.s !in base {
      var store := Invoke(hook, [], oracle);
      assert store == Invoke(fn.f, [], oracle);
      var next := base[name.s := store];
      assert Register(next, [], oracle) == Provided(Success(next), []);
      assert Register(base, hooks, oracle) == Provided(Success(next), [hook] + []);
    }
  }

  /**
   * Because `createGlobalHook` wraps `fn` instead of tagging it, one producer
   * can be registered under two different names: the two wrappers are
   * distinct functions, each invoked once, in order, and each name holds the
   * result of its own wrapper's call.
   */
  lemma SameProducerUnderTwoNames(parent: Option<Registry>, a: string, b: string, fn: Value, oracle: Oracle)
    requires fn.Fn? && a != b && a !in Inherited(parent) && b !in Inherited(parent)
    ensures CreateGlobalHook(Str(a), fn).Success? && CreateGlobalHook(Str(b), fn).Success?
    ensures var ha := CreateGlobalHook(Str(a), fn).value;
            var hb := CreateGlobalHook(Str(b), fn).value;
            && ha != hb
            && GlobalHooksProvider(parent, Array([Fn(ha), Fn(hb)]), oracle) ==
                 Provided(Success(Inherited(parent)[a := Invoke(ha, [], oracle)][b := Invoke(hb, [], oracle)]), [ha, hb])
  {
    var ha := CreateGlobalHook(Str(a), fn).value;
    var hb := CreateGlobalHook(Str(b), fn).value;
    var hooks := [Fn(ha), Fn(hb)];
    var base := Inherited(parent);
    var first := base[a := Invoke(ha, [], oracle)];
    var both := first[b := Invoke(hb, [], oracle)];
    assert hooks[1..] == [Fn(hb)];
    assert [Fn(hb)][1..] == [];
    assert Register(both, [], oracle) == Provided(Success(both), []);
    assert Register(first, [Fn(hb)], oracle) == Provided(Success(both), [hb] + []);
    assert Register(base, hooks, oracle) == Provided(Success(both), [ha] + [hb]);
  }

  /**
   * The same tagged hook listed twice: the provider invokes it once, then
   * throws a `SyntaxError` naming the duplicated name.
   */
  lemma DuplicateHookIsRejected(name: string, fn: Value, oracle: Oracle)
    requires fn.Fn?
    ensures CreateGlobalHook(Str(name), fn).Success?
    ensures var hook := CreateGlobalHook(Str(name), fn).value;
            var p := GlobalHooksProvider(None, Array([Fn(hook), Fn(hook)]), oracle);
            p == Provided(Failure(DuplicateHook(name)), [hook]) && p.result.error.Class() == SyntaxError
  {
    var hook := CreateGlobalHook(Str(name), fn).value;
    var hooks := [Fn(hook), Fn(hook)];
    var first := map[name := Invoke(hook, [], oracle)];
    assert hooks[1..] == [Fn(hook)];
    assert CheckHook(first.Keys, Fn(hook)) == Some(DuplicateHook(name));
    assert Register(first, [Fn(hook)], oracle) == Provided(Failure(DuplicateHook(name)), []);
    assert Register(map[], hooks, oracle) == Provided(Failure(DuplicateHook(name)), [hook] + []);
  }

  // ---------------------------------------------------------------------------
  // withGlobalHooks
  // ---------------------------------------------------------------------------

  /**
   * Gathering the stores fails exactly when some name's lookup fails, and
   * then with the error of the first name whose lookup fails.
   */
  lemma {:induction false} CollectStoresFailsAtFirstMissing(context: Option<Registry>, names: seq<Value>, stores: Registry)
    ensures var r := CollectStores(context, names, stores);
            r.Failure? <==> exists j | 0 <= j < |names| :: UseGlobalHook(context, names[j]).Failure?
    ensures var r := CollectStores(context, names, stores);
            r.Failure? ==>
              exists i | 0 <= i < |names| ::
                && (forall j | 0 <= j < i :: UseGlobalHook(context, names[j]).Success?)
                && UseGlobalHook(context, names[i]) == Failure(r.error)
    decreases |names|
  {
    if |names| > 0 {
      var head := UseGlobalHook(context, names[0]);
      if head.Failure? {
        assert UseGlobalHook(context, names[0]) == Failure(CollectStores(context, names, stores).error);
      } else {
        var tail := names[1..];
        var next := stores[PropertyKey(names[0]) := head.value];
        CollectStoresFailsAtFirstMissing(context, tail, next);
        assert forall j | 0 <= j < |tail| :: tail[j] == names[j + 1];
        var r := CollectStores(context, names, stores);
        assert r == CollectStores(context, tail, next);
        if r.Failure? {
          var i :| 0 <= i < |tail| && (forall j | 0 <= j < i :: UseGlobalHook(context, tail[j]).Success?)
                   && UseGlobalHook(context, tail[i]) == Failure(r.error);
          assert forall j | 0 <= j < i + 1 :: UseGlobalHook(context, names[j]).Success? by {
            forall j | 0 <= j < i + 1
              ensures UseGlobalHook(context, names[j]).Success?
            {
              if j > 0 {
                assert names[j] == tail[j - 1];
              }
            }
          }
          assert UseGlobalHook(context, names[i + 1]) == Failure(r.error);
        } else {
          forall j | 0 <= j < |names|
            ensures UseGlobalHook(context, names[j]).Success?
          {
            if j > 0 {
              assert names[j] == tail[j - 1];
            }
          }
        }
      }
    }
  }

  /**
   * A wrapped component renders exactly when every requested name resolves;
   * otherwise it throws the error of the first name that does not.
   */
  lemma RenderHocFailsIff(hoc: Hoc, context: Option<Registry>, props: map<string, Value>)
    ensures var r := RenderHoc(hoc, context, props);
            r.Failure? <==> exists j | 0 <= j < |hoc.names| :: UseGlobalHook(context, hoc.names[j]).Failure?
    ensures var r := RenderHoc(hoc, context, props);
            r.Failure? ==>
              exists i | 0 <= i < |hoc.names| ::
                && (forall j | 0 <= j < i :: UseGlobalHook(context, hoc.names[j]).Success?)
                && UseGlobalHook(context, hoc.names[i]) == Failure(r.error)
  {
    CollectStoresFailsAtFirstMissing(context, hoc.names, map[]);
  }

  /**
   * For any arguments, `withGlobalHooks` accepts exactly a truthy component
   * with an array of names, and the wrapper it returns renders exactly when
   * every name in that array resolves, each carrying its looked-up store.
   */
  lemma WrappedComponentRenders(component: Value, names: Value, context: Option<Registry>, props: map<string, Value>)
    ensures WithGlobalHooks(component, names).Success? <==> Truthy(component) && names.Array?
    ensures var w := WithGlobalHooks(component, names);
            w.Success? ==>
              var r := RenderHoc(w.value, context, props);
              && (r.Success? <==> forall j | 0 <= j < |names.elems| :: UseGlobalHook(context, names.elems[j]).Success?)
              && (r.Success? ==> forall j | 0 <= j < |names.elems| ::
                    r.value.props[PropertyKey(names.elems[j])] == UseGlobalHook(context, names.elems[j]).value)
  {
    var w := WithGlobalHooks(component, names);
    if w.Success? {
      RenderHocFailsIff(w.value, context, props);
    }
  }

  /**
   * A component wrapped with `withGlobalHooks(component, ["counter"])` and
   * rendered below a provider of the hook `createGlobalHook("counter", fn)`
   * receives its own props plus `counter`, bound to the value `fn` returned.
   */
  lemma InjectedStoreReachesComponent(fn: Value, component: Value, props: map<string, Value>, oracle: Oracle)
    requires fn.Fn? && Truthy(component) && Truthy(Invoke(fn.f, [], oracle))
    ensures CreateGlobalHook(Str("counter"), fn).Success?
    ensures var hook := CreateGlobalHook(Str("counter"), fn).value;
            var p := GlobalHooksProvider(None, Array([Fn(hook)]), oracle);
            var hoc := WithGlobalHooks(component, Array([Str("counter")]));
            && p.result.Success?
            && hoc.Success?
            && RenderHoc(hoc.value, Some(p.result.value), props) ==
                 Success(Element(component, props["counter" := Invoke(fn.f, [], oracle)]))
  {
    var hook := CreateGlobalHook(Str("counter"), fn).value;
    CreatedHookRegistersUnderItsName(None, Str("counter"), fn, oracle);
    var names := [Str("counter")];
    assert names[1..] == [];
    var published := map["counter" := Invoke(fn.f, [], oracle)];
    assert CollectStores(Some(published), names, map[]) == Success(published);
    assert props + published == props["counter" := Invoke(fn.f, [], oracle)];
  }
}

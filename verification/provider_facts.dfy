/**
 * What a provider evaluation does, stated against independent definitions:
 * when it succeeds, what it publishes, which producers it has invoked when it
 * throws, and how nested providers compose.
 */
module ProviderFacts {
  import opened Wrappers
  import opened JsValues
  import opened GlobalHook

  /**
   * Every hook is a function tagged with a string name, no name is among
   * `registered`, and no two hooks share a name.
   */
  ghost predicate Admissible(registered: set<string>, hooks: seq<Value>) {
    && (forall j | 0 <= j < |hooks| :: Tag(hooks[j]).Some? && Tag(hooks[j]).value !in registered)
    && (forall i, j | 0 <= i < j < |hooks| :: Tag(hooks[i]) != Tag(hooks[j]))
  }

  /** The names the hooks are tagged with. */
  ghost function TagSet(hooks: seq<Value>): set<string> {
    set j | 0 <= j < |hooks| && Tag(hooks[j]).Some? :: Tag(hooks[j]).value
  }

  /** Admissibility of a list is admissibility of its head, then of its tail with the head's name taken. */
  lemma AdmissibleCons(registered: set<string>, hooks: seq<Value>)
    requires |hooks| > 0 && Tag(hooks[0]).Some?
    ensures Admissible(registered, hooks) <==>
              Tag(hooks[0]).value !in registered && Admissible(registered + {Tag(hooks[0]).value}, hooks[1..])
  {
  }

  /** The names of a list are the head's name and the names of its tail. */
  lemma TagSetCons(hooks: seq<Value>)
    requires |hooks| > 0 && Tag(hooks[0]).Some?
    ensures TagSet(hooks) == {Tag(hooks[0]).value} + TagSet(hooks[1..])
  {
  }

  /** The fold succeeds exactly when the hooks are admissible against the names already registered. */
  lemma {:induction false} RegisterSucceedsIff(registry: Registry, hooks: seq<Value>, oracle: Oracle)
    ensures Register(registry, hooks, oracle).result.Success? <==> Admissible(registry.Keys, hooks)
    decreases |hooks|
  {
    if |hooks| > 0 && CheckHook(registry.Keys, hooks[0]).None? {
      var f := hooks[0].f;
      var next := registry[f.hookName.s := Invoke(f, [], oracle)];
      RegisterSucceedsIff(next, hooks[1..], oracle);
      assert next.Keys == registry.Keys + {f.hookName.s};
      AdmissibleCons(registry.Keys, hooks);
    }
  }

  /**
   * On success the fold has added exactly the hooks' names, each bound to
   * the result of invoking its hook with no arguments.
   */
  lemma {:induction false} RegisterContents(registry: Registry, hooks: seq<Value>, oracle: Oracle)
    ensures var p := Register(registry, hooks, oracle);
            p.result.Success? ==>
              && p.result.value.Keys == registry.Keys + TagSet(hooks)
              && forall j | 0 <= j < |hooks| ::
                   && Tag(hooks[j]).Some?
                   && p.result.value[Tag(hooks[j]).value] == Invoke(hooks[j].f, [], oracle)
    decreases |hooks|
  {
    var p := Register(registry, hooks, oracle);
    if |hooks| > 0 && p.result.Success? {
      var f := hooks[0].f;
      var name := f.hookName.s;
      var next := registry[name := Invoke(f, [], oracle)];
      var tail := hooks[1..];
      RegisterContents(next, tail, oracle);
      TagSetCons(hooks);
      var r := p.result.value;
      assert r == Register(next, tail, oracle).result.value;
      assert r[name] == next[name];
      forall j | 0 < j < |hooks|
        ensures Tag(hooks[j]).Some? && r[Tag(hooks[j]).value] == Invoke(hooks[j].f, [], oracle)
      {
        assert hooks[j] == tail[j - 1];
      }
    }
  }

  /**
   * On failure the fold has invoked the hooks before position
   * `|p.invoked|`, which were admissible, and the hook at that position failed
   * its checks against the names registered by then.
   */
  lemma {:induction false} RegisterStopsAtFirstBadHook(registry: Registry, hooks: seq<Value>, oracle: Oracle)
    ensures var p := Register(registry, hooks, oracle);
            p.result.Failure? ==>
              && |p.invoked| < |hooks|
              && Admissible(registry.Keys, hooks[..|p.invoked|])
              && CheckHook(registry.Keys + TagSet(hooks[..|p.invoked|]), hooks[|p.invoked|]) == Some(p.result.error)
    decreases |hooks|
  {
    var p := Register(registry, hooks, oracle);
    if |hooks| > 0 && p.result.Failure? {
      if CheckHook(registry.Keys, hooks[0]).Some? {
        assert hooks[..0] == [];
        assert TagSet([]) == {};
      } else {
        var f := hooks[0].f;
        var name := f.hookName.s;
        var next := registry[name := Invoke(f, [], oracle)];
        var tail := hooks[1..];
        var rest := Register(next, tail, oracle);
        RegisterStopsAtFirstBadHook(next, tail, oracle);
        var i := |rest.invoked|;
        assert |p.invoked| == i + 1;
        assert next.Keys == registry.Keys + {name};
        var prefix := hooks[..i + 1];
        assert prefix[1..] == tail[..i];
        assert prefix[0] == hooks[0];
        AdmissibleCons(registry.Keys, prefix);
        TagSetCons(prefix);
        assert hooks[i + 1] == tail[i];
      }
    }
  }

  /**
   * Folding over `a + b` is folding over `a`, then, if that succeeded, over
   * `b` starting from its result; the invocations concatenate.
   */
  lemma {:induction false} RegisterAppend(registry: Registry, a: seq<Value>, b: seq<Value>, oracle: Oracle)
    ensures var p := Register(registry, a, oracle);
            Register(registry, a + b, oracle) ==
              if p.result.Failure? then p
              else
                var q := Register(p.result.value, b, oracle);
                Provided(q.result, p.invoked + q.invoked)
    decreases |a|
  {
    if |a| == 0 {
      assert a + b == b;
    } else {
      assert (a + b)[0] == a[0];
      assert (a + b)[1..] == a[1..] + b;
      if CheckHook(registry.Keys, a[0]).None? {
        var f := a[0].f;
        var next := registry[f.hookName.s := Invoke(f, [], oracle)];
        RegisterAppend(next, a[1..], b, oracle);
        var p' := Register(next, a[1..], oracle);
        if p'.result.Success? {
          var q := Register(p'.result.value, b, oracle);
          assert [f] + (p'.invoked + q.invoked) == ([f] + p'.invoked) + q.invoked;
        }
      }
    }
  }

  // ---------------------------------------------------------------------------
  // The provider
  // ---------------------------------------------------------------------------

  /**
   * A provider publishes a registry exactly when `hooks` is an array whose
   * elements are string-tagged functions with names new to the inherited
   * registry and to each other.
   */
  lemma ProviderSucceedsIff(parent: Option<Registry>, hooks: Value, oracle: Oracle)
    ensures GlobalHooksProvider(parent, hooks, oracle).result.Success? <==>
              hooks.Array? && Admissible(Inherited(parent).Keys, hooks.elems)
  {
    if hooks.Array? {
      RegisterSucceedsIff(Inherited(parent), hooks.elems, oracle);
    }
  }

  /**
   * A successful provider has invoked every hook once, in list order, and
   * publishes the inherited entries plus one entry per hook: its name bound
   * to the result of invoking it.
   */
  lemma ProviderRegistersEveryHook(parent: Option<Registry>, hooks: Value, oracle: Oracle)
    ensures var p := GlobalHooksProvider(parent, hooks, oracle);
            p.result.Success? ==>
              && hooks.Array?
              && |p.invoked| == |hooks.elems|
              && (forall j | 0 <= j < |hooks.elems| :: hooks.elems[j] == Fn(p.invoked[j]))
              && p.result.value.Keys == Inherited(parent).Keys + TagSet(hooks.elems)
              && (forall k | k in Inherited(parent) :: p.result.value[k] == Inherited(parent)[k])
              && (forall j | 0 <= j < |hooks.elems| ::
                    && Tag(hooks.elems[j]).Some?
                    && p.result.value[Tag(hooks.elems[j]).value] == Invoke(p.invoked[j], [], oracle))
  {
    if hooks.Array? {
      RegisterContents(Inherited(parent), hooks.elems, oracle);
    }
  }

  /**
   * A failing provider has invoked, in order, exactly the hooks before the
   * first one that fails its checks, and throws that hook's error; a
   * non-array `hooks` fails before anything is invoked.
   */
  lemma ProviderStopsAtFirstBadHook(parent: Option<Registry>, hooks: Value, oracle: Oracle)
    ensures var p := GlobalHooksProvider(parent, hooks, oracle);
            p.result.Failure? && hooks.Array? ==>
              var i := |p.invoked|;
              && i < |hooks.elems|
              && (forall j | 0 <= j < i :: hooks.elems[j] == Fn(p.invoked[j]))
              && Admissible(Inherited(parent).Keys, hooks.elems[..i])
              && CheckHook(Inherited(parent).Keys + TagSet(hooks.elems[..i]), hooks.elems[i]) == Some(p.result.error)
  {
    if hooks.Array? {
      RegisterStopsAtFirstBadHook(Inherited(parent), hooks.elems, oracle);
    }
  }

  /**
   * A provider nested in one that registered `outer` behaves as a single
   * provider given `outer` followed by `inner`: same published registry or
   * error, and the invocations of the two in sequence. When the outer one
   * throws, the inner one is never rendered, and the single provider throws
   * the same error after the same invocations.
   */
  lemma NestedProvidersCompose(parent: Option<Registry>, outer: seq<Value>, inner: seq<Value>, oracle: Oracle)
    ensures var o := GlobalHooksProvider(parent, Array(outer), oracle);
            var whole := GlobalHooksProvider(parent, Array(outer + inner), oracle);
            if o.result.Failure? then whole == o
            else
              var n := GlobalHooksProvider(Some(o.result.value), Array(inner), oracle);
              whole == Provided(n.result, o.invoked + n.invoked)
  {
    RegisterAppend(Inherited(parent), outer, inner, oracle);
  }
}

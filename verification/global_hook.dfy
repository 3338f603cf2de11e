/**
 * The store registry of `src/index.js`: `createGlobalHook` tags a store
 * producer with a name, `GlobalHooksProvider` invokes the tagged producers and
 * publishes their stores by name on top of an inherited registry,
 * `useGlobalHook` looks a store up, and `withGlobalHooks` injects looked-up
 * stores into a component's props.
 *
 * React's context channel becomes an explicit parameter: the registry
 * published by the nearest enclosing provider, or `None` outside any provider.
 */
module GlobalHook {
  import opened Wrappers
  import opened JsValues

  /** The JavaScript class of a thrown error. */
  datatype ErrorClass = TypeError | SyntaxError | ReferenceError

  /** Every exception the registry throws, one constructor per `throw`. */
  datatype Error =
    /** `hooks` given to the provider is not an array. */
    | HooksNotArray
    /** An element of `hooks` is not a function. */
    | HookNotFunction(hook: Value)
    /** A hook function has no string `globalHookName`: it did not come from `createGlobalHook`. */
    | HookNotTagged
    /** A hook's name is already registered, inherited or earlier in the same list. */
    | DuplicateHook(hookName: string)
    /** `createGlobalHook` was given something other than a function. */
    | FnNotFunction(fnName: Value)
    /** `useGlobalHook` was called outside any provider. */
    | MissingProvider
    /** `useGlobalHook` found nothing truthy under the name. */
    | StoreNotInitialized(storeName: Value)
    /** `withGlobalHooks` was given a falsy component. */
    | EmptyComponent
    /** `withGlobalHooks` was given a name list that is not an array. */
    | NamesNotArray
  {
    /** The class the source throws the error as. */
    function Class(): ErrorClass {
      match this
      case HooksNotArray => TypeError
      case HookNotFunction(_) => TypeError
      case HookNotTagged => SyntaxError
      case DuplicateHook(_) => SyntaxError
      case FnNotFunction(_) => TypeError
      case MissingProvider => SyntaxError
      case StoreNotInitialized(_) => ReferenceError
      case EmptyComponent => TypeError
      case NamesNotArray => TypeError
    }
  }

  /** The object a provider publishes: store name to store instance. */
  type Registry = map<string, Value>

  // ---------------------------------------------------------------------------
  // createGlobalHook
  // ---------------------------------------------------------------------------

  /** The source text of the wrapper `createGlobalHook` builds. */
  const WrapperSource: string := "(...args) => fn(...args)"

  /**
   * `createGlobalHook(name, fn)`: a new function that forwards every call to
   * `fn` and carries `name` as its `globalHookName`. Only `fn` is checked;
   * `name` may be any value.
   */
  function CreateGlobalHook(name: Value, fn: Value): (r: Result<Func, Error>)
    ensures r.Failure? <==> !fn.Fn?
    ensures r.Failure? ==> r.error == FnNotFunction(name) && r.error.Class() == TypeError
    ensures r.Success? ==> r.value.hookName == name
    ensures r.Success? ==> r.value != fn.f
    ensures r.Success? ==> forall args: seq<Value>, oracle: Oracle ::
                             Invoke(r.value, args, oracle) == Invoke(fn.f, args, oracle)
  {
    if !fn.Fn? then Failure(FnNotFunction(name))
    else
      var wrapper := Func(Forward(fn.f), name, WrapperSource);
      assert fn.f < wrapper;
      Success(wrapper)
  }

  // ---------------------------------------------------------------------------
  // GlobalHooksProvider
  // ---------------------------------------------------------------------------

  /** The name a hook is registered under: its `globalHookName`, when that is a string. */
  function Tag(hook: Value): Option<string> {
    if hook.Fn? && hook.f.hookName.Str? then Some(hook.f.hookName.s) else None
  }

  /**
   * The checks the provider makes of one element of `hooks` before invoking
   * it, in the source's order, given the names already registered.
   */
  function CheckHook(registered: set<string>, hook: Value): (e: Option<Error>)
    ensures e.None? <==> Tag(hook).Some? && Tag(hook).value !in registered
    ensures !hook.Fn? ==> e == Some(HookNotFunction(hook)) && e.value.Class() == TypeError
    ensures hook.Fn? && Tag(hook).None? ==> e == Some(HookNotTagged) && e.value.Class() == SyntaxError
    ensures Tag(hook).Some? && Tag(hook).value in registered ==>
              e == Some(DuplicateHook(Tag(hook).value)) && e.value.Class() == SyntaxError
  {
    if !hook.Fn? then Some(HookNotFunction(hook))
    else if !hook.f.hookName.Str? then Some(HookNotTagged)
    else if hook.f.hookName.s in registered then Some(DuplicateHook(hook.f.hookName.s))
    else None
  }

  /**
   * One evaluation of a provider: the registry it publishes or the error it
   * throws, and the hook functions it invoked, in order.
   */
  datatype Provided = Provided(result: Result<Registry, Error>, invoked: seq<Func>)

  /**
   * `hooks.forEach(…)` over the registry built so far: check each element,
   * invoke it with no arguments and store its result under its name; the
   * first failing check ends the walk.
   */
  function Register(registry: Registry, hooks: seq<Value>, oracle: Oracle): (p: Provided)
    decreases |hooks|
    ensures |p.invoked| <= |hooks|
    ensures forall j | 0 <= j < |p.invoked| :: hooks[j] == Fn(p.invoked[j])
    ensures p.result.Success? <==> |p.invoked| == |hooks|
    ensures p.result.Failure? ==>
              p.result.error.HookNotFunction? || p.result.error.HookNotTagged? || p.result.error.DuplicateHook?
    ensures p.result.Success? ==>
              forall k | k in registry :: k in p.result.value && p.result.value[k] == registry[k]
  {
    if |hooks| == 0 then Provided(Success(registry), [])
    else
      match CheckHook(registry.Keys, hooks[0])
      case Some(e) => Provided(Failure(e), [])
      case None =>
        var f := hooks[0].f;
        var rest := Register(registry[f.hookName.s := Invoke(f, [], oracle)], hooks[1..], oracle);
        Provided(rest.result, [f] + rest.invoked)
  }

  /** The registry a provider starts from: a copy of the inherited one, if any. */
  function Inherited(parent: Option<Registry>): Registry {
    if parent.Some? then parent.value else map[]
  }

  /**
   * `<GlobalHooksProvider hooks={hooks}>` rendered below the provider that
   * published `parent`: the registry it publishes, or the error it throws.
   */
  function GlobalHooksProvider(parent: Option<Registry>, hooks: Value, oracle: Oracle): (p: Provided)
    ensures !hooks.Array? ==> p.result == Failure(HooksNotArray) && p.invoked == []
    ensures p.result.Failure? && p.result.error == HooksNotArray ==> !hooks.Array?
    ensures p.result.Success? ==>
              forall k | k in Inherited(parent) :: k in p.result.value && p.result.value[k] == Inherited(parent)[k]
  {
    if !hooks.Array? then Provided(Failure(HooksNotArray), [])
    else Register(Inherited(parent), hooks.elems, oracle)
  }

  // ---------------------------------------------------------------------------
  // useGlobalHook
  // ---------------------------------------------------------------------------

  /**
   * `useGlobalHook(name)` below the provider that published `context`: the
   * store under `name`, if there is one and it is truthy.
   */
  function UseGlobalHook(context: Option<Registry>, name: Value): (r: Result<Value, Error>)
    ensures context.None? ==> r == Failure(MissingProvider)
    ensures context.Some? ==>
              (r.Success? <==> PropertyKey(name) in context.value && Truthy(context.value[PropertyKey(name)]))
    ensures r.Success? ==> r.value == context.value[PropertyKey(name)] && Truthy(r.value)
    ensures context.Some? && r.Failure? ==> r.error == StoreNotInitialized(name) && r.error.Class() == ReferenceError
  {
    if context.None? then Failure(MissingProvider)
    else
      var key := PropertyKey(name);
      if key in context.value && Truthy(context.value[key]) then Success(context.value[key])
      else Failure(StoreNotInitialized(name))
  }

  // ---------------------------------------------------------------------------
  // withGlobalHooks
  // ---------------------------------------------------------------------------

  /** The component `withGlobalHooks` returns: the wrapped component and the names to inject. */
  datatype Hoc = Hoc(component: Value, names: seq<Value>)

  /** `React.createElement(component, props)`. */
  datatype Element = Element(component: Value, props: map<string, Value>)

  /** `withGlobalHooks(component, names)`: validates its arguments and builds the wrapper. */
  function WithGlobalHooks(component: Value, names: Value): (r: Result<Hoc, Error>)
    ensures r.Failure? <==> !Truthy(component) || !names.Array?
    ensures !Truthy(component) ==> r == Failure(EmptyComponent)
    ensures Truthy(component) && !names.Array? ==> r == Failure(NamesNotArray)
    ensures r.Failure? ==> r.error.Class() == TypeError
    ensures r.Success? ==> r.value.component == component && r.value.names == names.elems
  {
    if !Truthy(component) then Failure(EmptyComponent)
    else if !names.Array? then Failure(NamesNotArray)
    else Success(Hoc(component, names.elems))
  }

  /** The property keys the names stand for. */
  function KeySet(names: seq<Value>): set<string> {
    set j | 0 <= j < |names| :: PropertyKey(names[j])
  }

  /**
   * `names.forEach(hook => { stores[hook] = useGlobalHook(hook) })` over the
   * stores gathered so far; the first failing lookup ends the walk.
   */
  function CollectStores(context: Option<Registry>, names: seq<Value>, stores: Registry): (r: Result<Registry, Error>)
    decreases |names|
    ensures r.Success? ==> r.value.Keys == stores.Keys + KeySet(names)
    ensures r.Success? ==> forall k | k in stores && k !in KeySet(names) :: r.value[k] == stores[k]
    ensures r.Success? ==> forall j | 0 <= j < |names| ::
                             UseGlobalHook(context, names[j]) == Success(r.value[PropertyKey(names[j])])
  {
    if |names| == 0 then Success(stores)
    else
      var store :- UseGlobalHook(context, names[0]);
      CollectStores(context, names[1..], stores[PropertyKey(names[0]) := store])
  }

  /**
   * One render of the wrapper with `props` below the provider that published
   * `context`: the wrapped component with the props overridden by the stores.
   */
  function RenderHoc(hoc: Hoc, context: Option<Registry>, props: map<string, Value>): (r: Result<Element, Error>)
    ensures r.Success? ==> r.value.component == hoc.component
    ensures r.Success? ==> r.value.props.Keys == props.Keys + KeySet(hoc.names)
    ensures r.Success? ==> forall j | 0 <= j < |hoc.names| ::
                             UseGlobalHook(context, hoc.names[j]) == Success(r.value.props[PropertyKey(hoc.names[j])])
    ensures r.Success? ==> forall k | k in props && k !in KeySet(hoc.names) :: r.value.props[k] == props[k]
  {
    var stores :- CollectStores(context, hoc.names, map[]);
    Success(Element(hoc.component, props + stores))
  }
}

# use-global-hook: the store registry in Dafny

`use-global-hook` lets React components share named stores. The library has four parts:

- `createGlobalHook(name, fn)` tags a store producer with a name.
- `<GlobalHooksProvider hooks={[…]}>` invokes every tagged producer. It publishes the results by name, on top of the registry inherited from an enclosing provider.
- `useGlobalHook(name)` looks a store up in the nearest published registry.
- `withGlobalHooks(component, names)` injects looked-up stores into a component's props.

This project models that logic from `src/index.js` as pure functions.

React's context channel becomes an explicit parameter. It holds the registry published by the nearest enclosing provider, or `None` outside any provider.

JavaScript values are a datatype (`JsValues.Value`). The model keeps the parts of JavaScript the source relies on:

- truthiness;
- the `typeof` and array tests;
- conversion of a value to a property key;
- calling a function object.

Code outside the library, such as a store producer's body, is native code identified by a number. An `Oracle` parameter gives its results. Every exception the source throws is a constructor of `GlobalHook.Error`. `Error.Class()` gives the JavaScript class it is thrown as (`TypeError`, `SyntaxError` or `ReferenceError`).

Files:

- `wrappers.dfy`: `Option` and `Result`.
- `js_values.dfy`: JavaScript values, truthiness, property keys, calls.
- `global_hook.dfy`: the four operations of `src/index.js`, each with its contract.
- `provider_facts.dfy`: the provider against an independent definition of admissible hook lists. It covers success, contents, the failure point, and nested providers.
- `usage_facts.dfy`: how the operations combine. It covers lookup below a provider, hooks made by `createGlobalHook`, and injected props.

Behaviour of the code worth knowing, which the model follows:

- `useGlobalHook` with no name looks up the key `"undefined"` like any other name.
- A stored value that is falsy is rejected with a `ReferenceError`, the same as a missing one.
- Outside a provider, `useGlobalHook` throws a `SyntaxError`.
- A duplicate name is a `SyntaxError`, whether the name was inherited or appeared earlier in the same list. An inherited entry is never overwritten.
- The provider invokes its producers every time it is evaluated. A call that succeeds invokes each of them exactly once, in order; a call that throws has invoked, in order, exactly those before the failing element. Whether that happens once per mount is left to React.
- `index.d.ts` declares `hooks` as an object map. The code requires an array, and the model follows the code.

## Model

| member | source | states |
|---|---|---|
| GlobalHook.CreateGlobalHook | src/index.js:51-60 | Throws `TypeError` exactly when `fn` is not a function; otherwise returns a new function, different from `fn`, whose `globalHookName` is `name` (unchecked) and which returns what `fn` returns for every argument list and every behaviour of outside code |
| GlobalHook.CheckHook | src/index.js:21-39 | An element passes exactly when it is a function tagged with a string name not yet registered; otherwise the first failing check decides the error: not a function is a `TypeError`, no string tag is a `SyntaxError`, a taken name is a duplicate `SyntaxError` naming it |
| GlobalHook.Register | src/index.js:20-42 | The invoked producers are the list's leading elements in list order; the walk succeeds exactly when all elements were invoked; on success every entry already in the registry is kept unchanged; a failure is one of the three per-element errors |
| GlobalHook.GlobalHooksProvider | src/index.js:5-49 | A `hooks` that is not an array throws `TypeError` with nothing invoked, whatever the inherited registry; only that case throws that error; on success every inherited entry appears unchanged in the published registry |
| GlobalHook.UseGlobalHook | src/index.js:62-80 | Outside a provider it throws; inside, it succeeds exactly when the name's property key holds a truthy value, returns that value itself, and otherwise throws `ReferenceError` |
| GlobalHook.WithGlobalHooks | src/index.js:82-93 | Throws `TypeError` exactly when the component is falsy or the names are not an array, the falsy component being reported first; otherwise keeps the component and the name list |
| GlobalHook.CollectStores | src/index.js:96-100 | On success the gathered stores cover exactly the earlier entries plus every requested key, each requested key holding the value its lookup returns, other entries unchanged |
| GlobalHook.RenderHoc | src/index.js:95-103 | On success passes the wrapped component a config object with the props' keys plus the requested keys; every requested name carries its looked-up store (injected stores win over props), every other prop is unchanged |
| JsValues.Invoke | src/index.js:56 | Calling a function runs the outside code at the end of its forwarding chain with the same arguments |
| ProviderFacts.RegisterSucceedsIff | src/index.js:20-42 | The walk over the hooks succeeds if and only if every hook is a string-tagged function whose name is new to the registry and to the other hooks |
| ProviderFacts.RegisterContents | src/index.js:20-42 | On success the registry's keys are the earlier keys plus the hooks' names, and each name holds the result of invoking its hook with no arguments |
| ProviderFacts.RegisterStopsAtFirstBadHook | src/index.js:20-42 | On failure the hooks before position i (the number invoked) were admissible, and hook i failed its checks against the names registered by then, with exactly the thrown error |
| ProviderFacts.RegisterAppend | src/index.js:20-42 | Walking `a + b` equals walking `a` and, if that succeeded, walking `b` from its result, with the invocations concatenated; a failure in `a` leaves `b` uninvoked |
| ProviderFacts.ProviderSucceedsIff | src/index.js:9-42 | A provider publishes a registry if and only if `hooks` is an array of string-tagged functions with names pairwise distinct and absent from the inherited registry |
| ProviderFacts.ProviderRegistersEveryHook | src/index.js:16-42 | A successful provider invoked each hook exactly once, in list order, and publishes the inherited entries unchanged plus each hook's name bound to its invocation result, and no other key |
| ProviderFacts.ProviderStopsAtFirstBadHook | src/index.js:20-42 | A failing provider over an array invoked exactly the hooks before the first failing one, in order, and throws that hook's error in the fixed check order |
| ProviderFacts.NestedProvidersCompose | src/index.js:7-18 | A provider nested in one given `outer` publishes what one provider given `outer + inner` would, after the same invocations in the same order; if the outer one throws, the single provider throws the same error after the same invocations |
| UsageFacts.LookupAfterProvider | src/index.js:62-80 | Below a successful provider, an inherited name resolves as in the enclosing registry, a registered name resolves to its producer's result (rejected if falsy), and any other name throws `ReferenceError` |
| UsageFacts.LookupReturnsRegisteredStore | src/index.js:71-79 | Looking up a registered hook's name returns exactly the value its producer returned when the provider invoked it (a `ReferenceError` if that value is falsy); a special case of `LookupAfterProvider` stated per hook |
| UsageFacts.CreatedHookRegistersUnderItsName | src/index.js:51-60 | A provider given one `createGlobalHook(name, fn)` hook stores `fn()` under `name` when it is a new string, throws duplicate for an inherited name, and throws untagged with nothing invoked for a non-string name |
| UsageFacts.SameProducerUnderTwoNames | src/index.js:56-57 | Wrapping rather than tagging `fn` lets one producer be registered under two names: the two wrappers are distinct, each is invoked once in order, and each name holds its own wrapper's call result |
| UsageFacts.DuplicateHookIsRejected | src/index.js:35-39 | The same tagged hook listed twice is invoked once, then the provider throws a `SyntaxError` naming the duplicated name |
| UsageFacts.WrappedComponentRenders | src/index.js:82-103 | For every component and name list: `withGlobalHooks` succeeds exactly for a truthy component and an array of names, and the wrapper it returns then renders if and only if every name in the array resolves, passing each name its looked-up store |
| UsageFacts.CollectStoresFailsAtFirstMissing | src/index.js:98-100 | Gathering stores fails if and only if some requested name's lookup fails, and then with the error of the first such name |
| UsageFacts.RenderHocFailsIff | src/index.js:95-103 | A wrapped component renders if and only if every requested name resolves, and otherwise throws the first failing lookup's error |
| UsageFacts.InjectedStoreReachesComponent | src/index.js:95-103 | `withGlobalHooks(C, ["counter"])` below a provider of `createGlobalHook("counter", fn)` renders `C` with its props plus `counter` bound to `fn()`'s result |

## Left out

- React context creation and propagation (`React.createContext`, `useContext`, `createElement` of the provider): the inherited registry and the lookup context are explicit parameters.
- GlobalHook.RenderHoc: `Element.props` is the config object handed to `React.createElement`. React strips the reserved `key` (and, before React 19, `ref`) from it, so a store requested under such a name does not reach the component; that step is React's and is not modelled.
- GlobalHook.WithGlobalHooks: the wrapper keeps a reference to the caller's names array and reads it on every render. The model copies the array's contents at wrap time, so it treats the array as unchanged after wrapping; later mutation by the caller is not modelled.
- UsageFacts.SameProducerUnderTwoNames: the `Oracle` is pure, so the model cannot say that the two calls produce independent store instances (as a producer using `useState` does); it states only that each name holds its own wrapper's call result.
- Re-rendering and "once per mount": each model evaluation of the provider is one render. React's hook-persistence rules, which the producers' state relies on, are outside the library.
- Store producers' internal state (`useState` in the demo app): a producer's result is the `Oracle`'s value for its native code and arguments. It is a pure function, so one producer called twice returns the same value.
- Producers that throw: the model assumes every producer returns.
- JavaScript property lookup through the prototype chain: `hookName in globalHooks` and `context[name]` also see inherited `Object.prototype` keys such as `toString`. The model treats registries as plain own-key maps.
- Non-integral numbers, integers beyond 2^53 - 1 in magnitude, `NaN`, `-0`, symbols and sparse arrays: numbers are the safe integers, which JavaScript prints in plain decimal, and arrays are dense sequences.
- Objects with their own `toString` (a `Date`, a class instance that overrides it): `Object` stands for a plain object, whose property key is `"[object Object]"`. A function's property key is its stored source text, and the text a build transpiles the wrapper into is not modelled.
- `{}.toString.call(x)` tricks through `Symbol.toStringTag`: the array test is "is an array value".
- The `displayName` of the wrapped component (src/index.js:105) is cosmetic.
- Error messages: each error keeps the value the message interpolates (the hook, name or store name), not the text.
- `index.d.ts`, the demo app `example/index.js`, and the build configuration are declarations and tooling.

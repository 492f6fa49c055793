# cosmo: a verified model of the dependency-injection container

This project models the resolution engine of the cosmo dependency-injection container
(`cosmo.go`). A `Container` holds three maps:

- `providers` maps a produced type to its constructor and scope.
- `instances` caches the values of singleton types.
- `configurations` maps a string key to a produced type.

Registration (`AddWithScope`, `Add`, `AddSingleton`, `Configure`) runs the `spec` check:
the constructor must be a function that returns one or two outputs. It then writes one
provider entry, keyed by the type `T` of the first output. `resolve(t)` does four things in order:

1. It returns a cached instance if there is one.
2. Otherwise it finds the provider of `t`.
3. It resolves the constructor's parameter types in order, and stops at the first error.
4. It calls the constructor. A non-nil second output becomes the error. A singleton's
   value is cached; a transient value never is.

`Invoke` resolves a function's parameters in order and then calls the function.
`Bind` resolves a struct's field types in order and assigns each field. `Get` resolves
the type that `Configure` recorded under a key.

Go reflection is abstracted:

- A type is a `TypeKey`.
- A function value is a `Func`: an identity plus its parameter and output types.
- A value passed as `any` is an `Any`: a function, another value, or nil.
- A constructed instance is a `Value`: an identity, or `NilInterface`, a nil value of an
  interface type. `Get` returns `v.Interface()` (cosmo.go:223), which is nil for the latter.
- A constructor's non-nil error is `Raised` with its message, so it is never mistaken for
  one of the container's own errors.
- User code is a `Behaviour` parameter. It gives a function's outputs for its identity
  and arguments.
- Calls into user code are kept in a ghost `trace` on the container. Counting the trace
  is the model of the test's constructor call counter.

Modules:

- `Registry` (registry.dfy) holds the data model, `spec` (`SpecOf`) and the provider and
  configuration table updates (`Register`, `Configuration`).
- `Resolution` (resolution.dfy) holds the specification functions of the engine:
  - `Resolve` is `resolve` (cosmo.go:108-144);
  - `Arguments` and `ResolveEach` are the parameter loop (cosmo.go:118-129);
  - `ResolveAll` is the same loop over any list of types;
  - `Invocation` is `Invoke` (cosmo.go:149-170);
  - `Binding` is `Bind` (cosmo.go:176-192);
  - `Lookup` is `Get` (cosmo.go:212-224).

  `Acyclic` is a condition under which `resolve` terminates.
- `Cosmo` (container.dfy) holds the class `Container`. Its methods update the maps in
  place, use loops over `args` arrays as the source does, and are proved to compute
  exactly the functions above.
- `ResolutionFacts` (resolution_facts.dfy) holds the properties of those functions.
- `Sessions` (sessions.dfy) holds sequences of container calls and the singleton
  guarantee across calls.
- `Scenarios` (scenarios.dfy) holds the scenario of cosmo_test.go.

A failed resolution can leave singleton dependencies cached: cosmo.go:140 runs for each
dependency resolved before the failing one (`ResolveConstructorError`,
`ResolveEachFootprint`).

## Model

| member | source | states |
|---|---|---|
| Registry.SpecOf | cosmo.go:86-99 | succeeds exactly for a function with 1 or 2 outputs, yielding its first output type and the function; a non-function fails with "constructor must be a function" before outputs are looked at; a wrong output count fails with "constructor must return T or (T, error)" |
| Registry.Register | cosmo.go:54-65 | on a `spec` error the same error and no table; otherwise the produced type's entry is this constructor and scope (last write wins), the key set grows by that type only, every other entry is kept, and the table invariant is preserved |
| Registry.Configuration | cosmo.go:196-209 | fails with `spec`'s error, or registers the constructor as a singleton and maps the key to its produced type, keeping other keys; every configured type still has a provider |
| Cosmo.Container.constructor | cosmo.go:38-45 | `New` starts with three empty maps and an empty trace, and the invariant holds |
| Cosmo.Container.AddWithScope | cosmo.go:54-65 | the provider table becomes `Register`'s result, or is unchanged on error with that error returned; configurations, instances and trace are unchanged |
| Cosmo.Container.Add | cosmo.go:67-73 | as `AddWithScope` with the transient scope |
| Cosmo.Container.AddSingleton | cosmo.go:75-81 | as `AddWithScope` with the singleton scope |
| Cosmo.Container.Resolve | cosmo.go:108-144 | returns `Resolution.Resolve`'s result and leaves exactly its cache and trace; providers and configurations are unchanged |
| Cosmo.Container.Invoke | cosmo.go:149-170 | returns `Invocation`'s error and leaves exactly its cache and trace |
| Cosmo.Container.Bind | cosmo.go:176-192 | returns `Binding`'s error; the target's fields, the cache and the trace are exactly `Binding`'s |
| Cosmo.Container.Configure | cosmo.go:196-209 | the provider and configuration tables become `Configuration`'s result, or are unchanged on error with that error returned; the invariant holds |
| Cosmo.Container.Get | cosmo.go:212-224 | returns `Lookup`'s value (nil for an unknown key, a failed resolution or a nil interface) and leaves exactly its cache and trace |
| Cosmo.ConfiguredTypeProvided | cosmo.go:196-224 | under the container's invariant, resolving a configured key's type never fails with "no provider" for that type |
| Resolution.Resolve | cosmo.go:108-144 | definition of `resolve`; its properties are in `ResolutionFacts` |
| Resolution.Arguments | cosmo.go:118-129 | definition of the parameter loop of `resolve`; its properties are in `ResolutionFacts` |
| Resolution.ResolveEach | cosmo.go:118-129 | definition of resolving a list of types in order; its properties are in `ResolutionFacts` |
| Resolution.ResolveAll | cosmo.go:158-165 | definition of the parameter loop of `Invoke` and the field loop of `Bind` (cosmo.go:180-189); its properties are in `ResolutionFacts` |
| Resolution.Invocation | cosmo.go:149-170 | definition of `Invoke`; its properties are in `ResolutionFacts` |
| Resolution.Binding | cosmo.go:176-192 | definition of `Bind`; its properties are in `ResolutionFacts` |
| Resolution.Lookup | cosmo.go:212-224 | definition of `Get`; its properties are in `ResolutionFacts` |
| Resolution.ResolveEachLength | cosmo.go:121-129 | resolving a list keeps the values already resolved in front and adds at most one value per type; it reports no failure exactly when every type produced a value |
| ResolutionFacts.ResolveFootprint | cosmo.go:108-144 | a resolution never evicts or replaces a cached instance and only appends to the trace; every cache entry it adds and every constructor it calls is for a provided type that was not cached and lies no higher than `t` in the provider graph |
| ResolutionFacts.ArgumentsFootprint | cosmo.go:118-129 | everything the parameter loop of `t` adds lies strictly below `t` |
| ResolutionFacts.ResolveEachFootprint | cosmo.go:121-129 | the same frame for resolving a list of types in order |
| ResolutionFacts.ResolveCacheHit | cosmo.go:109-111 | a cached type returns its cached value with no call and no change, whatever provider is registered for it now |
| ResolutionFacts.ResolveNoProvider | cosmo.go:113-116 | an uncached type without a provider fails with "no provider" naming that type and changes nothing |
| ResolutionFacts.ResolveKeepsCache | cosmo.go:108-144 | resolution keeps every cached instance, never runs the constructor of a cached type, and caches only singleton types, at any depth |
| ResolutionFacts.ResolveDependencyFailure | cosmo.go:121-129 | when a parameter fails, that error is returned unchanged, the constructor is never called and `t` is not cached |
| ResolutionFacts.ResolveCallsConstructor | cosmo.go:118-131 | on a cache miss whose parameters all resolve, the constructor is called exactly once, last, on one value per parameter in order |
| ResolutionFacts.ResolveConstructorError | cosmo.go:131-135 | a two-output constructor returning a non-nil error makes resolution fail with exactly that error and `t` uncached, while instances cached for its parameters stay |
| ResolutionFacts.ResolveMissingProvider | cosmo.go:108-144 | every "no provider" error of a resolution names a type without a provider |
| ResolutionFacts.ArgumentsMissingProvider | cosmo.go:118-129 | the same for the parameter loop |
| ResolutionFacts.ResolveEachMissingProvider | cosmo.go:118-129 | the same for resolving a list of types |
| ResolutionFacts.ResolveSingletonStored | cosmo.go:137-143 | a successful resolution of a singleton leaves the returned value cached under its type |
| ResolutionFacts.ResolveSingletonReused | cosmo.go:108-143 | resolving a resolved singleton again returns the identical value and changes nothing |
| ResolutionFacts.ResolveTransientNotStored | cosmo.go:137-143 | resolving an uncached transient type never caches it |
| ResolutionFacts.Split | cosmo.go:121-129 | resolving a list is resolving a prefix and then, if that succeeded, the rest from where it stopped |
| ResolutionFacts.ValueAt | cosmo.go:121-129 | value `j` is what type `j` resolves to in the state left by the types before it |
| ResolutionFacts.FirstFailure | cosmo.go:121-129 | on failure, resolution stops at the first type that fails, with that type's error and state |
| ResolutionFacts.InOrder | cosmo.go:121-129 | types are resolved in declaration order with the state threaded through; the first failure stops it with its error unchanged; otherwise every type produced a value |
| ResolutionFacts.ResolveAllFootprint | cosmo.go:158-165 | the frame of resolving any list of types from its start |
| ResolutionFacts.InvokeRefusesNonFunction | cosmo.go:150-153 | a non-function (including nil) gives "invoke expects a function" and changes nothing |
| ResolutionFacts.InvokeCallsOnce | cosmo.go:155-169 | `fn` is called exactly once when every parameter resolves, last and on the values in order, and the result is nil whatever `fn` returns; otherwise `fn` is never called and the first resolution error is returned |
| ResolutionFacts.InvokeKeepsCache | cosmo.go:149-170 | `Invoke` keeps every cached instance, never rebuilds a cached type, and caches only singleton types |
| ResolutionFacts.BindInOrder | cosmo.go:180-189 | fields before the first failing one hold what their types resolve to after the earlier fields; that field and all later ones are untouched; that error is returned, and nil only when every field was set |
| ResolutionFacts.BindKeepsCache | cosmo.go:176-192 | `Bind` keeps every cached instance, never rebuilds a cached type, and caches only singleton types |
| ResolutionFacts.GetUnknownKey | cosmo.go:213-216 | `Get` of an unknown key is nil and changes nothing |
| ResolutionFacts.GetStable | cosmo.go:212-224 | once `Get` of a singleton-backed key has returned a value, it returns the identical value again with no call |
| ResolutionFacts.ConfigureThenGet | cosmo.go:196-224 | after `Configure(key, ctor)`, the key's provider is `ctor` as a singleton; `Get(key)` is nil exactly when resolving the produced type fails or yields a nil interface; a value it returns is the resolved one; a successful resolution is cached under that type |
| ResolutionFacts.GetKeepsCache | cosmo.go:212-224 | `Get` keeps every cached instance, never rebuilds a cached type, and caches only singleton types |
| ResolutionFacts.ResolveSingletonOnce | cosmo.go:137-143 | within one resolution every singleton's constructor runs at most once, and when it succeeds each singleton it built is cached |
| ResolutionFacts.ArgumentsSingletonOnce | cosmo.go:121-129 | the same for the parameter loop |
| ResolutionFacts.ResolveEachSingletonOnce | cosmo.go:121-129 | the same for resolving a list of types |
| ResolutionFacts.InvokeSingletonOnce | cosmo.go:149-170 | within one `Invoke` every singleton's constructor runs at most once |
| ResolutionFacts.BindSingletonOnce | cosmo.go:176-192 | within one `Bind` every singleton's constructor runs at most once |
| Sessions.StepKeepsCache | cosmo.go:54-224 | no container call changes a cached instance or runs a cached type's constructor |
| Sessions.RunKeepsCache | cosmo.go:108-111 | a cached instance survives any sequence of calls, including re-registration of its type, and its constructor never runs again; each resolving call carries its own ranking, so a session is covered to its end whenever its graph is acyclic at every resolving call |
| Sessions.SingletonConstructedOnce | cosmo.go:137-143 | the first successful resolution of a singleton runs its constructor once; after any later calls, each with its own ranking, it has still run only once, and resolving it under any ranking that shows the graph acyclic then returns the same value with no call |
| Scenarios.InvokeStep | cosmo_test.go:53-58 | in the test's container, `Invoke` of a function needing `DBService` succeeds, building `Config` once, then `DBService`, then calling the function |
| Scenarios.BindStep | cosmo_test.go:60-63 | the following `Bind` succeeds, reuses the cached `Config` and builds a new `DBService` |
| Scenarios.Counts | cosmo_test.go:67-69 | afterwards the singleton `Config` constructor has run exactly once and the transient `DBService` constructor twice |
| Scenarios.TestContainer | cosmo_test.go:29-70 | the test on the class: all four calls return nil, the bound field is set, and the container's trace shows the singleton `Config` constructor ran exactly once and `DBService`'s twice, for every behaviour of the constructors |

## Left out

- Go reflection (`reflect.ValueOf`, `Kind`, `NumIn`/`NumOut`, `Call`, `Elem`, `Field(i).Set`) is replaced by the `Func`/`Any` descriptors and the `Behaviour` oracle.
- `spec` on nil panics (`reflect.ValueOf(nil).Type()`), so registration and `Configure` require a non-nil argument. A typed nil function value, which passes `spec` and panics when called, is not modelled.
- `Bind` on a non-pointer, or on a struct with unexported or mistyped fields, panics in the source. The model makes the target an array with one slot per field type, so this cannot arise.
- `Container.Context` (cosmo.go:47-51) and the package-level `Context` (cosmo.go:226-239) are not modelled. They only store and fetch the container in a `context.Context` around `Get`.
- Concurrency is not modelled. The maps are unguarded, so use is assumed single-threaded.
- Cycles in the provider graph are not modelled. The source has no cycle detection; unless a cached instance breaks a cycle, it recurses without bound.
- Cosmo.Container.Resolve: a two-output constructor's second output is assumed to be of type `error`. `spec` (cosmo.go:94) only counts outputs, so a second output of another type passes it, and `resolve` then panics at cosmo.go:133-134. The model resolves such a constructor instead. This also holds for `Invoke`, `Bind` and `Get`, which resolve through `resolve`.
- The behaviour of user code may return `NilInterface` for any type, including non-interface types that cannot hold it in Go. This only widens the behaviours the properties cover.
- Cosmo.Container.Resolve: requires a ranking that shows the provider graph acyclic. The source also terminates when the cache cuts a cycle, and this precondition excludes that case.
- Cosmo.Container.Invoke: requires the same acyclic ranking as `Resolve`.
- Cosmo.Container.Bind: requires the same acyclic ranking as `Resolve`.
- Cosmo.Container.Get: requires the same acyclic ranking as `Resolve`.
- User code is a pure function of a function's identity and arguments. Constructors with other side effects, or whose results vary between calls with the same arguments, are not modelled. User code that calls back into the container is not modelled either.
- Values are compared by equality, which stands in for Go's `reflect.Value` identity.
- Error messages keep only their kind and, for "no provider", the type's name. Their formatting is not modelled, and neither is the test's `fmt.Printf` (cosmo_test.go:20-23).

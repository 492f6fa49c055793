/**
 * Properties of the resolution engine (cosmo.go:108-224): what a resolution may add to
 * the cache and the call trace, the cache-hit and missing-provider cases, ordering and
 * failure of dependencies, constructor errors, the two scopes, `Invoke`, `Bind` and `Get`.
 */
module ResolutionFacts {
  import opened Wrappers
  import opened Registry
  import opened Resolution

  /** How many events of `trace` satisfy `p`. */
  function Count(trace: seq<Event>, p: Event -> bool): nat {
    if trace == [] then 0
    else Count(trace[..|trace| - 1], p) + if p(trace[|trace| - 1]) then 1 else 0
  }

  /** A call of a constructor producing `u`. */
  function ConstructionOf(u: TypeKey): Event -> bool {
    (ev: Event) => ev.Constructed? && ev.ty == u
  }

  /** A call of the function `id` by `Invoke`. */
  function InvocationOf(id: nat): Event -> bool {
    (ev: Event) => ev.Invoked? && ev.id == id
  }

  /** How many times the trace shows a constructor producing `u` being called. */
  function Constructions(trace: seq<Event>, u: TypeKey): nat {
    Count(trace, ConstructionOf(u))
  }

  /** How many times the trace shows `Invoke` calling the function `id`. */
  function Invocations(trace: seq<Event>, id: nat): nat {
    Count(trace, InvocationOf(id))
  }

  /** Events appended after a prefix that none of them satisfies leave the count alone. */
  lemma {:induction false} CountStable(trace: seq<Event>, trace': seq<Event>, p: Event -> bool)
    requires trace <= trace'
    requires forall j :: |trace| <= j < |trace'| ==> !p(trace'[j])
    ensures Count(trace', p) == Count(trace, p)
    decreases |trace'|
  {
    if |trace'| > |trace| {
      var shorter := trace'[..|trace'| - 1];
      assert trace <= shorter;
      CountStable(trace, shorter, p);
    } else {
      assert trace == trace';
    }
  }

  /** Appending one event adds one to the count exactly when the event satisfies `p`. */
  lemma CountSnoc(trace: seq<Event>, ev: Event, p: Event -> bool)
    ensures Count(trace + [ev], p) == Count(trace, p) + if p(ev) then 1 else 0
  {
    assert (trace + [ev])[..|trace|] == trace;
  }

  /** `s'` only adds to `s`: no cached instance is evicted or replaced, calls are only appended. */
  ghost predicate Extends(s: State, s': State) {
    && (forall k :: k in s.instances ==> k in s'.instances && s'.instances[k] == s.instances[k])
    && s.trace <= s'.trace
  }

  /** `ev` is a call of the registered constructor of a type that was not cached in `s`, below `bound`. */
  ghost predicate FreshConstruction(e: Env, s: State, ev: Event, bound: nat)
    requires e.providers.Keys <= e.rank.Keys
  {
    && ev.Constructed?
    && ev.ty in e.providers
    && ev.ty !in s.instances
    && ev.id == e.providers[ev.ty].value.id
    && Rank(e, ev.ty) < bound
  }

  /**
   * Everything that went from `s` to `s'` lies below height `bound`: new cache entries are
   * provided singleton types, and every new event constructs a provided type that was not cached.
   */
  ghost predicate Within(e: Env, s: State, s': State, bound: nat)
    requires e.providers.Keys <= e.rank.Keys
    requires Extends(s, s')
  {
    && (forall k :: k in s'.instances && k !in s.instances ==>
          k in e.providers && e.providers[k].scope == Singleton && Rank(e, k) < bound)
    && (forall j :: |s.trace| <= j < |s'.trace| ==> FreshConstruction(e, s, s'.trace[j], bound))
  }

  lemma WithinCompose(e: Env, s0: State, s1: State, s2: State, b1: nat, b2: nat)
    requires Acyclic(e) && b1 <= b2
    requires Extends(s0, s1) && Within(e, s0, s1, b1)
    requires Extends(s1, s2) && Within(e, s1, s2, b2)
    ensures Extends(s0, s2) && Within(e, s0, s2, b2)
  {
    forall j | |s0.trace| <= j < |s2.trace|
      ensures FreshConstruction(e, s0, s2.trace[j], b2)
    {
      if j < |s1.trace| {
        assert s2.trace[j] == s1.trace[j];
      }
    }
  }

  /**
   * Frame of `resolve(t)`: it never evicts or replaces a cached instance, only appends
   * calls, and every constructor it calls and every cache entry it adds is for a provided,
   * previously uncached type no higher than `t`.
   */
  lemma {:induction false} ResolveFootprint(e: Env, s: State, t: TypeKey)
    requires Acyclic(e)
    ensures var o := Resolve(e, s, t);
      Extends(s, o.state) && Within(e, s, o.state, Rank(e, t) + 1)
    decreases Rank(e, t), 1
  {
    if t !in s.instances && t in e.providers {
      var p := e.providers[t];
      var a := Arguments(e, s, t);
      ArgumentsFootprint(e, s, t);
      assert t !in a.state.instances;
      if a.failure.None? {
        var ev := Constructed(t, p.value.id, a.values);
        var o := Resolve(e, s, t);
        assert o.state.trace == a.state.trace + [ev];
        assert FreshConstruction(e, s, ev, Rank(e, t) + 1);
        forall j | |s.trace| <= j < |o.state.trace|
          ensures FreshConstruction(e, s, o.state.trace[j], Rank(e, t) + 1)
        {
          if j < |a.state.trace| {
            assert o.state.trace[j] == a.state.trace[j];
          }
        }
      }
    }
  }

  /** Frame of the parameter resolution of `t`: everything it adds lies strictly below `t`. */
  lemma {:induction false} ArgumentsFootprint(e: Env, s: State, t: TypeKey)
    requires Acyclic(e) && t in e.providers
    ensures var a := Arguments(e, s, t);
      Extends(s, a.state) && Within(e, s, a.state, Rank(e, t))
    decreases Rank(e, t), 0, |e.providers[t].value.params| + 1
  {
    ResolveEachFootprint(e, s, e.providers[t].value.params, 0, [], Rank(e, t));
  }

  /** Frame of resolving a list of types below `bound`. */
  lemma {:induction false} ResolveEachFootprint(e: Env, s: State, ts: seq<TypeKey>, i: nat, acc: seq<Value>, bound: nat)
    requires Acyclic(e) && i <= |ts| && Below(e, ts, bound)
    ensures var a := ResolveEach(e, s, ts, i, acc, bound);
      Extends(s, a.state) && Within(e, s, a.state, bound)
    decreases bound, 0, |ts| - i
  {
    if i < |ts| {
      var o := Resolve(e, s, ts[i]);
      ResolveFootprint(e, s, ts[i]);
      if o.result.Success? {
        ResolveEachFootprint(e, o.state, ts, i + 1, acc + [o.result.value], bound);
        WithinCompose(e, s, o.state, ResolveEach(e, s, ts, i, acc, bound).state, Rank(e, ts[i]) + 1, bound);
      }
    }
  }

  /** The cache and the constructor calls of every cached type are as they were. */
  ghost predicate KeepsCache(s: State, s': State) {
    forall u :: u in s.instances ==>
      && u in s'.instances && s'.instances[u] == s.instances[u]
      && Constructions(s'.trace, u) == Constructions(s.trace, u)
  }

  /** Every entry that `s'` adds to the cache of `s` is for a provided singleton type. */
  ghost predicate CachesOnlySingletons(e: Env, s: State, s': State) {
    forall k :: k in s'.instances && k !in s.instances ==>
      k in e.providers && e.providers[k].scope == Singleton
  }

  lemma WithinKeepsCache(e: Env, s: State, s': State, bound: nat)
    requires Acyclic(e) && Extends(s, s') && Within(e, s, s', bound)
    ensures KeepsCache(s, s')
  {
    forall u | u in s.instances
      ensures Constructions(s'.trace, u) == Constructions(s.trace, u)
    {
      CountStable(s.trace, s'.trace, ConstructionOf(u));
    }
  }

  /**
   * Cache hit: a cached type is returned at once, with no constructor call and no change,
   * whatever provider is registered for it now (even after a re-registration).
   */
  lemma ResolveCacheHit(e: Env, s: State, t: TypeKey)
    requires Acyclic(e) && t in s.instances
    ensures Resolve(e, s, t) == Outcome(Success(s.instances[t]), s)
  {
  }

  /** Missing provider: an uncached type without a provider fails, naming it, and changes nothing. */
  lemma ResolveNoProvider(e: Env, s: State, t: TypeKey)
    requires Acyclic(e) && t !in s.instances && t !in e.providers
    ensures Resolve(e, s, t) == Outcome(Failure(NoProvider(t)), s)
  {
  }

  /**
   * A resolution never rebuilds or replaces an instance that was cached before it, and the
   * only instances it caches, at any depth, are of singleton types.
   */
  lemma ResolveKeepsCache(e: Env, s: State, t: TypeKey)
    requires Acyclic(e)
    ensures KeepsCache(s, Resolve(e, s, t).state)
    ensures CachesOnlySingletons(e, s, Resolve(e, s, t).state)
  {
    ResolveFootprint(e, s, t);
    WithinKeepsCache(e, s, Resolve(e, s, t).state, Rank(e, t) + 1);
  }

  /**
   * Dependency failure: when a parameter of `t`'s constructor fails to resolve, that error
   * is returned unchanged, the constructor is never called, and `t` is not cached.
   */
  lemma ResolveDependencyFailure(e: Env, s: State, t: TypeKey)
    requires Acyclic(e) && t !in s.instances && t in e.providers
    requires Arguments(e, s, t).failure.Some?
    ensures var a := Arguments(e, s, t); var o := Resolve(e, s, t);
      && o == Outcome(Failure(a.failure.value), a.state)
      && Constructions(o.state.trace, t) == Constructions(s.trace, t)
      && t !in o.state.instances
  {
    var a := Arguments(e, s, t);
    ArgumentsFootprint(e, s, t);
    CountStable(s.trace, a.state.trace, ConstructionOf(t));
  }

  /**
   * On a cache miss whose parameters all resolve, the constructor is called exactly once,
   * last, on the parameter values in declaration order.
   */
  lemma ResolveCallsConstructor(e: Env, s: State, t: TypeKey)
    requires Acyclic(e) && t !in s.instances && t in e.providers
    requires Arguments(e, s, t).failure.None?
    ensures var a := Arguments(e, s, t); var o := Resolve(e, s, t); var f := e.providers[t].value;
      && |a.values| == |f.params|
      && o.state.trace == a.state.trace + [Constructed(t, f.id, a.values)]
      && Constructions(o.state.trace, t) == Constructions(s.trace, t) + 1
  {
    var a := Arguments(e, s, t);
    var f := e.providers[t].value;
    ResolveEachLength(e, s, f.params, 0, [], Rank(e, t));
    ArgumentsFootprint(e, s, t);
    CountStable(s.trace, a.state.trace, ConstructionOf(t));
    CountSnoc(a.state.trace, Constructed(t, f.id, a.values), ConstructionOf(t));
  }

  /**
   * Constructor error: a two-output constructor that returns a non-nil error makes the
   * resolution fail with exactly that error, and `t` is not cached; instances cached while
   * resolving its parameters stay cached.
   */
  lemma ResolveConstructorError(e: Env, s: State, t: TypeKey, message: string)
    requires Acyclic(e) && t !in s.instances && t in e.providers
    requires Arguments(e, s, t).failure.None?
    requires |e.providers[t].value.outs| == 2
    requires e.behave(e.providers[t].value.id, Arguments(e, s, t).values).second == Some(message)
    ensures var o := Resolve(e, s, t);
      && o.result == Failure(Raised(message))
      && t !in o.state.instances
      && o.state.instances == Arguments(e, s, t).state.instances
  {
    ArgumentsFootprint(e, s, t);
  }

  /** Singleton scope: a successful resolution of a singleton leaves its value in the cache. */
  lemma ResolveSingletonStored(e: Env, s: State, t: TypeKey)
    requires Acyclic(e) && t in e.providers && e.providers[t].scope == Singleton
    requires Resolve(e, s, t).result.Success?
    ensures var o := Resolve(e, s, t);
      t in o.state.instances && o.state.instances[t] == o.result.value
  {
  }

  /**
   * Singleton scope: resolving a singleton again returns the identical value and calls
   * nothing, so its constructor runs at most once for all later resolutions.
   */
  lemma ResolveSingletonReused(e: Env, s: State, t: TypeKey)
    requires Acyclic(e) && t in e.providers && e.providers[t].scope == Singleton
    requires Resolve(e, s, t).result.Success?
    ensures var o := Resolve(e, s, t);
      Resolve(e, o.state, t) == o
  {
    ResolveSingletonStored(e, s, t);
  }

  /** Transient scope: resolving a transient type never caches it. */
  lemma ResolveTransientNotStored(e: Env, s: State, t: TypeKey)
    requires Acyclic(e) && t !in s.instances && t in e.providers && e.providers[t].scope == Transient
    ensures t !in Resolve(e, s, t).state.instances
  {
    ArgumentsFootprint(e, s, t);
  }

  /**
   * A "no provider" error always names a type that has no provider: the constructors'
   * own errors are `Raised`, and every provided type on the way is resolved further.
   */
  lemma {:induction false} ResolveMissingProvider(e: Env, s: State, t: TypeKey)
    requires Acyclic(e)
    ensures var r := Resolve(e, s, t).result;
      r.Failure? && r.error.NoProvider? ==> r.error.ty !in e.providers
    decreases Rank(e, t), 1
  {
    if t !in s.instances && t in e.providers {
      ArgumentsMissingProvider(e, s, t);
    }
  }

  lemma {:induction false} ArgumentsMissingProvider(e: Env, s: State, t: TypeKey)
    requires Acyclic(e) && t in e.providers
    ensures var f := Arguments(e, s, t).failure;
      f.Some? && f.value.NoProvider? ==> f.value.ty !in e.providers
    decreases Rank(e, t), 0, |e.providers[t].value.params| + 1
  {
    ResolveEachMissingProvider(e, s, e.providers[t].value.params, 0, [], Rank(e, t));
  }

  lemma {:induction false} ResolveEachMissingProvider(e: Env, s: State, ts: seq<TypeKey>, i: nat, acc: seq<Value>, bound: nat)
    requires Acyclic(e) && i <= |ts| && Below(e, ts, bound)
    ensures var f := ResolveEach(e, s, ts, i, acc, bound).failure;
      f.Some? && f.value.NoProvider? ==> f.value.ty !in e.providers
    decreases bound, 0, |ts| - i
  {
    if i < |ts| {
      var o := Resolve(e, s, ts[i]);
      ResolveMissingProvider(e, s, ts[i]);
      if o.result.Success? {
        ResolveEachMissingProvider(e, o.state, ts, i + 1, acc + [o.result.value], bound);
      }
    }
  }

  /** The state left by resolving the first `j` types of `ts`. */
  ghost function Before(e: Env, s: State, ts: seq<TypeKey>, j: nat, bound: nat): State
    requires Acyclic(e) && j <= |ts| && Below(e, ts, bound)
  {
    assert forall k :: 0 <= k < j ==> ts[..j][k] == ts[k];
    ResolveEach(e, s, ts[..j], 0, [], bound).state
  }

  /** Resolving `ts` is resolving `ts[..j]` and then, if that succeeded, going on from `j`. */
  lemma {:induction false} Split(e: Env, s: State, ts: seq<TypeKey>, i: nat, j: nat, acc: seq<Value>, bound: nat)
    requires Acyclic(e) && i <= j <= |ts| && Below(e, ts, bound)
    ensures Below(e, ts[..j], bound)
    ensures var b := ResolveEach(e, s, ts[..j], i, acc, bound);
      ResolveEach(e, s, ts, i, acc, bound)
        == if b.failure.None? then ResolveEach(e, b.state, ts, j, b.values, bound) else b
    decreases j - i
  {
    assert forall k :: 0 <= k < j ==> ts[..j][k] == ts[k];
    if i < j {
      var o := Resolve(e, s, ts[i]);
      if o.result.Success? {
        Split(e, o.state, ts, i + 1, j, acc + [o.result.value], bound);
      }
    }
  }

  /** The value at position `j` is what `ts[j]` resolves to after `ts[..j]`. */
  lemma ValueAt(e: Env, s: State, ts: seq<TypeKey>, bound: nat, j: nat)
    requires Acyclic(e) && Below(e, ts, bound) && j < |ts|
    requires j < |ResolveEach(e, s, ts, 0, [], bound).values|
    ensures Resolve(e, Before(e, s, ts, j, bound), ts[j]).result
         == Success(ResolveEach(e, s, ts, 0, [], bound).values[j])
  {
    ResolveEachLength(e, s, ts, 0, [], bound);
    Split(e, s, ts, 0, j, [], bound);
    var b := ResolveEach(e, s, ts[..j], 0, [], bound);
    ResolveEachLength(e, s, ts[..j], 0, [], bound);
    assert b.failure.None?;
    var o := Resolve(e, b.state, ts[j]);
    assert o.result.Success?;
    ResolveEachLength(e, o.state, ts, j + 1, b.values + [o.result.value], bound);
  }

  /** Resolution stops at the first type that fails, with the state that failure left. */
  lemma FirstFailure(e: Env, s: State, ts: seq<TypeKey>, bound: nat)
    requires Acyclic(e) && Below(e, ts, bound)
    requires ResolveEach(e, s, ts, 0, [], bound).failure.Some?
    ensures var a := ResolveEach(e, s, ts, 0, [], bound); var n := |a.values|;
      n < |ts| && Resolve(e, Before(e, s, ts, n, bound), ts[n]) == Outcome(Failure(a.failure.value), a.state)
  {
    var a := ResolveEach(e, s, ts, 0, [], bound);
    var n := |a.values|;
    ResolveEachLength(e, s, ts, 0, [], bound);
    Split(e, s, ts, 0, n, [], bound);
    var b := ResolveEach(e, s, ts[..n], 0, [], bound);
    ResolveEachLength(e, s, ts[..n], 0, [], bound);
    assert b.failure.None?;
    var o := Resolve(e, b.state, ts[n]);
    if o.result.Success? {
      ResolveEachLength(e, o.state, ts, n + 1, b.values + [o.result.value], bound);
    }
  }

  /**
   * Resolution in declaration order: value `j` is what `ts[j]` resolves to in the state left
   * by `ts[..j]`; at the first type that fails, resolution stops with its error unchanged.
   */
  lemma InOrder(e: Env, s: State, ts: seq<TypeKey>, bound: nat)
    requires Acyclic(e) && Below(e, ts, bound)
    ensures var a := ResolveEach(e, s, ts, 0, [], bound); var n := |a.values|;
      && n <= |ts|
      && (a.failure.None? <==> n == |ts|)
      && (forall j :: 0 <= j < n ==>
            Resolve(e, Before(e, s, ts, j, bound), ts[j]).result == Success(a.values[j]))
      && (a.failure.Some? ==>
            Resolve(e, Before(e, s, ts, n, bound), ts[n]) == Outcome(Failure(a.failure.value), a.state))
      && (a.failure.None? ==> a.state == Before(e, s, ts, n, bound))
  {
    var a := ResolveEach(e, s, ts, 0, [], bound);
    ResolveEachLength(e, s, ts, 0, [], bound);
    forall j | 0 <= j < |a.values|
      ensures Resolve(e, Before(e, s, ts, j, bound), ts[j]).result == Success(a.values[j])
    {
      ValueAt(e, s, ts, bound, j);
    }
    if a.failure.Some? {
      FirstFailure(e, s, ts, bound);
    } else {
      assert ts[..|ts|] == ts;
    }
  }

  /** The frame of resolving `ts` from the start. */
  lemma ResolveAllFootprint(e: Env, s: State, ts: seq<TypeKey>)
    requires Acyclic(e)
    ensures var a := ResolveAll(e, s, ts);
      Extends(s, a.state) && Within(e, s, a.state, Height(e, ts))
  {
    ResolveEachFootprint(e, s, ts, 0, [], Height(e, ts));
  }

  /** `Invoke` refuses a value that is not a function, without resolving anything. */
  lemma InvokeRefusesNonFunction(e: Env, s: State, fn: Any)
    requires Acyclic(e) && !fn.FuncValue?
    ensures Invocation(e, s, fn) == Effect(Some(InvokeNotAFunction), s)
  {
  }

  /**
   * `Invoke` calls `fn` exactly once when every parameter resolves, as the last call and on
   * the values in order, returning nil whatever `fn` returns; otherwise it never calls `fn`
   * and returns the first resolution error.
   */
  lemma InvokeCallsOnce(e: Env, s: State, fn: Any)
    requires Acyclic(e) && fn.FuncValue?
    ensures var r := Invocation(e, s, fn); var a := ResolveAll(e, s, fn.fn.params);
      && r.err == a.failure
      && Invocations(r.state.trace, fn.fn.id)
           == Invocations(s.trace, fn.fn.id) + (if r.err.None? then 1 else 0)
      && (r.err.None? ==>
            && |a.values| == |fn.fn.params|
            && r.state.trace == a.state.trace + [Invoked(fn.fn.id, a.values)])
  {
    var a := ResolveAll(e, s, fn.fn.params);
    ResolveAllFootprint(e, s, fn.fn.params);
    ResolveEachLength(e, s, fn.fn.params, 0, [], Height(e, fn.fn.params));
    CountStable(s.trace, a.state.trace, InvocationOf(fn.fn.id));
    CountSnoc(a.state.trace, Invoked(fn.fn.id, a.values), InvocationOf(fn.fn.id));
  }

  /** `Invoke` never rebuilds or replaces a cached instance, and caches only singletons. */
  lemma InvokeKeepsCache(e: Env, s: State, fn: Any)
    requires Acyclic(e)
    ensures KeepsCache(s, Invocation(e, s, fn).state)
    ensures CachesOnlySingletons(e, s, Invocation(e, s, fn).state)
  {
    if fn.FuncValue? {
      var a := ResolveAll(e, s, fn.fn.params);
      ResolveAllFootprint(e, s, fn.fn.params);
      WithinKeepsCache(e, s, a.state, Height(e, fn.fn.params));
      forall u | u in s.instances
        ensures Constructions(Invocation(e, s, fn).state.trace, u) == Constructions(s.trace, u)
      {
        CountSnoc(a.state.trace, Invoked(fn.fn.id, a.values), ConstructionOf(u));
      }
    }
  }

  /**
   * `Bind` sets the fields in declaration order: field `j` before the first failure holds what
   * its type resolves to after the earlier fields; that failure's error is returned and that
   * field and all later ones are untouched.
   */
  lemma BindInOrder(e: Env, s: State, types: seq<TypeKey>, fields: seq<Option<Value>>)
    requires Acyclic(e) && |fields| == |types|
    ensures var r := Binding(e, s, types, fields); var n := |ResolveAll(e, s, types).values|;
      var h := Height(e, types);
      && n <= |types|
      && (r.err.None? <==> n == |types|)
      && (forall j :: 0 <= j < n ==>
            r.fields[j].Some? && Resolve(e, Before(e, s, types, j, h), types[j]).result == Success(r.fields[j].value))
      && (forall j :: n <= j < |types| ==> r.fields[j] == fields[j])
      && (r.err.Some? ==>
            Resolve(e, Before(e, s, types, n, h), types[n]) == Outcome(Failure(r.err.value), r.state))
  {
    InOrder(e, s, types, Height(e, types));
  }

  /** `Bind` never rebuilds or replaces a cached instance, and caches only singletons. */
  lemma BindKeepsCache(e: Env, s: State, types: seq<TypeKey>, fields: seq<Option<Value>>)
    requires Acyclic(e) && |fields| == |types|
    ensures KeepsCache(s, Binding(e, s, types, fields).state)
    ensures CachesOnlySingletons(e, s, Binding(e, s, types, fields).state)
  {
    ResolveAllFootprint(e, s, types);
    WithinKeepsCache(e, s, ResolveAll(e, s, types).state, Height(e, types));
  }

  /** `Get` of an unknown key is nil and changes nothing. */
  lemma GetUnknownKey(e: Env, s: State, C: map<string, TypeKey>, key: string)
    requires Acyclic(e) && key !in C
    ensures Lookup(e, s, C, key) == (None, s)
  {
  }

  /**
   * `Get` of a key configured with a singleton provider: once it has returned a value, it
   * returns the identical value again without calling anything.
   */
  lemma GetStable(e: Env, s: State, C: map<string, TypeKey>, key: string)
    requires Acyclic(e) && key in C && C[key] in e.providers && e.providers[C[key]].scope == Singleton
    requires Lookup(e, s, C, key).0.Some?
    ensures var (v, s') := Lookup(e, s, C, key);
      Lookup(e, s', C, key) == (v, s')
  {
    ResolveSingletonReused(e, s, C[key]);
  }

  /**
   * `Configure` then `Get`: the key resolves through the constructor just registered, as a
   * singleton; `Get` is nil exactly when that resolution fails or yields a nil interface, a
   * value it returns is the resolved one, and a successful resolution is cached.
   */
  lemma ConfigureThenGet(P: Providers, C: map<string, TypeKey>, key: string, ctor: Any,
                         behave: Behaviour, rank: map<TypeKey, nat>, s: State)
    requires !ctor.NilValue? && Configuration(P, C, key, ctor).Success?
    requires Acyclic(Env(Configuration(P, C, key, ctor).value.0, behave, rank))
    ensures var (P', C') := Configuration(P, C, key, ctor).value; var e := Env(P', behave, rank);
      var t := Produced(ctor); var (v, s') := Lookup(e, s, C', key);
      var r := Resolve(e, s, t).result;
      && P'[t] == Spec(t, ctor.fn, Singleton)
      && (v.None? <==> r.Failure? || r.value.NilInterface?)
      && (v.Some? ==> v.value == r.value)
      && (r.Success? ==> t in s'.instances && s'.instances[t] == r.value)
  {
    var (P', C') := Configuration(P, C, key, ctor).value;
    var t := Produced(ctor);
    if Resolve(Env(P', behave, rank), s, t).result.Success? {
      ResolveSingletonStored(Env(P', behave, rank), s, t);
    }
  }

  /** `Get` never rebuilds or replaces a cached instance, and caches only singletons. */
  lemma GetKeepsCache(e: Env, s: State, C: map<string, TypeKey>, key: string)
    requires Acyclic(e)
    ensures KeepsCache(s, Lookup(e, s, C, key).1)
    ensures CachesOnlySingletons(e, s, Lookup(e, s, C, key).1)
  {
    if key in C {
      ResolveKeepsCache(e, s, C[key]);
    }
  }

  /**
   * From `s` to `s'` the constructor of every singleton ran at most once, and, when `ok`
   * (the operation succeeded), every singleton that was constructed is now cached.
   */
  ghost predicate OncePerSingleton(e: Env, s: State, s': State, ok: bool) {
    forall u :: u in e.providers && e.providers[u].scope == Singleton ==>
      && Constructions(s.trace, u) <= Constructions(s'.trace, u) <= Constructions(s.trace, u) + 1
      && (ok && Constructions(s.trace, u) < Constructions(s'.trace, u) ==> u in s'.instances)
  }

  /**
   * Singleton scope within one resolution: however often a singleton is needed in the
   * dependency graph of `t`, its constructor runs at most once.
   */
  lemma {:induction false} ResolveSingletonOnce(e: Env, s: State, t: TypeKey)
    requires Acyclic(e)
    ensures var o := Resolve(e, s, t); OncePerSingleton(e, s, o.state, o.result.Success?)
    decreases Rank(e, t), 1
  {
    var o := Resolve(e, s, t);
    if t !in s.instances && t in e.providers {
      var a := Arguments(e, s, t);
      ArgumentsSingletonOnce(e, s, t);
      if a.failure.None? {
        var ev := Constructed(t, e.providers[t].value.id, a.values);
        assert o.state.trace == a.state.trace + [ev];
        ArgumentsFootprint(e, s, t);
        forall u | u in e.providers && e.providers[u].scope == Singleton
          ensures Constructions(s.trace, u) <= Constructions(o.state.trace, u) <= Constructions(s.trace, u) + 1
          ensures o.result.Success? && Constructions(s.trace, u) < Constructions(o.state.trace, u)
                  ==> u in o.state.instances
        {
          CountSnoc(a.state.trace, ev, ConstructionOf(u));
          if u == t {
            CountStable(s.trace, a.state.trace, ConstructionOf(t));
          }
        }
      }
    } else {
      CountStable(s.trace, o.state.trace, ConstructionOf(t));
      forall u | u in e.providers && e.providers[u].scope == Singleton
        ensures Constructions(o.state.trace, u) == Constructions(s.trace, u)
      {
        CountStable(s.trace, o.state.trace, ConstructionOf(u));
      }
    }
  }

  lemma {:induction false} ArgumentsSingletonOnce(e: Env, s: State, t: TypeKey)
    requires Acyclic(e) && t in e.providers
    ensures var a := Arguments(e, s, t); OncePerSingleton(e, s, a.state, a.failure.None?)
    decreases Rank(e, t), 0, |e.providers[t].value.params| + 1
  {
    ResolveEachSingletonOnce(e, s, e.providers[t].value.params, 0, [], Rank(e, t));
  }

  lemma {:induction false} ResolveEachSingletonOnce(e: Env, s: State, ts: seq<TypeKey>, i: nat, acc: seq<Value>, bound: nat)
    requires Acyclic(e) && i <= |ts| && Below(e, ts, bound)
    ensures var a := ResolveEach(e, s, ts, i, acc, bound); OncePerSingleton(e, s, a.state, a.failure.None?)
    decreases bound, 0, |ts| - i
  {
    var a := ResolveEach(e, s, ts, i, acc, bound);
    if i == |ts| {
      forall u | u in e.providers && e.providers[u].scope == Singleton
        ensures Constructions(a.state.trace, u) == Constructions(s.trace, u)
      {
        CountStable(s.trace, a.state.trace, ConstructionOf(u));
      }
    } else {
      var o := Resolve(e, s, ts[i]);
      ResolveSingletonOnce(e, s, ts[i]);
      if o.result.Success? {
        var rest := acc + [o.result.value];
        ResolveEachSingletonOnce(e, o.state, ts, i + 1, rest, bound);
        ResolveEachFootprint(e, o.state, ts, i + 1, rest, bound);
        WithinKeepsCache(e, o.state, a.state, bound);
      }
    }
  }

  /** Singleton scope within one `Invoke`: each singleton's constructor runs at most once. */
  lemma InvokeSingletonOnce(e: Env, s: State, fn: Any)
    requires Acyclic(e)
    ensures var r := Invocation(e, s, fn); OncePerSingleton(e, s, r.state, r.err.None?)
  {
    var r := Invocation(e, s, fn);
    if fn.FuncValue? {
      var a := ResolveAll(e, s, fn.fn.params);
      ResolveEachSingletonOnce(e, s, fn.fn.params, 0, [], Height(e, fn.fn.params));
      forall u | u in e.providers
        ensures Constructions(r.state.trace, u) == Constructions(a.state.trace, u)
      {
        if a.failure.None? {
          CountSnoc(a.state.trace, Invoked(fn.fn.id, a.values), ConstructionOf(u));
        }
      }
    } else {
      forall u | u in e.providers ensures Constructions(r.state.trace, u) == Constructions(s.trace, u) {
      }
    }
  }

  /** Singleton scope within one `Bind`: each singleton's constructor runs at most once. */
  lemma BindSingletonOnce(e: Env, s: State, types: seq<TypeKey>, fields: seq<Option<Value>>)
    requires Acyclic(e) && |fields| == |types|
    ensures var r := Binding(e, s, types, fields); OncePerSingleton(e, s, r.state, r.err.None?)
  {
    ResolveEachSingletonOnce(e, s, types, 0, [], Height(e, types));
  }
}

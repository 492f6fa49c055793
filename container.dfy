/**
 * The `Container` of cosmo.go (cosmo.go:24-45, 54-81, 108-224) as a class whose maps
 * its methods update in place. Each method is proved to compute the functions of
 * `Registry` and `Resolution`, whose properties are proved in `ResolutionFacts`.
 */
module Cosmo {
  import opened Wrappers
  import opened Registry
  import opened Resolution
  import ResolutionFacts

  class Container {
    var configurations: map<string, TypeKey>
    var providers: Providers
    var instances: map<TypeKey, Value>
    /** Every call the container has made into user code, oldest first. */
    ghost var trace: seq<Event>

    /** Providers are keyed by their produced type and every configured type has a provider. */
    ghost predicate Valid()
      reads this
    {
      WellFormed(providers) && configurations.Values <= providers.Keys
    }

    /** The part of the container that resolution changes. */
    ghost function Current(): State
      reads this
    {
      State(instances, trace)
    }

    /** `New()`: a container with three empty maps. */
    constructor ()
      ensures Valid()
      ensures configurations == map[] && providers == map[] && instances == map[] && trace == []
    {
      configurations, providers, instances := map[], map[], map[];
      trace := [];
    }

    /**
     * `AddWithScope(scope, ctor)`: the provider table becomes `Register(...)`, or stays as it
     * was when `spec` refuses `ctor`; nothing else changes.
     */
    method AddWithScope(scope: Scope, ctor: Any) returns (err: Option<Error>)
      requires Valid() && !ctor.NilValue?
      modifies this
      ensures Valid()
      ensures var r := Register(old(providers), scope, ctor);
        && (r.Failure? ==> err == Some(r.error) && providers == old(providers))
        && (r.Success? ==> err == None && providers == r.value)
      ensures configurations == old(configurations) && Current() == old(Current())
    {
      var s := SpecOf(ctor);
      if s.Failure? {
        return Some(s.error);
      }
      var (t, v) := s.value;
      providers := providers[t := Spec(t, v, scope)];
      err := None;
    }

    /** `Add(ctor)`: `AddWithScope` with the transient scope. */
    method Add(ctor: Any) returns (err: Option<Error>)
      requires Valid() && !ctor.NilValue?
      modifies this
      ensures Valid()
      ensures var r := Register(old(providers), Transient, ctor);
        && (r.Failure? ==> err == Some(r.error) && providers == old(providers))
        && (r.Success? ==> err == None && providers == r.value)
      ensures configurations == old(configurations) && Current() == old(Current())
    {
      err := AddWithScope(Transient, ctor);
    }

    /** `AddSingleton(ctor)`: `AddWithScope` with the singleton scope. */
    method AddSingleton(ctor: Any) returns (err: Option<Error>)
      requires Valid() && !ctor.NilValue?
      modifies this
      ensures Valid()
      ensures var r := Register(old(providers), Singleton, ctor);
        && (r.Failure? ==> err == Some(r.error) && providers == old(providers))
        && (r.Success? ==> err == None && providers == r.value)
      ensures configurations == old(configurations) && Current() == old(Current())
    {
      err := AddWithScope(Singleton, ctor);
    }

    /**
     * `resolve(t)`: computes `Resolution.Resolve` on the container's state, leaving the
     * provider table and the configurations as they were.
     */
    method Resolve(t: TypeKey, behave: Behaviour, ghost rank: map<TypeKey, nat>)
      returns (r: Result<Value, Error>)
      requires Acyclic(Env(providers, behave, rank))
      modifies this
      ensures providers == old(providers) && configurations == old(configurations)
      ensures Resolution.Resolve(Env(providers, behave, rank), old(Current()), t) == Outcome(r, Current())
      decreases Rank(Env(providers, behave, rank), t), 1
    {
      if t in instances {
        return Success(instances[t]);
      }
      if t !in providers {
        return Failure(NoProvider(t));
      }
      ghost var e := Env(providers, behave, rank);
      var provider := providers[t];
      var params := provider.value.params;
      var args := new Value[|params|];
      var i := 0;
      while i < |params|
        invariant 0 <= i <= |params|
        invariant providers == old(providers) && configurations == old(configurations)
        invariant ResolveEach(e, old(Current()), params, 0, [], Rank(e, t))
               == ResolveEach(e, Current(), params, i, args[..i], Rank(e, t))
      {
        var v := Resolve(params[i], behave, rank);
        if v.Failure? {
          return Failure(v.error);
        }
        args[i] := v.value;
        assert args[..i + 1] == args[..i] + [v.value];
        i := i + 1;
      }
      assert args[..] == args[..i];
      var out := behave(provider.value.id, args[..]);
      trace := trace + [Constructed(t, provider.value.id, args[..])];
      if |provider.value.outs| == 2 && out.second.Some? {
        return Failure(Raised(out.second.value));
      }
      if provider.scope == Singleton {
        instances := instances[t := out.first];
      }
      return Success(out.first);
    }

    /**
     * `Invoke(fn)`: computes `Invocation`: a non-function is refused, otherwise `fn` is
     * called once its parameters are resolved, or the first resolution error is returned.
     */
    method Invoke(fn: Any, behave: Behaviour, ghost rank: map<TypeKey, nat>) returns (err: Option<Error>)
      requires Acyclic(Env(providers, behave, rank))
      modifies this
      ensures providers == old(providers) && configurations == old(configurations)
      ensures Invocation(Env(providers, behave, rank), old(Current()), fn) == Effect(err, Current())
    {
      if !fn.FuncValue? {
        return Some(InvokeNotAFunction);
      }
      ghost var e := Env(providers, behave, rank);
      var params := fn.fn.params;
      var args := new Value[|params|];
      var i := 0;
      while i < |params|
        invariant 0 <= i <= |params|
        invariant providers == old(providers) && configurations == old(configurations)
        invariant ResolveAll(e, old(Current()), params)
               == ResolveEach(e, Current(), params, i, args[..i], Height(e, params))
      {
        var v := Resolve(params[i], behave, rank);
        if v.Failure? {
          return Some(v.error);
        }
        args[i] := v.value;
        assert args[..i + 1] == args[..i] + [v.value];
        i := i + 1;
      }
      assert args[..] == args[..i];
      // `v.Call(args)`: the function runs and whatever it returns is dropped.
      trace := trace + [Invoked(fn.fn.id, args[..])];
      return None;
    }

    /**
     * `Bind(&target)`: `types` are the struct's field types in declaration order and
     * `target` its fields; computes `Binding`, setting each field as soon as its type
     * resolves.
     */
    method Bind(types: seq<TypeKey>, target: array<Option<Value>>, behave: Behaviour, ghost rank: map<TypeKey, nat>)
      returns (err: Option<Error>)
      requires target.Length == |types|
      requires Acyclic(Env(providers, behave, rank))
      modifies this, target
      ensures providers == old(providers) && configurations == old(configurations)
      ensures Binding(Env(providers, behave, rank), old(Current()), types, old(target[..]))
           == Bound(err, target[..], Current())
    {
      ghost var e := Env(providers, behave, rank);
      ghost var values: seq<Value> := [];
      var i := 0;
      while i < |types|
        invariant 0 <= i <= |types| && |values| == i
        invariant providers == old(providers) && configurations == old(configurations)
        invariant target[..] == Assign(old(target[..]), values)
        invariant ResolveAll(e, old(Current()), types)
               == ResolveEach(e, Current(), types, i, values, Height(e, types))
      {
        var v := Resolve(types[i], behave, rank);
        if v.Failure? {
          return Some(v.error);
        }
        target[i] := Some(v.value);
        values := values + [v.value];
        i := i + 1;
      }
      return None;
    }

    /**
     * `Configure(key, ctor)`: computes `Configuration`: on a `spec` error nothing changes,
     * otherwise `ctor` is a singleton provider and `key` names its produced type.
     */
    method Configure(key: string, ctor: Any) returns (err: Option<Error>)
      requires Valid() && !ctor.NilValue?
      modifies this
      ensures Valid()
      ensures var r := Configuration(old(providers), old(configurations), key, ctor);
        && (r.Failure? ==> err == Some(r.error)
                           && providers == old(providers) && configurations == old(configurations))
        && (r.Success? ==> err == None && (providers, configurations) == r.value)
      ensures Current() == old(Current())
    {
      var s := SpecOf(ctor);
      if s.Failure? {
        return Some(s.error);
      }
      var t := s.value.0;
      err := AddSingleton(ctor);
      // `spec` already accepted `ctor`, so `AddSingleton` cannot fail here.
      assert err.None?;
      configurations := configurations[key := t];
    }

    /** `Get(key)`: computes `Lookup`: nil for an unknown key, a failed resolution or a nil interface. */
    method Get(key: string, behave: Behaviour, ghost rank: map<TypeKey, nat>) returns (v: Option<Value>)
      requires Acyclic(Env(providers, behave, rank))
      modifies this
      ensures providers == old(providers) && configurations == old(configurations)
      ensures Lookup(Env(providers, behave, rank), old(Current()), configurations, key) == (v, Current())
    {
      if key !in configurations {
        return None;
      }
      var r := Resolve(configurations[key], behave, rank);
      if r.Failure? || r.value.NilInterface? {
        return None;
      }
      return Some(r.value);
    }
  }

  /**
   * Under the container's invariant a configured key always has a provider, so `Get` of
   * it never fails for want of a provider of the configured type itself.
   */
  lemma ConfiguredTypeProvided(c: Container, key: string, behave: Behaviour, rank: map<TypeKey, nat>)
    requires c.Valid() && key in c.configurations && Acyclic(Env(c.providers, behave, rank))
    ensures var t := c.configurations[key];
      Resolution.Resolve(Env(c.providers, behave, rank), c.Current(), t).result != Failure(NoProvider(t))
  {
    ResolutionFacts.ResolveMissingProvider(Env(c.providers, behave, rank), c.Current(), c.configurations[key]);
  }
}

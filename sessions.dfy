/**
 * Sequences of calls on one container (cosmo.go:54-224), to state what the singleton scope
 * promises across calls: once a singleton has been resolved, no later registration,
 * resolution, `Invoke`, `Bind`, `Configure` or `Get` runs its constructor again, and every
 * later resolution of it returns the same value.
 */
module Sessions {
  import opened Wrappers
  import opened Registry
  import opened Resolution
  import opened ResolutionFacts

  /**
   * One call on the container. A call that resolves carries its own ranking of the provider
   * graph, as the methods of `Cosmo.Container` do, so every call of a session whose graph is
   * acyclic at that call can be covered, even when no single ranking fits the whole session.
   */
  datatype Op =
    | AddOp(scope: Scope, ctor: Any)
    | ConfigureOp(key: string, ctor: Any)
    | ResolveOp(t: TypeKey, rank: map<TypeKey, nat>)
    | InvokeOp(fn: Any, rank: map<TypeKey, nat>)
    | BindOp(types: seq<TypeKey>, fields: seq<Option<Value>>, rank: map<TypeKey, nat>)
    | GetOp(key: string, rank: map<TypeKey, nat>)

  /** The whole content of a container. */
  datatype Session = Session(providers: Providers, configurations: map<string, TypeKey>, state: State)

  /**
   * The container after one call, or `None` for a call this model does not cover: one that
   * panics (a nil constructor, a struct whose field count is not its type's) or one that
   * resolves while its ranking does not show the provider graph acyclic.
   */
  ghost function Step(x: Session, behave: Behaviour, op: Op): Option<Session> {
    match op
    case AddOp(scope, c) =>
      if c.NilValue? then None
      else if Register(x.providers, scope, c).Failure? then Some(x)
      else Some(x.(providers := Register(x.providers, scope, c).value))
    case ConfigureOp(key, c) =>
      if c.NilValue? then None
      else if Configuration(x.providers, x.configurations, key, c).Failure? then Some(x)
      else
        var (P', C') := Configuration(x.providers, x.configurations, key, c).value;
        Some(Session(P', C', x.state))
    case ResolveOp(t, rank) =>
      var e := Env(x.providers, behave, rank);
      if !Acyclic(e) then None else Some(x.(state := Resolve(e, x.state, t).state))
    case InvokeOp(fn, rank) =>
      var e := Env(x.providers, behave, rank);
      if !Acyclic(e) then None else Some(x.(state := Invocation(e, x.state, fn).state))
    case BindOp(types, fields, rank) =>
      var e := Env(x.providers, behave, rank);
      if !Acyclic(e) || |fields| != |types| then None
      else Some(x.(state := Binding(e, x.state, types, fields).state))
    case GetOp(key, rank) =>
      var e := Env(x.providers, behave, rank);
      if !Acyclic(e) then None else Some(x.(state := Lookup(e, x.state, x.configurations, key).1))
  }

  /** The container after `ops`, stopping before the first call the model does not cover. */
  ghost function Run(x: Session, behave: Behaviour, ops: seq<Op>): Session
    decreases |ops|
  {
    if ops == [] then x
    else
      match Step(x, behave, ops[0])
      case None => x
      case Some(y) => Run(y, behave, ops[1..])
  }

  /** No call changes a cached instance or runs the constructor of a cached type. */
  lemma StepKeepsCache(x: Session, behave: Behaviour, op: Op)
    requires Step(x, behave, op).Some?
    ensures KeepsCache(x.state, Step(x, behave, op).value.state)
  {
    match op
    case AddOp(_, _) =>
    case ConfigureOp(_, _) =>
    case ResolveOp(t, rank) => ResolveKeepsCache(Env(x.providers, behave, rank), x.state, t);
    case InvokeOp(fn, rank) => InvokeKeepsCache(Env(x.providers, behave, rank), x.state, fn);
    case BindOp(types, fields, rank) => BindKeepsCache(Env(x.providers, behave, rank), x.state, types, fields);
    case GetOp(key, rank) => GetKeepsCache(Env(x.providers, behave, rank), x.state, x.configurations, key);
  }

  /** A cached instance survives any sequence of calls, and its constructor never runs again. */
  lemma {:induction false} RunKeepsCache(x: Session, behave: Behaviour, ops: seq<Op>)
    ensures KeepsCache(x.state, Run(x, behave, ops).state)
    decreases |ops|
  {
    if ops != [] {
      match Step(x, behave, ops[0])
      case None =>
      case Some(y) =>
        StepKeepsCache(x, behave, ops[0]);
        RunKeepsCache(y, behave, ops[1..]);
    }
  }

  /**
   * The singleton scope across calls: the first successful resolution of an uncached
   * singleton runs its constructor once; after any later calls it has still run only that
   * once, and resolving the type, under any ranking that shows the graph acyclic then,
   * returns the same value without running anything.
   */
  lemma SingletonConstructedOnce(x: Session, behave: Behaviour, rank: map<TypeKey, nat>, t: TypeKey,
                                 ops: seq<Op>, rank': map<TypeKey, nat>)
    requires Acyclic(Env(x.providers, behave, rank))
    requires t in x.providers && x.providers[t].scope == Singleton && t !in x.state.instances
    requires Resolve(Env(x.providers, behave, rank), x.state, t).result.Success?
    ensures var o := Resolve(Env(x.providers, behave, rank), x.state, t);
      var y := Run(x.(state := o.state), behave, ops);
      && Constructions(y.state.trace, t) == Constructions(x.state.trace, t) + 1
      && t in y.state.instances && y.state.instances[t] == o.result.value
      && (Acyclic(Env(y.providers, behave, rank')) ==>
            Resolve(Env(y.providers, behave, rank'), y.state, t) == Outcome(o.result, y.state))
  {
    var e := Env(x.providers, behave, rank);
    var o := Resolve(e, x.state, t);
    ResolveCallsConstructor(e, x.state, t);
    ResolveSingletonStored(e, x.state, t);
    RunKeepsCache(x.(state := o.state), behave, ops);
  }
}

/**
 * The resolution engine as functions of the container's state: `resolve`
 * (cosmo.go:108-144), the parameter loops of `Invoke` (cosmo.go:149-170), the field
 * loop of `Bind` (cosmo.go:176-192) and the lookup of `Get` (cosmo.go:212-224).
 * The methods of `Cosmo.Container` are proved to compute exactly these.
 */
module Resolution {
  import opened Wrappers
  import opened Registry

  /**
   * What a call of a Go function returns: the first output and, for a function with
   * two outputs, the message of the error it returns as the second one (`None` is nil).
   */
  datatype Output = Output(first: Value, second: Option<string>)

  /** The behaviour of user code: the outputs of calling function `id` on `args`. */
  type Behaviour = (nat, seq<Value>) -> Output

  /** A call into user code: a constructor producing `ty`, or a function run by `Invoke`. */
  datatype Event =
    | Constructed(ty: TypeKey, id: nat, args: seq<Value>)
    | Invoked(id: nat, args: seq<Value>)

  /**
   * What resolution reads and does not change: the provider table, the behaviour of the
   * constructors, and a ranking of the provider graph that shows it has no cycle.
   */
  datatype Env = Env(providers: Providers, behave: Behaviour, rank: map<TypeKey, nat>)

  /** What resolution changes: the instance cache, and the calls made into user code so far. */
  datatype State = State(instances: map<TypeKey, Value>, trace: seq<Event>)

  /** The result of resolving one type, and the state afterwards. */
  datatype Outcome = Outcome(result: Result<Value, Error>, state: State)

  /**
   * The result of resolving a list of types in order: the values resolved before the
   * first failure (all of them when there is none), that failure, and the state afterwards.
   */
  datatype Resolutions = Resolutions(values: seq<Value>, failure: Option<Error>, state: State)

  /** The result of `Invoke`: its error (`None` is nil) and the state afterwards. */
  datatype Effect = Effect(err: Option<Error>, state: State)

  /** The result of `Bind`: the error, the fields of the target struct, the state afterwards. */
  datatype Bound = Bound(err: Option<Error>, fields: seq<Option<Value>>, state: State)

  /**
   * The provider graph is acyclic: `rank` ranks every provided type above each of its
   * constructor's parameter types that has a provider. `resolve` has no cycle detection,
   * so on a cyclic graph it may recurse without bound; this is a condition under which it
   * terminates (a cached instance can also cut a cycle).
   */
  ghost predicate Acyclic(e: Env) {
    && e.providers.Keys <= e.rank.Keys
    && forall t, j :: t in e.providers && 0 <= j < |e.providers[t].value.params|
         && e.providers[t].value.params[j] in e.providers
         ==> e.rank[e.providers[t].value.params[j]] < e.rank[t]
  }

  /** The height of `t` in the provider graph; types without a provider are leaves. */
  ghost function Rank(e: Env, t: TypeKey): nat
    requires e.providers.Keys <= e.rank.Keys
  {
    if t in e.providers then e.rank[t] + 1 else 0
  }

  /** Every type of `ts` lies strictly below height `bound`. */
  ghost predicate Below(e: Env, ts: seq<TypeKey>, bound: nat)
    requires e.providers.Keys <= e.rank.Keys
  {
    forall j :: 0 <= j < |ts| ==> Rank(e, ts[j]) < bound
  }

  /** A height above every type of `ts`. */
  ghost function Height(e: Env, ts: seq<TypeKey>): (h: nat)
    requires e.providers.Keys <= e.rank.Keys
    ensures Below(e, ts, h)
  {
    if ts == [] then 0
    else
      var h := Height(e, ts[1..]);
      assert forall j :: 1 <= j < |ts| ==> ts[j] == ts[1..][j - 1];
      if h <= Rank(e, ts[0]) then Rank(e, ts[0]) + 1 else h
  }

  /**
   * `resolve(t)`: a cached instance is returned at once; a type with no provider is an
   * error; otherwise the constructor's parameters are resolved in order, the constructor
   * is called, a non-nil second output is returned as the error, and a singleton's
   * result is cached.
   */
  ghost function Resolve(e: Env, s: State, t: TypeKey): Outcome
    requires Acyclic(e)
    decreases Rank(e, t), 1
  {
    if t in s.instances then Outcome(Success(s.instances[t]), s)
    else if t !in e.providers then Outcome(Failure(NoProvider(t)), s)
    else
      var p := e.providers[t];
      var a := Arguments(e, s, t);
      if a.failure.Some? then Outcome(Failure(a.failure.value), a.state)
      else
        var out := e.behave(p.value.id, a.values);
        var trace := a.state.trace + [Constructed(t, p.value.id, a.values)];
        if |p.value.outs| == 2 && out.second.Some? then
          Outcome(Failure(Raised(out.second.value)), State(a.state.instances, trace))
        else if p.scope == Singleton then
          Outcome(Success(out.first), State(a.state.instances[t := out.first], trace))
        else
          Outcome(Success(out.first), State(a.state.instances, trace))
  }

  /** The resolution of the parameters of `t`'s constructor, in declaration order. */
  ghost function Arguments(e: Env, s: State, t: TypeKey): Resolutions
    requires Acyclic(e) && t in e.providers
    decreases Rank(e, t), 0, |e.providers[t].value.params| + 1
  {
    ResolveEach(e, s, e.providers[t].value.params, 0, [], Rank(e, t))
  }

  /**
   * Resolves `ts[i..]` in order, appending the values to `acc` and stopping at the first
   * error. `bound` only measures termination.
   */
  ghost function ResolveEach(e: Env, s: State, ts: seq<TypeKey>, i: nat, acc: seq<Value>, bound: nat)
    : Resolutions
    requires Acyclic(e) && i <= |ts| && Below(e, ts, bound)
    decreases bound, 0, |ts| - i
  {
    if i == |ts| then Resolutions(acc, None, s)
    else
      var o := Resolve(e, s, ts[i]);
      if o.result.Failure? then Resolutions(acc, Some(o.result.error), o.state)
      else ResolveEach(e, o.state, ts, i + 1, acc + [o.result.value], bound)
  }

  /** All of `ts`, in order. */
  ghost function ResolveAll(e: Env, s: State, ts: seq<TypeKey>): Resolutions
    requires Acyclic(e)
  {
    ResolveEach(e, s, ts, 0, [], Height(e, ts))
  }

  /**
   * `Invoke(fn)`: a non-function is refused; otherwise the parameters are resolved in
   * order and, only when all of them are, `fn` is called once; its outputs are dropped.
   */
  ghost function Invocation(e: Env, s: State, fn: Any): Effect
    requires Acyclic(e)
  {
    if !fn.FuncValue? then Effect(Some(InvokeNotAFunction), s)
    else
      var a := ResolveAll(e, s, fn.fn.params);
      if a.failure.Some? then Effect(a.failure, a.state)
      else Effect(None, State(a.state.instances, a.state.trace + [Invoked(fn.fn.id, a.values)]))
  }

  /** `fields` with its first `|vs|` entries set to the values `vs`. */
  function Assign(fields: seq<Option<Value>>, vs: seq<Value>): (r: seq<Option<Value>>)
    requires |vs| <= |fields|
    ensures |r| == |fields|
    ensures forall j :: 0 <= j < |vs| ==> r[j] == Some(vs[j])
    ensures forall j :: |vs| <= j < |fields| ==> r[j] == fields[j]
  {
    seq(|fields|, j requires 0 <= j < |fields| => if j < |vs| then Some(vs[j]) else fields[j])
  }

  /**
   * `Bind(&target)`: the field types `types` are resolved in order and each resolved value
   * is stored in its field; at the first error the fields already set keep their values.
   */
  ghost function Binding(e: Env, s: State, types: seq<TypeKey>, fields: seq<Option<Value>>): Bound
    requires Acyclic(e) && |fields| == |types|
  {
    var a := ResolveAll(e, s, types);
    ResolveEachLength(e, s, types, 0, [], Height(e, types));
    Bound(a.failure, Assign(fields, a.values), a.state)
  }

  /** Resolving from `i` keeps `acc` in front and adds at most one value per remaining type. */
  lemma {:induction false} ResolveEachLength(e: Env, s: State, ts: seq<TypeKey>, i: nat, acc: seq<Value>, bound: nat)
    requires Acyclic(e) && i <= |ts| && Below(e, ts, bound)
    ensures var a := ResolveEach(e, s, ts, i, acc, bound);
      && |acc| <= |a.values| <= |acc| + |ts| - i
      && a.values[..|acc|] == acc
      && (a.failure.None? <==> |a.values| == |acc| + |ts| - i)
    decreases |ts| - i
  {
    if i < |ts| {
      var o := Resolve(e, s, ts[i]);
      if o.result.Success? {
        ResolveEachLength(e, o.state, ts, i + 1, acc + [o.result.value], bound);
      }
    }
  }

  /**
   * `Get(key)`: nil for an unknown key or a failed resolution, otherwise the value the
   * configured type resolves to, as `any`; a nil interface value becomes nil there.
   */
  ghost function Lookup(e: Env, s: State, C: map<string, TypeKey>, key: string): (Option<Value>, State)
    requires Acyclic(e)
  {
    if key !in C then (None, s)
    else
      var o := Resolve(e, s, C[key]);
      if o.result.Failure? || o.result.value.NilInterface? then (None, o.state)
      else (Some(o.result.value), o.state)
  }
}

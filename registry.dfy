/**
 * The data model of the container (cosmo.go:10-36) and constructor registration:
 * the `spec` check (cosmo.go:86-99), `AddWithScope` on the provider table
 * (cosmo.go:54-65) and the table updates of `Configure` (cosmo.go:196-209).
 * Go reflection is abstracted: a type is a `TypeKey`, a function value is a `Func`
 * that lists its parameter and output types.
 */
module Registry {
  import opened Wrappers

  /** A Go type (`reflect.Type`); two keys are the same type exactly when they are equal. */
  datatype TypeKey = TypeKey(name: string)

  /**
   * An instance produced by a constructor (`reflect.Value`); only its identity matters here.
   * `NilInterface` is a nil value of an interface type, which `Get` hands out as nil.
   */
  datatype Value = Value(id: nat) | NilInterface

  /** `ScopeTransient` and `ScopeSingleton`. */
  datatype Scope = Transient | Singleton

  /** The errors the container returns, plus the error values user code returns. */
  datatype Error =
    | NotAFunction             // "constructor must be a function"
    | BadOutputCount           // "constructor must return T or (T, error)"
    | NoProvider(ty: TypeKey)  // "no provider for type %v", naming the type
    | InvokeNotAFunction       // "invoke expects a function"
    | Raised(message: string)  // a non-nil error returned by a constructor

  /** A Go function value: an identity, its parameter types `In(i)` and output types `Out(i)`. */
  datatype Func = Func(id: nat, params: seq<TypeKey>, outs: seq<TypeKey>)

  /** A value passed as `any`: a function, some other non-nil value of a type, or nil. */
  datatype Any = FuncValue(fn: Func) | OtherValue(ty: TypeKey) | NilValue

  /** The provider descriptor `Spec{Type, Value, Scope}`. */
  datatype Spec = Spec(ty: TypeKey, value: Func, scope: Scope)

  type Providers = map<TypeKey, Spec>

  /** What registration accepts: a function with one or two outputs, the first being `T`. */
  predicate IsConstructor(c: Any) {
    c.FuncValue? && 1 <= |c.fn.outs| <= 2
  }

  /** The type a constructor produces: its first output. */
  function Produced(c: Any): TypeKey
    requires IsConstructor(c)
  {
    c.fn.outs[0]
  }

  /**
   * `spec`: accepts exactly the constructors and yields the produced type with the function;
   * a non-function is refused before its output count is looked at.
   * `reflect.ValueOf(nil).Type()` panics, so nil is not a valid argument.
   */
  function SpecOf(c: Any): (r: Result<(TypeKey, Func), Error>)
    requires !c.NilValue?
    ensures r.Success? <==> IsConstructor(c)
    ensures r.Success? ==> r.value == (Produced(c), c.fn)
    ensures !c.FuncValue? ==> r == Failure(NotAFunction)
    ensures c.FuncValue? && !IsConstructor(c) ==> r == Failure(BadOutputCount)
  {
    if !c.FuncValue? then Failure(NotAFunction)
    else if |c.fn.outs| == 0 || |c.fn.outs| > 2 then Failure(BadOutputCount)
    else Success((c.fn.outs[0], c.fn))
  }

  /**
   * The invariant of the provider table: every entry is keyed by the type its
   * constructor produces, and that constructor passed `spec`.
   */
  ghost predicate WellFormed(P: Providers) {
    forall t :: t in P ==>
      && P[t].ty == t
      && IsConstructor(FuncValue(P[t].value))
      && P[t].value.outs[0] == t
  }

  /**
   * `AddWithScope` on the provider table: on a `spec` error the error is returned and the
   * table is not touched; otherwise the produced type's entry is (over)written with this
   * constructor and scope (last write wins) and every other entry is kept.
   */
  function Register(P: Providers, scope: Scope, c: Any): (r: Result<Providers, Error>)
    requires !c.NilValue?
    ensures r.Failure? <==> !IsConstructor(c)
    ensures r.Failure? ==> r == Failure(SpecOf(c).error)
    ensures r.Success? ==>
      && r.value.Keys == P.Keys + {Produced(c)}
      && r.value[Produced(c)] == Spec(Produced(c), c.fn, scope)
      && (forall k :: k in P && k != Produced(c) ==> r.value[k] == P[k])
    ensures r.Success? && WellFormed(P) ==> WellFormed(r.value)
  {
    match SpecOf(c)
    case Failure(e) => Failure(e)
    case Success((t, f)) => Success(P[t := Spec(t, f, scope)])
  }

  /**
   * The table updates of `Configure(key, ctor)`: on a `spec` error nothing changes;
   * otherwise `ctor` is registered as a singleton and `key` names its produced type.
   * Every configured type keeps a provider, since providers are never removed.
   */
  function Configuration(P: Providers, C: map<string, TypeKey>, key: string, c: Any)
    : (r: Result<(Providers, map<string, TypeKey>), Error>)
    requires !c.NilValue?
    ensures r.Failure? <==> !IsConstructor(c)
    ensures r.Failure? ==> r == Failure(SpecOf(c).error)
    ensures r.Success? ==>
      && r.value.0 == Register(P, Singleton, c).value
      && r.value.1.Keys == C.Keys + {key}
      && r.value.1[key] == Produced(c)
      && (forall k :: k in C && k != key ==> r.value.1[k] == C[k])
    ensures r.Success? && C.Values <= P.Keys ==> r.value.1.Values <= r.value.0.Keys
  {
    match SpecOf(c)
    case Failure(e) => Failure(e)
    case Success((t, _)) =>
      match Register(P, Singleton, c)
      case Failure(e) => Failure(e)
      case Success(P') => Success((P', C[key := t]))
  }
}

/**
 * The scenario of cosmo_test.go:29-70 as a client of `Cosmo.Container`: a singleton `Config`,
 * a transient `DBService` that needs it, an `Invoke` and a `Bind` that both need a
 * `DBService`. Whatever the constructors return, both calls succeed, `DBService` is built
 * once for each, and the singleton's constructor has run exactly once.
 */
module Scenarios {
  import opened Wrappers
  import opened Registry
  import opened Resolution
  import opened ResolutionFacts
  import opened Cosmo

  const ConfigType := TypeKey("Config")
  const DBServiceType := TypeKey("DBService")

  /** `func() Config`, registered as a singleton. */
  const NewConfig := Func(0, [], [ConfigType])
  /** `func(cfg Config) DBService`, registered as transient. */
  const NewDBService := Func(1, [ConfigType], [DBServiceType])
  /** `func(db DBService) { db.Get() }`, run by `Invoke`. */
  const UseDB := Func(2, [DBServiceType], [])

  const TestProviders: Providers := map[
    ConfigType := Spec(ConfigType, NewConfig, Singleton),
    DBServiceType := Spec(DBServiceType, NewDBService, Transient)]

  const TestRank: map<TypeKey, nat> := map[ConfigType := 0, DBServiceType := 1]

  /** The state after `Invoke`: `Config` cached, then `DBService` built, then the function run. */
  ghost function AfterInvoke(behave: Behaviour): State {
    var vc := behave(0, []).first;
    State(map[ConfigType := vc],
          [Constructed(ConfigType, 0, []), Constructed(DBServiceType, 1, [vc]), Invoked(2, [behave(1, [vc]).first])])
  }

  /** The state after `Bind`: one more `DBService`, built from the cached `Config`. */
  ghost function AfterBind(behave: Behaviour): State {
    var s := AfterInvoke(behave);
    State(s.instances, s.trace + [Constructed(DBServiceType, 1, [behave(0, []).first])])
  }

  lemma InvokeStep(behave: Behaviour)
    ensures Acyclic(Env(TestProviders, behave, TestRank))
    ensures Invocation(Env(TestProviders, behave, TestRank), State(map[], []), FuncValue(UseDB))
         == Effect(None, AfterInvoke(behave))
  {
    var e := Env(TestProviders, behave, TestRank);
    var s0 := State(map[], []);
    var vc, vd := behave(0, []).first, behave(1, [behave(0, []).first]).first;
    var sc := State(map[ConfigType := vc], [Constructed(ConfigType, 0, [])]);
    var sd := State(sc.instances, sc.trace + [Constructed(DBServiceType, 1, [vc])]);
    assert [] + [vc] == [vc] && [] + [vd] == [vd];
    assert Arguments(e, s0, ConfigType) == Resolutions([], None, s0);
    assert Resolve(e, s0, ConfigType) == Outcome(Success(vc), sc);
    assert Arguments(e, s0, DBServiceType) == ResolveEach(e, sc, [ConfigType], 1, [vc], Rank(e, DBServiceType));
    assert Resolve(e, s0, DBServiceType) == Outcome(Success(vd), sd);
    assert ResolveAll(e, s0, [DBServiceType]) == ResolveEach(e, sd, [DBServiceType], 1, [vd], Height(e, [DBServiceType]));
  }

  lemma BindStep(behave: Behaviour)
    ensures Acyclic(Env(TestProviders, behave, TestRank))
    ensures Binding(Env(TestProviders, behave, TestRank), AfterInvoke(behave), [DBServiceType], [None])
         == Bound(None, [Some(behave(1, [behave(0, []).first]).first)], AfterBind(behave))
  {
    var e := Env(TestProviders, behave, TestRank);
    var s1 := AfterInvoke(behave);
    var vc, vd := behave(0, []).first, behave(1, [behave(0, []).first]).first;
    var s2 := AfterBind(behave);
    assert [] + [vc] == [vc] && [] + [vd] == [vd];
    assert Resolve(e, s1, ConfigType) == Outcome(Success(vc), s1);
    assert Arguments(e, s1, DBServiceType) == ResolveEach(e, s1, [ConfigType], 1, [vc], Rank(e, DBServiceType));
    assert Resolve(e, s1, DBServiceType) == Outcome(Success(vd), s2);
    assert ResolveAll(e, s1, [DBServiceType]) == ResolveEach(e, s2, [DBServiceType], 1, [vd], Height(e, [DBServiceType]));
  }

  /** The counter of cosmo_test.go: the singleton ran once, the transient once per use. */
  lemma Counts(behave: Behaviour)
    ensures Constructions(AfterBind(behave).trace, ConfigType) == 1
    ensures Constructions(AfterBind(behave).trace, DBServiceType) == 2
  {
    var vc, vd := behave(0, []).first, behave(1, [behave(0, []).first]).first;
    var a, b, c, d := Constructed(ConfigType, 0, []), Constructed(DBServiceType, 1, [vc]),
                      Invoked(2, [vd]), Constructed(DBServiceType, 1, [vc]);
    assert AfterBind(behave).trace == [a, b, c, d];
    forall u | u == ConfigType || u == DBServiceType
      ensures Constructions([a, b, c, d], u)
           == (if u == ConfigType then 1 else 0) + (if u == DBServiceType then 2 else 0)
    {
      var p := ConstructionOf(u);
      CountSnoc([], a, p);
      assert [] + [a] == [a];
      CountSnoc([a], b, p);
      assert [a] + [b] == [a, b];
      CountSnoc([a, b], c, p);
      assert [a, b] + [c] == [a, b, c];
      CountSnoc([a, b, c], d, p);
      assert [a, b, c] + [d] == [a, b, c, d];
      assert Count([], p) == 0;
      assert p(a) == (u == ConfigType) && p(b) == (u == DBServiceType) && !p(c) && p(d) == p(b);
    }
  }

  /**
   * `TestContainer`: every call returns nil, the bound field is set, and the singleton
   * constructor's call counter is 1 (the transient one ran once per use).
   */
  method TestContainer(behave: Behaviour) returns (errs: seq<Option<Error>>, bound: Option<Value>, c: Container)
    ensures errs == [None, None, None, None] && bound.Some?
    ensures Constructions(c.trace, ConfigType) == 1 && Constructions(c.trace, DBServiceType) == 2
  {
    c := new Container();
    var e1 := c.AddSingleton(FuncValue(NewConfig));
    var e2 := c.Add(FuncValue(NewDBService));
    assert c.providers == TestProviders;
    InvokeStep(behave);
    BindStep(behave);
    var e3 := c.Invoke(FuncValue(UseDB), behave, TestRank);
    var target := new Option<Value>[1](_ => None);
    assert target[..] == [None];
    var e4 := c.Bind([DBServiceType], target, behave, TestRank);
    Counts(behave);
    errs, bound := [e1, e2, e3, e4], target[0];
  }
}

/**
 * `ScoringStrategyFactory` and `ScoringContext`: a registry of strategy classes by
 * name (a Python dict, so names keep their insertion order), a cache of one instance
 * per name, and a context that resolves its strategy lazily.
 *
 * The factory's class-level dicts are the `Factory` value threaded through every
 * operation. A strategy object is represented by its class and a serial number that
 * tells apart objects created separately.
 */
module ScoringFactory {
  import opened Wrappers

  datatype StrategyClass = EmbeddingStrategy | LlmStrategy | OtherStrategy(className: string)

  datatype Instance = Instance(cls: StrategyClass, serial: nat)

  datatype Factory = Factory(
    names: seq<string>,
    classes: map<string, StrategyClass>,
    instances: map<string, Instance>,
    created: nat)

  const UnknownPrefix := "Unknown scoring strategy: "

  predicate Distinct(names: seq<string>)
  {
    forall i, j | 0 <= i < j < |names| :: names[i] != names[j]
  }

  /** The registry's order lists each registered name once, and every cached object predates the counter. */
  ghost predicate Valid(f: Factory)
  {
    && Distinct(f.names)
    && (forall n :: n in f.classes <==> n in f.names)
    && (forall n | n in f.instances :: f.instances[n].serial < f.created)
  }

  const Empty := Factory([], map[], map[], 0)

  /** `names` without `n`, the rest in order. */
  function Remove(names: seq<string>, n: string): (r: seq<string>)
    ensures forall m :: m in r <==> m in names && m != n
  {
    if |names| == 0 then []
    else if names[0] == n then Remove(names[1..], n)
    else [names[0]] + Remove(names[1..], n)
  }

  /** Removal keeps the order of the other names: it works name by name along the list. */
  lemma {:induction false} RemoveAppend(a: seq<string>, b: seq<string>, n: string)
    ensures Remove(a + b, n) == Remove(a, n) + Remove(b, n)
    decreases |a|
  {
    if |a| == 0 {
      assert a + b == b;
    } else {
      assert (a + b)[1..] == a[1..] + b;
      assert (a + b)[0] == a[0];
      RemoveAppend(a[1..], b, n);
    }
  }

  lemma {:induction false} RemoveKeepsDistinct(names: seq<string>, n: string)
    requires Distinct(names)
    ensures Distinct(Remove(names, n))
    decreases |names|
  {
    if |names| > 0 {
      assert Distinct(names[1..]) by {
        forall i, j | 0 <= i < j < |names| - 1 ensures names[1..][i] != names[1..][j] {
          assert names[1..][i] == names[i + 1] && names[1..][j] == names[j + 1];
        }
      }
      RemoveKeepsDistinct(names[1..], n);
      if names[0] != n {
        var rest := Remove(names[1..], n);
        var r := [names[0]] + rest;
        assert names[0] !in names[1..] by {
          forall k | 0 <= k < |names| - 1 ensures names[1..][k] != names[0] {
            assert names[1..][k] == names[k + 1];
          }
        }
        assert names[0] !in rest;
        forall i, j | 0 <= i < j < |r|
          ensures r[i] != r[j]
        {
          assert r[j] == rest[j - 1];
          if i == 0 {
            assert rest[j - 1] in rest;
          } else {
            assert r[i] == rest[i - 1];
          }
        }
      }
    }
  }

  /** `register_strategy`: a new name goes last, a known one keeps its place and gets the new class. */
  function Register(f: Factory, name: string, cls: StrategyClass): (g: Factory)
    ensures g.classes == f.classes[name := cls]
    ensures g.instances == f.instances && g.created == f.created
  {
    f.(names := if name in f.classes then f.names else f.names + [name],
       classes := f.classes[name := cls])
  }

  /** `unregister_strategy`: forgets the class of a registered name; the cached object stays. */
  function Unregister(f: Factory, name: string): (g: Factory)
    ensures name !in g.classes
    ensures g.instances == f.instances && g.created == f.created
  {
    if name in f.classes then f.(names := Remove(f.names, name), classes := f.classes - {name})
    else f
  }

  /** `list_strategies`. */
  function ListStrategies(f: Factory): seq<string>
  {
    f.names
  }

  /** `create_strategy`: a new object of the registered class, or `ValueError`. */
  function Create(f: Factory, name: string): (r: Result<(Factory, Instance), string>)
    ensures r.Err? <==> name !in f.classes
    ensures r.Err? ==> r.error == UnknownPrefix + name
    ensures r.Ok? ==> var (g, inst) := r.value;
      && inst.cls == f.classes[name] && inst.serial == f.created
      && g == f.(created := f.created + 1)
  {
    if name !in f.classes then Err(UnknownPrefix + name)
    else Ok((f.(created := f.created + 1), Instance(f.classes[name], f.created)))
  }

  /** `get_strategy`: the cached object for the name, created and cached on first use. */
  function Get(f: Factory, name: string): (r: Result<(Factory, Instance), string>)
    ensures name in f.instances ==> r == Ok((f, f.instances[name]))
    ensures name !in f.instances ==> (r.Err? <==> name !in f.classes)
    ensures r.Ok? ==> name in r.value.0.instances && r.value.0.instances[name] == r.value.1
  {
    if name in f.instances then Ok((f, f.instances[name]))
    else
      match Create(f, name)
      case Err(e) => Err(e)
      case Ok((g, inst)) => Ok((g.(instances := g.instances[name := inst]), inst))
  }

  /** `clear_instances`. */
  function ClearInstances(f: Factory): (g: Factory)
    ensures g.instances == map[]
    ensures g.names == f.names && g.classes == f.classes && g.created == f.created
  {
    f.(instances := map[])
  }

  /** The module-level registrations. */
  function Initial(): (f: Factory)
    ensures Valid(f)
  {
    Register(Register(Empty, "embedding", EmbeddingStrategy), "llm", LlmStrategy)
  }

  /** Out of the box the two strategies are listed, embedding first, and nothing is cached. */
  lemma DefaultsRegistered()
    ensures ListStrategies(Initial()) == ["embedding", "llm"]
    ensures Initial().classes == map["embedding" := EmbeddingStrategy, "llm" := LlmStrategy]
    ensures Initial().instances == map[]
  {
  }

  /** Registering lists the name, replaces its class in place when known, and keeps the registry well-formed. */
  lemma {:induction false} RegisterSpec(f: Factory, name: string, cls: StrategyClass)
    requires Valid(f)
    ensures var g := Register(f, name, cls);
      && Valid(g)
      && name in ListStrategies(g)
      && (name in f.classes ==> ListStrategies(g) == ListStrategies(f))
      && (name !in f.classes ==> ListStrategies(g) == ListStrategies(f) + [name])
  {
    var g := Register(f, name, cls);
    if name !in f.classes {
      forall i, j | 0 <= i < j < |g.names|
        ensures g.names[i] != g.names[j]
      {
        if j == |f.names| {
          assert g.names[i] == f.names[i];
          assert f.names[i] in f.names;
        }
      }
    }
  }

  /** Unregistering an unknown name changes nothing; a known one drops out of the list, everything else kept. */
  lemma UnregisterSpec(f: Factory, name: string)
    requires Valid(f)
    ensures var g := Unregister(f, name);
      && Valid(g)
      && (name !in f.classes ==> g == f)
      && name !in ListStrategies(g)
      && (forall m :: m in ListStrategies(g) <==> m in ListStrategies(f) && m != name)
      && (forall m | m in g.classes :: g.classes[m] == f.classes[m])
  {
    if name in f.classes {
      RemoveKeepsDistinct(f.names, name);
    }
  }

  /** A created object is never one already cached. */
  lemma CreateIsFresh(f: Factory, name: string)
    requires Valid(f) && name in f.classes
    ensures var (g, inst) := Create(f, name).value;
      && Valid(g)
      && forall m | m in f.instances :: f.instances[m] != inst
  {
  }

  /** A second `get_strategy` for the same name returns the same object and changes nothing. */
  lemma GetIsCached(f: Factory, name: string)
    requires Valid(f)
    requires Get(f, name).Ok?
    ensures var (g, inst) := Get(f, name).value;
      && Valid(g)
      && Get(g, name) == Ok((g, inst))
  {
  }

  /** Unregistering does not evict: the cached object is still handed out for that name. */
  lemma UnregisterKeepsCachedInstance(f: Factory, name: string)
    requires name in f.instances
    ensures Get(Unregister(f, name), name) == Ok((Unregister(f, name), f.instances[name]))
    ensures Create(Unregister(f, name), name).Err?
  {
  }

  /** After `clear_instances`, `get_strategy` builds a new object unlike any handed out before. */
  lemma ClearGivesNewInstance(f: Factory, name: string)
    requires Valid(f) && name in f.classes
    ensures var r := Get(ClearInstances(f), name);
      && r.Ok?
      && (forall m | m in f.instances :: f.instances[m] != r.value.1)
  {
  }

  /** `ScoringContext`: the configured name and the strategy resolved so far. */
  datatype Context = Context(strategyName: string, strategy: Option<Instance>)

  const DefaultStrategyName := "embedding"

  /** `ScoringContext(strategy_name='embedding')`. */
  function NewContext(strategyName: string := DefaultStrategyName): (c: Context)
    ensures c.strategyName == strategyName && c.strategy.None?
  {
    Context(strategyName, None)
  }

  /** `set_strategy`: a new name, and the resolved strategy is dropped. */
  function SetStrategy(c: Context, strategyName: string): (d: Context)
    ensures d.strategyName == strategyName && d.strategy.None?
  {
    Context(strategyName, None)
  }

  /** `ScoringContext.get_strategy`: the resolved strategy, or the factory's object for the name. */
  function ContextStrategy(c: Context, f: Factory): (r: Result<(Context, Factory, Instance), string>)
    ensures c.strategy.Some? ==> r == Ok((c, f, c.strategy.value))
    ensures r.Ok? ==> r.value.0 == c.(strategy := Some(r.value.2))
  {
    match c.strategy
    case Some(s) => Ok((c, f, s))
    case None =>
      match Get(f, c.strategyName)
      case Err(e) => Err(e)
      case Ok((g, inst)) => Ok((c.(strategy := Some(inst)), g, inst))
  }

  /** `get_method_name`: the configured name, whatever the strategy calls itself. */
  function ContextMethodName(c: Context): string
  {
    c.strategyName
  }

  /** `create_scorer(strategy_name='embedding', **kwargs)`: keyword arguments are accepted and dropped. */
  function CreateScorer<K>(kwargs: K, strategyName: string := DefaultStrategyName): (c: Context)
    ensures c == NewContext(strategyName)
  {
    Context(strategyName, None)
  }

  /** Without a name, a context and `create_scorer` both use the embedding strategy, which is registered. */
  lemma ContextDefaults()
    ensures ContextMethodName(NewContext()) == "embedding"
    ensures ContextMethodName(CreateScorer(0)) == "embedding"
    ensures DefaultStrategyName in ListStrategies(Initial())
  {
  }

  /**
   * A context resolves its strategy through the factory's cache once and keeps it;
   * switching drops it, so the next resolution goes to the factory for the new name,
   * and the method name always reports the configured name.
   */
  lemma ContextSpec(c: Context, f: Factory, name: string)
    requires Valid(f)
    ensures ContextMethodName(SetStrategy(c, name)) == name
    ensures ContextMethodName(CreateScorer(0, name)) == name
    ensures ContextStrategy(SetStrategy(c, name), f).Ok? <==> Get(f, name).Ok?
    ensures Get(f, name).Ok? ==> ContextStrategy(SetStrategy(c, name), f).value.2 == Get(f, name).value.1
    ensures ContextStrategy(c, f).Ok? ==>
      var (c', f', inst) := ContextStrategy(c, f).value;
      ContextStrategy(c', f') == Ok((c', f', inst))
  {
  }
}

/** The type subsystem: type descriptors wrapped into types, registration that
    checks a declared base once, and the `types` namespace of an environment. */
module TypeManager {
  import opened Values
  import opened Endpoints

  /** What a plugin lists under `types`: a suggestion function, an array of
      options, or an object that may carry its own `suggest` and a `base`. */
  datatype TypeDescriptor =
    | FnDesc(fn: nat)
    | ArrayDesc(items: seq<Value>)
    | ObjDesc(suggest: Option<nat>, base: Option<string>, fields: Entries<Value>)

  /** Where a type's suggestions come from: its own function, or `grep` over the descriptor. */
  datatype Suggester = Custom(fn: nat) | Grep(source: TypeDescriptor)

  /** A registered type: its name, its suggestion source and the base it kept. */
  datatype Type = Type(name: string, suggest: Suggester, base: Option<string>)

  /** Evaluating a suggester on an input: the candidates it returns, in order.
      Both the plugin's own functions and `grep` are outside the model. */
  type Oracle = (Suggester, string) -> seq<Value>

  /** The base a descriptor declares, when it is a non-empty name. */
  function BaseOf(d: TypeDescriptor): (b: Option<string>)
    ensures b.Some? ==> d.ObjDesc? && d.base == b && b.value != ""
    ensures d.ObjDesc? && d.base.Some? && d.base.value != "" ==> b == d.base
  {
    if d.ObjDesc? && d.base.Some? && d.base.value != "" then d.base else None
  }

  /** `Type(options)`: a function becomes the type's `suggest`; an array, or an
      object without `suggest`, is searched by `grep`; an object with its own
      `suggest` is kept whole, including its `base`. The type is named by the key. */
  function MakeType(name: string, d: TypeDescriptor): (t: Type)
    ensures t.name == name
    ensures t.suggest.Custom? <==> d.FnDesc? || (d.ObjDesc? && d.suggest.Some?)
    ensures t.suggest.Grep? ==> t.suggest.source == d
    ensures t.base.Some? ==> d.ObjDesc? && d.suggest.Some? && t.base == d.base
    ensures d.ObjDesc? && d.suggest.Some? ==> t.base == d.base
  {
    match d
    case FnDesc(fn) => Type(name, Custom(fn), None)
    case ArrayDesc(_) => Type(name, Grep(d), None)
    case ObjDesc(suggest, base, _) =>
      if suggest.Some? then Type(name, Custom(suggest.value), base) else Type(name, Grep(d), None)
  }

  /** The `TypeError` message for an input that does not resolve. */
  function InvalidValue(input: string, typeName: string): (m: string)
    ensures |m| == 16 + |input| + 12 + |typeName| + 2
    ensures m[..16] == "Invalid value: `" && m[16..16 + |input|] == input
    ensures m[16 + |input| + 12..|m| - 2] == typeName
  {
    "Invalid value: `" + input + "` for type `" + typeName + "`."
  }

  /** `valueOf(input)`: the one suggestion, or the error when there are none or several. */
  function ValueOf(t: Type, input: string, run: Oracle): (r: Result<Value, string>)
    ensures r.Ok? <==> |run(t.suggest, input)| == 1
    ensures r.Ok? ==> r.value == run(t.suggest, input)[0]
    ensures r.Err? ==> r.error == InvalidValue(input, t.name)
  {
    var candidates := run(t.suggest, input);
    if |candidates| != 1 then Err(InvalidValue(input, t.name)) else Ok(candidates[0])
  }

  /** `getDefault`, as written: its body computes the first suggestion and drops it. */
  function GetDefaultAsWritten(t: Type, input: string, run: Oracle): (v: Value)
    ensures v == Undefined
  {
    var _ := run(t.suggest, input);
    Undefined
  }

  /** `getDefault` as documented: the first suggestion, undefined when there is none. */
  function GetDefault(t: Type, input: string, run: Oracle): (v: Value)
    ensures |run(t.suggest, input)| > 0 ==> v == run(t.suggest, input)[0]
    ensures |run(t.suggest, input)| == 0 ==> v == Undefined
  {
    var candidates := run(t.suggest, input);
    if |candidates| > 0 then candidates[0] else Undefined
  }

  /** Whenever an input resolves, the default agrees with the resolved value. */
  lemma DefaultAgreesWithValueOf(t: Type, input: string, run: Oracle)
    requires ValueOf(t, input, run).Ok?
    ensures GetDefault(t, input, run) == ValueOf(t, input, run).value
  {
  }

  /** The missing `return`: a type whose first suggestion is a real value gets
      undefined from `getDefault`. */
  lemma GetDefaultDropsSuggestion(t: Type, input: string, run: Oracle)
    requires |run(t.suggest, input)| > 0 && run(t.suggest, input)[0] != Undefined
    ensures GetDefaultAsWritten(t, input, run) != GetDefault(t, input, run)
  {
  }

  /** `increment`: no type has a notion of a next value. */
  function Increment(t: Type, v: Value): (r: Value)
    ensures r == Undefined
  {
    Undefined
  }

  /** `decrement`: no type has a notion of a previous value. */
  function Decrement(t: Type, v: Value): (r: Value)
    ensures r == Undefined
  {
    Undefined
  }

  /** The `types.enabled` and `types.disabled` maps as values. */
  datatype Types = Types(enabled: map<string, Type>, disabled: map<string, Type>)

  ghost predicate Keyed(ts: Types) {
    (forall n :: n in ts.enabled ==> ts.enabled[n].name == n) &&
    (forall n :: n in ts.disabled ==> ts.disabled[n].name == n)
  }

  /** `getType(env, name, enabled)`: `true` looks in `enabled`, `false` in
      `disabled`, anything else in `enabled` and then `disabled`. */
  function GetType(ts: Types, name: string, selector: Value): (r: Option<Type>)
    ensures selector == Bool(true) ==> (r.Some? <==> name in ts.enabled)
    ensures selector == Bool(false) ==> (r.Some? <==> name in ts.disabled)
    ensures selector != Bool(true) && selector != Bool(false) ==> (r.Some? <==> name in ts.enabled || name in ts.disabled)
    ensures r.Some? && name in ts.enabled && selector != Bool(false) ==> r.value == ts.enabled[name]
    ensures r.Some? && name !in ts.enabled ==> r.value == ts.disabled[name]
    ensures selector == Bool(false) && r.Some? ==> r.value == ts.disabled[name]
  {
    if selector == Bool(true) then
      if name in ts.enabled then Some(ts.enabled[name]) else None
    else if selector == Bool(false) then
      if name in ts.disabled then Some(ts.disabled[name]) else None
    else if name in ts.enabled then Some(ts.enabled[name])
    else if name in ts.disabled then Some(ts.disabled[name])
    else None
  }

  /** The two signals `register` emits. */
  datatype Signal = Installed(t: Type) | Failure(descriptor: TypeDescriptor, reason: string)

  /** `type:install` listener: enables the type under its name and clears any disabled entry. */
  function InstallType(ts: Types, t: Type): (r: Types)
    ensures t.name in r.enabled && r.enabled[t.name] == t && t.name !in r.disabled
    ensures r.enabled.Keys == ts.enabled.Keys + {t.name}
    ensures r.disabled.Keys == ts.disabled.Keys - {t.name}
  {
    Types(ts.enabled[t.name := t], ts.disabled - {t.name})
  }

  /** `register(env, descriptor, name)`: installs the wrapped type when the
      descriptor declares no base or its base is already enabled; otherwise signals
      `type:failure`, which no listener of the kernel handles, so nothing changes. */
  function Register(ts: Types, d: TypeDescriptor, name: string): (r: (Types, Signal))
    ensures r.1.Installed? <==> BaseOf(d).None? || BaseOf(d).value in ts.enabled
    ensures r.1.Installed? ==> r.1.t == MakeType(name, d) && r.0 == InstallType(ts, r.1.t)
    ensures r.1.Failure? ==> r.0 == ts && r.1.reason == "base type is not registered"
    ensures r.0.enabled.Keys == ts.enabled.Keys + (if r.1.Installed? then {name} else {})
  {
    var base := BaseOf(d);
    if base.None? || base.value in ts.enabled then
      var t := MakeType(name, d);
      (InstallType(ts, t), Installed(t))
    else (ts, Failure(d, "base type is not registered"))
  }

  /** Registration files the type under the name it was registered with. */
  lemma RegisterKeyed(ts: Types, d: TypeDescriptor, name: string)
    requires Keyed(ts)
    ensures Keyed(Register(ts, d, name).0)
  {
  }

  /** A registered type is found by `getType` among the enabled types and no longer
      among the disabled ones. */
  lemma RegisteredIsEnabled(ts: Types, d: TypeDescriptor, name: string)
    requires Register(ts, d, name).1.Installed?
    ensures GetType(Register(ts, d, name).0, name, Bool(true)) == Some(MakeType(name, d))
    ensures GetType(Register(ts, d, name).0, name, Undefined) == Some(MakeType(name, d))
    ensures GetType(Register(ts, d, name).0, name, Bool(false)) == None
  {
  }

  /** `setType` command: resolves the value with the enabled type of that name;
      with no such type the value is left as it was. */
  function SetTypeCommand(ts: Types, name: string, value: string, run: Oracle): (r: Result<Value, string>)
    ensures name !in ts.enabled ==> r == Ok(Str(value))
    ensures name in ts.enabled ==> r == ValueOf(ts.enabled[name], value, run)
  {
    if name in ts.enabled then ValueOf(ts.enabled[name], value, run) else Ok(Str(value))
  }

  /** The type `plugin:startup` listener: `register` for each key in order. */
  function RegisterAll(ts: Types, es: Entries<TypeDescriptor>): (r: (Types, seq<Signal>))
    ensures |r.1| == |es|
    decreases |es|
  {
    if es == [] then (ts, [])
    else
      var (p, signals) := RegisterAll(ts, es[..|es| - 1]);
      var e := es[|es| - 1];
      var (q, s) := Register(p, e.1, e.0);
      (q, signals + [s])
  }

  lemma {:induction false} RegisterAllKeyed(ts: Types, es: Entries<TypeDescriptor>)
    requires Keyed(ts)
    ensures Keyed(RegisterAll(ts, es).0)
    decreases |es|
  {
    if es != [] {
      RegisterAllKeyed(ts, es[..|es| - 1]);
      RegisterKeyed(RegisterAll(ts, es[..|es| - 1]).0, es[|es| - 1].1, es[|es| - 1].0);
    }
  }

  /** One step of the walk adds at most the key it registers. */
  lemma RegisterAllStep(ts: Types, es: Entries<TypeDescriptor>, i: nat)
    requires i < |es|
    ensures RegisterAll(ts, es[..i]).0.enabled.Keys <= RegisterAll(ts, es[..i + 1]).0.enabled.Keys
    ensures RegisterAll(ts, es[..i + 1]).0.enabled.Keys <= RegisterAll(ts, es[..i]).0.enabled.Keys + {es[i].0}
  {
    RegisterAllAt(ts, es, i);
  }

  /** An enabled name stays enabled for the rest of the walk. */
  lemma {:induction false} RegisterAllKeeps(ts: Types, es: Entries<TypeDescriptor>, a: nat, b: nat, n: string)
    requires a <= b <= |es|
    requires n in RegisterAll(ts, es[..a]).0.enabled
    ensures n in RegisterAll(ts, es[..b]).0.enabled
    decreases b
  {
    if a < b {
      RegisterAllKeeps(ts, es, a, b - 1, n);
      RegisterAllStep(ts, es, b - 1);
    }
  }

  /** A name that no key walked in between mentions is not enabled by the walk. */
  lemma {:induction false} RegisterAllAvoids(ts: Types, es: Entries<TypeDescriptor>, a: nat, b: nat, n: string)
    requires a <= b <= |es|
    requires n !in RegisterAll(ts, es[..a]).0.enabled
    requires forall k :: a <= k < b ==> es[k].0 != n
    ensures n !in RegisterAll(ts, es[..b]).0.enabled
    decreases b
  {
    if a < b {
      RegisterAllAvoids(ts, es, a, b - 1, n);
      RegisterAllStep(ts, es, b - 1);
    }
  }

  /** Step `i` of the walk registers entry `i` on the state the earlier steps left. */
  lemma RegisterAllAt(ts: Types, es: Entries<TypeDescriptor>, i: nat)
    requires i < |es|
    ensures RegisterAll(ts, es[..i + 1]).0 == Register(RegisterAll(ts, es[..i]).0, es[i].1, es[i].0).0
  {
    assert es[..i + 1][..i] == es[..i];
  }

  /** A type whose base comes earlier in the same endpoint (and itself installs) is
      installed. */
  lemma BaseFirstInstalls(ts: Types, es: Entries<TypeDescriptor>, j: nat, i: nat)
    requires j < i < |es|
    requires BaseOf(es[j].1).None? || BaseOf(es[j].1).value in ts.enabled
    requires BaseOf(es[i].1) == Some(es[j].0)
    ensures es[i].0 in RegisterAll(ts, es).0.enabled
  {
    assert es[..0] == [];
    if BaseOf(es[j].1).Some? {
      RegisterAllKeeps(ts, es, 0, j, BaseOf(es[j].1).value);
    }
    RegisterAllAt(ts, es, j);
    RegisterAllKeeps(ts, es, j + 1, i, es[j].0);
    RegisterAllAt(ts, es, i);
    RegisterAllKeeps(ts, es, i + 1, |es|, es[i].0);
    assert es[..|es|] == es;
  }

  /** Registration is one-shot: a type whose base is not yet enabled when it is
      reached stays unregistered, even if the base is registered later in the walk. */
  lemma DerivedFirstFails(ts: Types, es: Entries<TypeDescriptor>, i: nat)
    requires i < |es| && DistinctKeys(es)
    requires es[i].0 !in ts.enabled
    requires BaseOf(es[i].1).Some? && BaseOf(es[i].1).value !in ts.enabled
    requires forall k :: 0 <= k < i ==> es[k].0 != BaseOf(es[i].1).value
    ensures es[i].0 !in RegisterAll(ts, es).0.enabled
  {
    assert es[..0] == [];
    RegisterAllAvoids(ts, es, 0, i, BaseOf(es[i].1).value);
    RegisterAllAvoids(ts, es, 0, i, es[i].0);
    RegisterAllAt(ts, es, i);
    RegisterAllAvoids(ts, es, i + 1, |es|, es[i].0);
    assert es[..|es|] == es;
  }

  /** The `plugin:startup` replay in `startup`: every plugin's `types` endpoint in order. */
  function RegisterPlugins(ts: Types, plugins: seq<Option<Entries<TypeDescriptor>>>): (r: (Types, seq<Signal>))
    decreases |plugins|
  {
    if plugins == [] then (ts, [])
    else
      var (p, signals) := RegisterPlugins(ts, plugins[..|plugins| - 1]);
      var last := plugins[|plugins| - 1];
      if last.None? then (p, signals)
      else
        var (q, more) := RegisterAll(p, last.value);
        (q, signals + more)
  }

  /** Replaying every plugin keeps each type filed under its own name, and emits one
      signal per listed type. */
  lemma {:induction false} RegisterPluginsKeyed(ts: Types, plugins: seq<Option<Entries<TypeDescriptor>>>)
    requires Keyed(ts)
    ensures Keyed(RegisterPlugins(ts, plugins).0)
    ensures |RegisterPlugins(ts, plugins).1| == Listed(plugins)
    decreases |plugins|
  {
    if plugins != [] {
      var init := plugins[..|plugins| - 1];
      RegisterPluginsKeyed(ts, init);
      var last := plugins[|plugins| - 1];
      if last.Some? {
        RegisterAllKeyed(RegisterPlugins(ts, init).0, last.value);
      }
    }
  }

  /** How many types a sequence of plugins lists in all. */
  function Listed(plugins: seq<Option<Entries<TypeDescriptor>>>): nat
    decreases |plugins|
  {
    if plugins == [] then 0
    else
      var last := plugins[|plugins| - 1];
      Listed(plugins[..|plugins| - 1]) + (if last.Some? then |last.value| else 0)
  }

  /** The `types` namespace of an environment and the type listeners. */
  class TypeManager {
    /** Whether `env.types` exists. */
    var present: bool
    var enabled: map<string, Type>
    var disabled: map<string, Type>
    /** Created empty by `install` and never written. */
    var installed: map<string, Type>
    /** Signals emitted by `register`, in order. */
    var signals: seq<Signal>

    function View(): Types
      reads this
    {
      Types(enabled, disabled)
    }

    /** Every type is filed under its name, and (since nothing handles `type:failure`)
        nothing is ever disabled. */
    ghost predicate Valid()
      reads this
    {
      (!present ==> enabled == map[]) && disabled == map[] && installed == map[] && Keyed(View())
    }

    constructor ()
      ensures Valid() && !present && signals == []
    {
      present := false;
      enabled, disabled, installed := map[], map[], map[];
      signals := [];
    }

    /** `install`: `env.types = {enabled: {}, disabled: {}, installed: {}}`. */
    method Install()
      modifies this
      ensures Valid() && present && enabled == map[] && signals == old(signals)
    {
      present := true;
      enabled, disabled, installed := map[], map[], map[];
    }

    /** `uninstall`: removes `env.types`. */
    method Uninstall()
      modifies this
      ensures Valid() && !present && signals == old(signals)
    {
      present := false;
      enabled, disabled, installed := map[], map[], map[];
    }

    /** Listener for `type:install`. */
    method OnTypeInstall(t: Type)
      requires present
      modifies this
      ensures present && installed == old(installed) && signals == old(signals)
      ensures View() == InstallType(old(View()), t)
    {
      enabled := enabled[t.name := t];
      disabled := disabled - {t.name};
    }

    /** `register`: emits `type:install` (handled here) or `type:failure` (not handled). */
    method RegisterType(d: TypeDescriptor, name: string) returns (s: Signal)
      requires Valid() && present
      modifies this
      ensures Valid() && present
      ensures (View(), s) == Register(old(View()), d, name)
      ensures signals == old(signals) + [s]
    {
      RegisterKeyed(View(), d, name);
      var base := BaseOf(d);
      if base.None? || base.value in enabled {
        var t := MakeType(name, d);
        OnTypeInstall(t);
        s := Installed(t);
      } else {
        s := Failure(d, "base type is not registered");
      }
      signals := signals + [s];
    }

    /** The `plugin:startup` listener: registers every entry of the plugin's `types`. */
    method OnPluginStartup(types: Option<Entries<TypeDescriptor>>)
      requires Valid() && present
      modifies this
      ensures Valid() && present
      ensures types.None? ==> View() == old(View()) && signals == old(signals)
      ensures types.Some? ==> View() == RegisterAll(old(View()), types.value).0
      ensures types.Some? ==> signals == old(signals) + RegisterAll(old(View()), types.value).1
    {
      if types.Some? {
        var es := types.value;
        var i := 0;
        while i < |es|
          invariant 0 <= i <= |es|
          invariant Valid() && present
          invariant View() == RegisterAll(old(View()), es[..i]).0
          invariant signals == old(signals) + RegisterAll(old(View()), es[..i]).1
        {
          assert es[..i + 1][..i] == es[..i];
          var _ := RegisterType(es[i].1, es[i].0);
          i := i + 1;
        }
        assert es[..i] == es;
      }
    }

    /** The `plugin:shutdown` listener as written calls an `unregister` that does
        not exist: it fails as soon as the plugin lists a type, and changes nothing. */
    method OnPluginShutdown(types: Option<Entries<TypeDescriptor>>) returns (ok: bool)
      ensures ok <==> types.None? || types.value == []
    {
      ok := types.None? || types.value == [];
    }

    /** `startup`: replays `plugin:startup` for every plugin already present. */
    method Startup(plugins: seq<Option<Entries<TypeDescriptor>>>)
      requires Valid() && present
      modifies this
      ensures Valid() && present
      ensures View() == RegisterPlugins(old(View()), plugins).0
      ensures signals == old(signals) + RegisterPlugins(old(View()), plugins).1
    {
      var i := 0;
      while i < |plugins|
        invariant 0 <= i <= |plugins|
        invariant Valid() && present
        invariant View() == RegisterPlugins(old(View()), plugins[..i]).0
        invariant signals == old(signals) + RegisterPlugins(old(View()), plugins[..i]).1
      {
        assert plugins[..i + 1][..i] == plugins[..i];
        OnPluginStartup(plugins[i]);
        i := i + 1;
      }
      assert plugins[..i] == plugins;
    }

    /** `shutdown` as written calls an undefined `type:uninstall` export for each
        enabled type: it fails unless no type is enabled, and changes nothing. */
    method Shutdown() returns (ok: bool)
      requires Valid() && present
      ensures ok <==> enabled == map[]
    {
      ok := enabled == map[];
    }
  }
}

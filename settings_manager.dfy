/** Settings: named values stored on an environment under `"setting:" + name`,
    with a default to reset to, and the `settings` namespace that records which
    settings the plugins have installed. */
module SettingsManager {
  import opened Values
  import opened Endpoints
  import opened Env

  /** What a plugin lists under `settings`. */
  datatype SettingDescriptor = SettingDescriptor(kind: Value, defaultValue: Value)

  /** A wrapped setting (`TSetting`): its name, the name of its type, its default. */
  datatype Setting = Setting(name: string, kind: Value, defaultValue: Value)

  /** `Setting(descriptor, name)`: named by the key, and a falsy default becomes null. */
  function MakeSetting(d: SettingDescriptor, name: string): (s: Setting)
    ensures s.name == name && s.kind == d.kind
    ensures Truthy(d.defaultValue) ==> s.defaultValue == d.defaultValue
    ensures !Truthy(d.defaultValue) ==> s.defaultValue == Null
  {
    Setting(name, d.kind, if Truthy(d.defaultValue) then d.defaultValue else Null)
  }

  /** The descriptor a wrapped setting unwraps to when it is passed to `Setting` again. */
  function Unwrap(s: Setting): SettingDescriptor {
    SettingDescriptor(s.kind, s.defaultValue)
  }

  /** Wrapping an already wrapped setting under another name renames it and keeps
      its type and default. */
  lemma RewrapRenames(d: SettingDescriptor, name: string, other: string)
    ensures MakeSetting(Unwrap(MakeSetting(d, name)), other) == MakeSetting(d, other)
  {
  }

  /** The environment key a setting's value lives under. */
  function Key(name: string): (k: string)
    ensures |k| == |name| + 8 && k[..8] == "setting:" && k[8..] == name
  {
    "setting:" + name
  }

  /** Different settings use different keys. */
  lemma KeyInjective(a: string, b: string)
    requires Key(a) == Key(b)
    ensures a == b
  {
    assert a == Key(a)[8..];
  }

  /** No setting key collides with a name reserved by the environment. */
  lemma KeyNotReserved(name: string)
    ensures Key(name) !in Reserved
  {
    var k := Key(name);
    assert k[0] == 's' && |k| >= 8;
    assert forall r :: r in Reserved ==> |r| < 8 || r[0] != 's';
  }

  /** `get(env)`: the value under the setting's key, read through the parent chain. */
  function Get(s: Setting, env: Environment): (v: Value)
    reads env.Chain`own
    requires env.Valid()
    ensures Key(s.name) in env.own ==> v == env.own[Key(s.name)]
    ensures Key(s.name) !in env.own && env.parent == null ==> v == Undefined
    ensures Key(s.name) !in env.own && env.parent != null ==> v == env.parent.Lookup(Key(s.name))
  {
    env.Lookup(Key(s.name))
  }

  /** A setting read directly is what `env.get` returns for its key. */
  lemma GetAgreesWithEnvGet(s: Setting, env: Environment)
    requires env.Valid()
    ensures env.Get(Key(s.name)) == Ok(Get(s, env))
  {
    KeyNotReserved(s.name);
  }

  /** `set(env, value)`: when the value differs from the current one, writes it on
      this environment, emits `setting:set` and returns true; otherwise changes
      nothing and returns false. */
  method Set(s: Setting, env: Environment, value: Value) returns (changed: bool)
    requires env.Valid()
    modifies env
    ensures changed <==> old(Get(s, env)) != value
    ensures Get(s, env) == value
    ensures changed ==> env.own == old(env.own)[Key(s.name) := value]
    ensures changed ==> env.log == old(env.log) + [Event("setting:set", s.name, value, env)]
    ensures !changed ==> env.own == old(env.own) && env.log == old(env.log)
    ensures forall n :: n != Key(s.name) ==> env.Lookup(n) == old(env.Lookup(n))
  {
    changed := false;
    if Get(s, env) != value {
      env.Put(Key(s.name), value);
      env.Dispatch(Event("setting:set", s.name, value, env));
      changed := true;
    }
  }

  /** `reset(env)`: when the current value is not the default, emits
      `setting:reset` and sets the default; otherwise changes nothing. */
  method Reset(s: Setting, env: Environment) returns (changed: bool)
    requires env.Valid()
    modifies env
    ensures changed <==> old(Get(s, env)) != s.defaultValue
    ensures Get(s, env) == s.defaultValue
    ensures changed ==> env.own == old(env.own)[Key(s.name) := s.defaultValue]
    ensures changed ==> env.log == old(env.log) + [Event("setting:reset", s.name, s.defaultValue, env), Event("setting:set", s.name, s.defaultValue, env)]
    ensures !changed ==> env.own == old(env.own) && env.log == old(env.log)
    ensures forall n :: n != Key(s.name) ==> env.Lookup(n) == old(env.Lookup(n))
  {
    changed := false;
    if Get(s, env) != s.defaultValue {
      env.Dispatch(Event("setting:reset", s.name, s.defaultValue, env));
      changed := Set(s, env, s.defaultValue);
    }
  }

  /** `reset(env)` as written: the `setting:reset` event it builds reads `value`, a
      name the module never declares, so in strict mode the call throws before
      anything is emitted or written whenever the current value is not the default. */
  method ResetAsWritten(s: Setting, env: Environment) returns (r: Result<bool, string>)
    requires env.Valid()
    ensures r.Err? <==> Get(s, env) != s.defaultValue
    ensures r.Err? ==> r.error == "ReferenceError: value is not defined"
    ensures r.Ok? ==> !r.value
  {
    if Get(s, env) != s.defaultValue {
      r := Err("ReferenceError: value is not defined");
    } else {
      r := Ok(false);
    }
  }

  /** The reset that is written out never restores anything: after `set(env, 8)` on
      a setting whose default is 4, `reset` throws and the value stays 8. */
  method ResetAfterSetThrows() returns (r: Result<bool, string>, current: Value)
    ensures r.Err? && current == Num(8)
  {
    var env := new Environment(null);
    var s := MakeSetting(SettingDescriptor(Str("number"), Num(4)), "tabsize");
    var _ := Set(s, env, Num(8));
    r := ResetAsWritten(s, env);
    current := Get(s, env);
  }

  /** Setting a value twice: the first call changes the value, the repeat does not;
      resetting then restores the default and a second reset does nothing. */
  method SetAndResetTwice(d: SettingDescriptor, v: Value) returns (first: bool, repeat: bool, read: Value, reset: bool, again: bool, restored: Value)
    ensures first <==> v != Undefined
    ensures !repeat && read == v
    ensures reset <==> v != MakeSetting(d, "tabsize").defaultValue
    ensures !again && restored == MakeSetting(d, "tabsize").defaultValue
  {
    var env := new Environment(null);
    var s := MakeSetting(d, "tabsize");
    first := Set(s, env, v);
    repeat := Set(s, env, v);
    read := Get(s, env);
    reset := Reset(s, env);
    again := Reset(s, env);
    restored := Get(s, env);
  }

  /** A setting map files every setting under its own name. */
  ghost predicate Keyed(m: map<string, Setting>) {
    forall n :: n in m ==> m[n].name == n
  }

  /** The `setting:install` events `plugin:startup` emits: one wrapped setting per key. */
  function Wrap(es: Entries<SettingDescriptor>): (ws: Entries<Setting>)
    ensures |ws| == |es|
    ensures forall i :: 0 <= i < |es| ==> ws[i] == (es[i].0, MakeSetting(es[i].1, es[i].0))
  {
    if es == [] then [] else Wrap(es[..|es| - 1]) + [(es[|es| - 1].0, MakeSetting(es[|es| - 1].1, es[|es| - 1].0))]
  }

  /** The settings a plugin lists are installed, each under its key, and nothing else changes. */
  lemma InstallAllSpec(m: map<string, Setting>, es: Entries<SettingDescriptor>)
    requires DistinctKeys(es)
    ensures Assign(m, Wrap(es)).Keys == m.Keys + set i | 0 <= i < |es| :: es[i].0
    ensures forall i :: 0 <= i < |es| ==> Assign(m, Wrap(es))[es[i].0] == MakeSetting(es[i].1, es[i].0)
    ensures forall n :: n in m && (forall i :: 0 <= i < |es| ==> es[i].0 != n) ==> Assign(m, Wrap(es))[n] == m[n]
    ensures Keyed(m) ==> Keyed(Assign(m, Wrap(es)))
  {
    var ws := Wrap(es);
    AssignKeys(m, ws);
    assert (set i | 0 <= i < |ws| :: ws[i].0) == set i | 0 <= i < |es| :: es[i].0;
    forall i | 0 <= i < |es|
      ensures Assign(m, ws)[es[i].0] == MakeSetting(es[i].1, es[i].0)
    {
      AssignLast(m, ws, i);
    }
    forall n | n in m && (forall i :: 0 <= i < |es| ==> es[i].0 != n)
      ensures Assign(m, ws)[n] == m[n]
    {
      AssignOther(m, ws, n);
    }
    if Keyed(m) {
      forall n | n in Assign(m, ws)
        ensures Assign(m, ws)[n].name == n
      {
        if i :| 0 <= i < |es| && es[i].0 == n {
          AssignLast(m, ws, i);
        } else {
          AssignOther(m, ws, n);
        }
      }
    }
  }

  /** `setting:uninstall` for the setting installed under `name`, as `plugin:shutdown`
      emits it; false where looking the setting up yields nothing and the listener throws. */
  function UninstallSetting(m: map<string, Setting>, name: string): (r: (map<string, Setting>, bool))
    ensures r.1 <==> name in m
    ensures !r.1 ==> r.0 == m
    ensures r.1 && Keyed(m) ==> r.0 == m - {name}
  {
    if name in m then (m - {m[name].name}, true) else (m, false)
  }

  /** The settings `plugin:shutdown` listener: uninstalls each key; the first key
      with no installed setting ends the walk. */
  function UninstallAll(m: map<string, Setting>, names: seq<string>): (map<string, Setting>, bool)
    decreases |names|
  {
    if names == [] then (m, true)
    else
      var (p, ok) := UninstallAll(m, names[..|names| - 1]);
      if !ok then (p, false) else UninstallSetting(p, names[|names| - 1])
  }

  lemma {:induction false} UninstallAllStops(m: map<string, Setting>, names: seq<string>, i: nat)
    requires i <= |names|
    requires !UninstallAll(m, names[..i]).1
    ensures UninstallAll(m, names) == UninstallAll(m, names[..i])
    decreases |names|
  {
    if i < |names| {
      assert names[..|names| - 1][..i] == names[..i];
      UninstallAllStops(m, names[..|names| - 1], i);
    } else {
      assert names[..i] == names;
    }
  }

  /** When every name is installed and listed once, the walk completes and removes
      exactly those names. */
  lemma {:induction false} UninstallAllSpec(m: map<string, Setting>, names: seq<string>)
    requires Keyed(m)
    requires forall i, j :: 0 <= i < j < |names| ==> names[i] != names[j]
    requires forall i :: 0 <= i < |names| ==> names[i] in m
    ensures UninstallAll(m, names).1
    ensures Keyed(UninstallAll(m, names).0)
    ensures forall n :: n in UninstallAll(m, names).0 <==> n in m && n !in names
    ensures forall n :: n in UninstallAll(m, names).0 ==> UninstallAll(m, names).0[n] == m[n]
    decreases |names|
  {
    if names != [] {
      var init := names[..|names| - 1];
      var last := names[|names| - 1];
      UninstallAllSpec(m, init);
      assert last !in init by {
        forall i | 0 <= i < |init| ensures init[i] != last {
          assert init[i] == names[i];
        }
      }
      forall n ensures n in names <==> n in init || n == last {
        assert names == init + [last];
      }
    }
  }

  /** Plugging a plugin whose settings are all new and unplugging it again leaves
      the installed settings exactly as they were. */
  lemma StartupThenShutdown(m: map<string, Setting>, es: Entries<SettingDescriptor>)
    requires Keyed(m) && DistinctKeys(es)
    requires forall i :: 0 <= i < |es| ==> es[i].0 !in m
    ensures UninstallAll(Assign(m, Wrap(es)), Keys(es)) == (m, true)
  {
    InstallFresh(m, es);
    UninstallFresh(m, Assign(m, Wrap(es)), Keys(es));
  }

  /** Uninstalling, once each, names that were all added to `m` gives back `m`. */
  lemma UninstallFresh(m: map<string, Setting>, a: map<string, Setting>, names: seq<string>)
    requires Keyed(a)
    requires forall i, j :: 0 <= i < j < |names| ==> names[i] != names[j]
    requires forall i :: 0 <= i < |names| ==> names[i] in a
    requires forall n :: n in a <==> n in m || n in names
    requires forall n :: n in m ==> n !in names && a[n] == m[n]
    ensures UninstallAll(a, names) == (m, true)
  {
    UninstallAllSpec(a, names);
    var r := UninstallAll(a, names).0;
    assert forall n :: n in r <==> n in m;
    assert r == m;
  }

  /** Installing settings under new names, seen from the names: the map gains exactly
      the listed names, which were all absent, and keeps everything else. */
  lemma InstallFresh(m: map<string, Setting>, es: Entries<SettingDescriptor>)
    requires Keyed(m) && DistinctKeys(es)
    requires forall i :: 0 <= i < |es| ==> es[i].0 !in m
    ensures var a, names := Assign(m, Wrap(es)), Keys(es);
      Keyed(a) &&
      (forall i, j :: 0 <= i < j < |names| ==> names[i] != names[j]) &&
      (forall i :: 0 <= i < |names| ==> names[i] in a) &&
      (forall n :: n in a <==> n in m || n in names) &&
      (forall n :: n in m ==> n !in names && a[n] == m[n])
  {
    var a, names := Assign(m, Wrap(es)), Keys(es);
    InstallAllSpec(m, es);
    forall n ensures n in a <==> n in m || n in names {
      NotAKey(es, n);
    }
    forall n | n in m ensures n !in names && a[n] == m[n] {
      NotAKey(es, n);
    }
  }

  /** The settings manager's `startup`: the `plugin:startup` listener run directly
      for every plugin it is handed, in order. */
  function InstallPlugins(m: map<string, Setting>, ps: seq<Option<Entries<SettingDescriptor>>>): map<string, Setting>
    decreases |ps|
  {
    if ps == [] then m
    else
      var p := InstallPlugins(m, ps[..|ps| - 1]);
      var last := ps[|ps| - 1];
      if last.None? then p else Assign(p, Wrap(last.value))
  }

  /** Starting up over some plugins keeps every setting already installed under its
      name and installs every key any of the plugins lists. */
  lemma {:induction false} InstallPluginsCovers(m: map<string, Setting>, ps: seq<Option<Entries<SettingDescriptor>>>)
    ensures m.Keys <= InstallPlugins(m, ps).Keys
    ensures forall j, i :: 0 <= j < |ps| && ps[j].Some? && 0 <= i < |ps[j].value| ==>
              ps[j].value[i].0 in InstallPlugins(m, ps)
    decreases |ps|
  {
    if ps != [] {
      var init := ps[..|ps| - 1];
      var p := InstallPlugins(m, init);
      var last := ps[|ps| - 1];
      InstallPluginsCovers(m, init);
      assert forall j :: 0 <= j < |init| ==> init[j] == ps[j];
      if last.Some? {
        var ws := Wrap(last.value);
        AssignKeys(p, ws);
        forall i | 0 <= i < |last.value|
          ensures last.value[i].0 in InstallPlugins(m, ps)
        {
          assert ws[i].0 == last.value[i].0;
          assert ws[i].0 in (set k | 0 <= k < |ws| :: ws[k].0);
        }
      }
    }
  }

  /** The `settings` namespace of an environment and the setting listeners. */
  class SettingsManager {
    /** Whether `env.settings` exists. */
    var present: bool
    /** Created empty by `install`; no listener writes them. */
    var enabled: map<string, Setting>
    var disabled: map<string, Setting>
    var installed: map<string, Setting>

    ghost predicate Valid()
      reads this
    {
      (!present ==> installed == map[]) && enabled == map[] && disabled == map[] && Keyed(installed)
    }

    constructor ()
      ensures Valid() && !present
    {
      present := false;
      enabled, disabled, installed := map[], map[], map[];
    }

    /** `install`: `env.settings = {enabled: {}, disabled: {}, installed: {}}`. */
    method Install()
      modifies this
      ensures Valid() && present && installed == map[]
    {
      present := true;
      enabled, disabled, installed := map[], map[], map[];
    }

    /** `uninstall`: removes `env.settings`. */
    method Uninstall()
      modifies this
      ensures Valid() && !present
    {
      present := false;
      enabled, disabled, installed := map[], map[], map[];
    }

    /** Listener for `setting:install`: files the setting under its name. */
    method OnSettingInstall(s: Setting)
      requires Valid() && present
      modifies this
      ensures Valid() && present
      ensures installed == old(installed)[s.name := s]
    {
      installed := installed[s.name := s];
    }

    /** Listener for `setting:uninstall`: removes the setting filed under its name. */
    method OnSettingUninstall(s: Setting)
      requires Valid() && present
      modifies this
      ensures Valid() && present
      ensures installed == old(installed) - {s.name}
    {
      installed := installed - {s.name};
    }

    /** The `plugin:startup` listener: one `setting:install` per key of `plugin.settings`. */
    method OnPluginStartup(settings: Option<Entries<SettingDescriptor>>)
      requires Valid() && present
      modifies this
      ensures Valid() && present
      ensures settings.None? ==> installed == old(installed)
      ensures settings.Some? ==> installed == Assign(old(installed), Wrap(settings.value))
    {
      if settings.Some? {
        var es := settings.value;
        var ws := Wrap(es);
        var i := 0;
        while i < |es|
          invariant 0 <= i <= |es|
          invariant Valid() && present
          invariant installed == Assign(old(installed), ws[..i])
        {
          assert ws[..i + 1][..i] == ws[..i];
          OnSettingInstall(MakeSetting(es[i].1, es[i].0));
          i := i + 1;
        }
        assert ws[..i] == ws;
      }
    }

    /** `startup`: replays `plugin:startup` for every plugin handed over, in order. */
    method Startup(plugins: seq<Option<Entries<SettingDescriptor>>>)
      requires Valid() && present
      modifies this
      ensures Valid() && present
      ensures installed == InstallPlugins(old(installed), plugins)
    {
      var i := 0;
      while i < |plugins|
        invariant 0 <= i <= |plugins|
        invariant Valid() && present
        invariant installed == InstallPlugins(old(installed), plugins[..i])
      {
        assert plugins[..i + 1][..i] == plugins[..i];
        OnPluginStartup(plugins[i]);
        i := i + 1;
      }
      assert plugins[..i] == plugins;
    }

    /** The `plugin:shutdown` listener: one `setting:uninstall` per key; `ok` is false
        where the source throws on a key with no installed setting. */
    method OnPluginShutdown(settings: Option<Entries<SettingDescriptor>>) returns (ok: bool)
      requires Valid() && present
      modifies this
      ensures Valid() && present
      ensures settings.None? ==> ok && installed == old(installed)
      ensures settings.Some? ==> (installed, ok) == UninstallAll(old(installed), Keys(settings.value))
    {
      ok := true;
      if settings.Some? {
        var names := Keys(settings.value);
        var i := 0;
        while i < |names| && ok
          invariant 0 <= i <= |names|
          invariant Valid() && present
          invariant (installed, ok) == UninstallAll(old(installed), names[..i])
        {
          assert names[..i + 1][..i] == names[..i];
          ok := names[i] in installed;
          if ok {
            OnSettingUninstall(installed[names[i]]);
          }
          i := i + 1;
        }
        if ok {
          assert names[..i] == names;
        } else {
          UninstallAllStops(old(installed), names, i);
        }
      }
    }
  }
}

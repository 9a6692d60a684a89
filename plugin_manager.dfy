/** The plugin kernel: each plugin's lifecycle state machine, and the three maps
    (`installed`, `enabled`, `disabled`) that the kernel's own `plugin:*` listeners
    keep in step. Events the kernel emits reach those listeners as direct calls. */
module PluginManager {
  import opened Values

  datatype Status = Disabled | Enabled | Uninstalled

  /** The kernel registers itself under this name when it first runs on an environment. */
  const ManagerName := "plugin-manager"
  const ManagerVersion := Str("0.0.1")
  const DefaultVersion := Str("0.0.0")

  /** What the kernel reads from a plugin descriptor: its unique name, which the
      author may have left out, and its optional version. The author's hooks are
      opaque and are modelled as doing nothing. */
  datatype Descriptor = Descriptor(name: Option<string>, version: Value)

  /** The version of a wrapped plugin: the descriptor's own when it is truthy, else "0.0.0". */
  function VersionOf(d: Descriptor): (v: Value)
    ensures Truthy(v)
    ensures Truthy(d.version) ==> v == d.version
    ensures !Truthy(d.version) ==> v == DefaultVersion
  {
    if Truthy(d.version) then d.version else DefaultVersion
  }

  // ---------------------------------------------------------------------------
  // The registry as key sets, and the four guarded operations on it.

  datatype Registry = Registry(installed: set<string>, enabled: set<string>, disabled: set<string>)

  /** Installed is the disjoint union of enabled and disabled. */
  ghost predicate Consistent(r: Registry) {
    r.installed == r.enabled + r.disabled && r.enabled !! r.disabled
  }

  /** The status a name has in the registry, if it is installed. */
  function StatusIn(r: Registry, name: string): (s: Option<Status>)
    requires Consistent(r)
    ensures s == None <==> name !in r.installed
    ensures s == Some(Enabled) <==> name in r.enabled
    ensures s == Some(Disabled) <==> name in r.disabled
  {
    if name in r.enabled then Some(Enabled) else if name in r.disabled then Some(Disabled) else None
  }

  datatype Outcome = Outcome(registry: Registry, ok: bool)

  /** The registry right after the kernel has installed and started itself. */
  function Boot(): (r: Registry)
    ensures Consistent(r)
    ensures r.installed == r.enabled == {ManagerName} && r.disabled == {}
  {
    Registry({ManagerName}, {ManagerName}, {})
  }

  /** `install`: fails on a name already installed; otherwise the name joins
      `installed` and `disabled`. */
  function InstallStep(r: Registry, name: string): (o: Outcome)
    ensures o.ok <==> name !in r.installed
    ensures !o.ok ==> o.registry == r
    ensures o.ok ==> name in o.registry.installed && name in o.registry.disabled
    ensures o.ok && Consistent(r) ==> name !in o.registry.enabled
    ensures forall n :: n != name ==> (n in o.registry.installed <==> n in r.installed)
    ensures forall n :: n != name ==> (n in o.registry.enabled <==> n in r.enabled)
    ensures forall n :: n != name ==> (n in o.registry.disabled <==> n in r.disabled)
    ensures Consistent(r) ==> Consistent(o.registry)
  {
    if name in r.installed then Outcome(r, false)
    else Outcome(Registry(r.installed + {name}, r.enabled, r.disabled + {name}), true)
  }

  /** `startup`: succeeds exactly when the name is disabled, and moves it to `enabled`. */
  function StartupStep(r: Registry, name: string): (o: Outcome)
    ensures o.ok <==> name in r.disabled
    ensures !o.ok ==> o.registry == r
    ensures o.ok ==> name in o.registry.enabled && name !in o.registry.disabled
    ensures o.registry.installed == r.installed
    ensures forall n :: n != name ==> (n in o.registry.enabled <==> n in r.enabled)
    ensures forall n :: n != name ==> (n in o.registry.disabled <==> n in r.disabled)
    ensures Consistent(r) ==> Consistent(o.registry)
  {
    if name in r.disabled then Outcome(Registry(r.installed, r.enabled + {name}, r.disabled - {name}), true)
    else Outcome(r, false)
  }

  /** `shutdown`: succeeds exactly when the name is enabled, and moves it to `disabled`. */
  function ShutdownStep(r: Registry, name: string): (o: Outcome)
    ensures o.ok <==> name in r.enabled
    ensures !o.ok ==> o.registry == r
    ensures o.ok ==> name in o.registry.disabled && name !in o.registry.enabled
    ensures o.registry.installed == r.installed
    ensures forall n :: n != name ==> (n in o.registry.enabled <==> n in r.enabled)
    ensures forall n :: n != name ==> (n in o.registry.disabled <==> n in r.disabled)
    ensures Consistent(r) ==> Consistent(o.registry)
  {
    if name in r.enabled then Outcome(Registry(r.installed, r.enabled - {name}, r.disabled + {name}), true)
    else Outcome(r, false)
  }

  /** `uninstall`: fails on a name not installed; otherwise shuts it down if it is
      enabled and removes it from all three maps. */
  function UninstallStep(r: Registry, name: string): (o: Outcome)
    ensures o.ok <==> name in r.installed
    ensures !o.ok ==> o.registry == r
    ensures name !in o.registry.installed
    ensures Consistent(r) ==> name !in o.registry.enabled && name !in o.registry.disabled
    ensures forall n :: n != name ==> (n in o.registry.installed <==> n in r.installed)
    ensures forall n :: n != name ==> (n in o.registry.enabled <==> n in r.enabled)
    ensures forall n :: n != name ==> (n in o.registry.disabled <==> n in r.disabled)
    ensures Consistent(r) ==> Consistent(o.registry)
  {
    if name in r.installed then
      var down := ShutdownStep(r, name).registry;
      Outcome(Registry(down.installed - {name}, down.enabled - {name}, down.disabled - {name}), true)
    else Outcome(r, false)
  }

  /** `uninstall` as written calls a bare `shutdown(...)`, but no such name is in
      scope (the exported `shutdown` is a named function expression), so the call
      throws before anything changes whenever the name is installed. */
  function UninstallStepAsWritten(r: Registry, name: string): (o: Result<Outcome, string>)
    ensures o.Err? <==> name in r.installed
    ensures o.Ok? ==> o.value == Outcome(r, false)
  {
    if name in r.installed then Err("ReferenceError: shutdown is not defined") else Ok(Outcome(r, false))
  }

  /** With the uninstall that is written out, no installed plugin can ever be
      uninstalled: right after a successful install, uninstall throws and the name
      stays installed. */
  lemma UninstallAsWrittenThrows(r: Registry, name: string)
    requires name !in r.installed
    ensures var after := InstallStep(r, name).registry;
            UninstallStepAsWritten(after, name).Err? && name in after.installed
  {
  }

  datatype Op = DoInstall(name: string) | DoUninstall(name: string) | DoStartup(name: string) | DoShutdown(name: string)

  function Apply(r: Registry, op: Op): Outcome {
    match op
    case DoInstall(n) => InstallStep(r, n)
    case DoUninstall(n) => UninstallStep(r, n)
    case DoStartup(n) => StartupStep(r, n)
    case DoShutdown(n) => ShutdownStep(r, n)
  }

  /** The registry after a sequence of lifecycle calls, whatever each returned. */
  function Run(r: Registry, ops: seq<Op>): Registry
    decreases |ops|
  {
    if ops == [] then r else Run(Apply(r, ops[0]).registry, ops[1..])
  }

  /** The registry invariant holds after every sequence of install, uninstall,
      startup and shutdown calls. */
  lemma {:induction false} RunConsistent(r: Registry, ops: seq<Op>)
    requires Consistent(r)
    ensures Consistent(Run(r, ops))
    decreases |ops|
  {
    if ops != [] {
      var next := Apply(r, ops[0]).registry;
      assert Consistent(next) by {
        match ops[0]
        case DoInstall(n) =>
        case DoUninstall(n) =>
        case DoStartup(n) =>
        case DoShutdown(n) =>
      }
      RunConsistent(next, ops[1..]);
    }
  }

  /** Installing a new name and uninstalling it again restores the registry exactly. */
  lemma InstallThenUninstall(r: Registry, name: string)
    requires Consistent(r) && name !in r.installed
    ensures UninstallStep(InstallStep(r, name).registry, name) == Outcome(r, true)
  {
  }

  /** A second `startup` without a `shutdown` in between returns false and changes nothing. */
  lemma StartupTwice(r: Registry, name: string)
    ensures var once := StartupStep(r, name).registry;
            StartupStep(once, name) == Outcome(once, false)
  {
  }

  /** `shutdown` undoes `startup` and `startup` undoes `shutdown`. */
  lemma StartupShutdownMirror(r: Registry, name: string)
    requires Consistent(r)
    ensures name in r.disabled ==> ShutdownStep(StartupStep(r, name).registry, name) == Outcome(r, true)
    ensures name in r.enabled ==> StartupStep(ShutdownStep(r, name).registry, name) == Outcome(r, true)
  {
  }

  // ---------------------------------------------------------------------------
  // The objects: plugins whose status changes in place, and the kernel's maps.

  /** A wrapped plugin (`Plugin`/`TPlugin`). */
  class Plugin {
    const name: string
    const version: Value
    var status: Status

    /** Wrapping a descriptor that has a name: status `disabled`, version defaulted.
        (Without a name the wrapping throws; `Kernel.Install` models that case.) */
    constructor (d: Descriptor)
      requires d.name.Some?
      ensures name == d.name.value && version == VersionOf(d) && status == Disabled
    {
      name := d.name.value;
      version := VersionOf(d);
      status := Disabled;
    }

    /** `TPlugin.startup`: only a disabled plugin starts; it becomes enabled and
        `plugin:startup` is delivered to the kernel. */
    method Startup(k: Kernel)
      modifies this, k
      ensures old(status) == Disabled ==> status == Enabled
      ensures old(status) == Disabled ==> k.enabled == old(k.enabled)[name := this] && k.disabled == old(k.disabled) - {name}
      ensures old(status) != Disabled ==> status == old(status) && k.enabled == old(k.enabled) && k.disabled == old(k.disabled)
      ensures k.installed == old(k.installed) && k.initialized == old(k.initialized)
    {
      if status == Disabled {
        status := Enabled;
        k.OnStartup(this);
      }
    }

    /** `TPlugin.shutdown`: only an enabled plugin stops; it becomes disabled and
        `plugin:shutdown` is delivered to the kernel. */
    method Shutdown(k: Kernel)
      modifies this, k
      ensures old(status) == Enabled ==> status == Disabled
      ensures old(status) == Enabled ==> k.disabled == old(k.disabled)[name := this] && k.enabled == old(k.enabled) - {name}
      ensures old(status) != Enabled ==> status == old(status) && k.enabled == old(k.enabled) && k.disabled == old(k.disabled)
      ensures k.installed == old(k.installed) && k.initialized == old(k.initialized)
    {
      if status == Enabled {
        status := Disabled;
        k.OnShutdown(this);
      }
    }

    /** `TPlugin.install`: the status is left alone and `plugin:install` is delivered. */
    method Install(k: Kernel)
      modifies k
      ensures k.installed == old(k.installed)[name := this] && k.disabled == old(k.disabled)[name := this]
      ensures k.enabled == old(k.enabled) && k.initialized == old(k.initialized)
    {
      k.OnInstall(this);
    }

    /** `TPlugin.uninstall`: the status becomes `uninstalled` and `plugin:uninstall` is delivered. */
    method Uninstall(k: Kernel)
      modifies this, k
      ensures status == Uninstalled
      ensures k.installed == old(k.installed) - {name} && k.enabled == old(k.enabled) - {name} && k.disabled == old(k.disabled) - {name}
      ensures k.initialized == old(k.initialized)
    {
      status := Uninstalled;
      k.OnUninstall(this);
    }
  }

  /** The `plugins` namespace of an environment: absent until the kernel first runs,
      then the three maps from plugin name to plugin. */
  class Kernel {
    var initialized: bool
    var installed: map<string, Plugin>
    var enabled: map<string, Plugin>
    var disabled: map<string, Plugin>

    function View(): Registry
      reads this
    {
      Registry(installed.Keys, enabled.Keys, disabled.Keys)
    }

    ghost predicate Valid()
      reads this, installed.Values
    {
      (!initialized ==> installed == map[] && enabled == map[] && disabled == map[]) &&
      Consistent(View()) &&
      (forall n :: n in enabled ==> n in installed && enabled[n] == installed[n]) &&
      (forall n :: n in disabled ==> n in installed && disabled[n] == installed[n]) &&
      (forall n :: n in installed ==> installed[n].name == n) &&
      (forall n :: n in enabled ==> installed[n].status == Enabled) &&
      (forall n :: n in disabled ==> installed[n].status == Disabled)
    }

    /** An environment on which no plugin has been installed yet. */
    constructor ()
      ensures Valid() && !initialized
    {
      initialized := false;
      installed, enabled, disabled := map[], map[], map[];
    }

    /** `getPlugins(env, enabled)`: a truthy selector gives the enabled map, `false`
        itself the disabled map, anything else the installed map. */
    function GetPlugins(selector: Value): (m: map<string, Plugin>)
      reads this
      ensures Truthy(selector) ==> m == enabled
      ensures selector == Bool(false) ==> m == disabled
      ensures !Truthy(selector) && selector != Bool(false) ==> m == installed
    {
      if Truthy(selector) then enabled else if selector == Bool(false) then disabled else installed
    }

    /** Listener for `plugin:startup`. */
    method OnStartup(p: Plugin)
      modifies this
      ensures enabled == old(enabled)[p.name := p] && disabled == old(disabled) - {p.name}
      ensures installed == old(installed) && initialized == old(initialized)
    {
      disabled := disabled - {p.name};
      enabled := enabled[p.name := p];
    }

    /** Listener for `plugin:shutdown`. */
    method OnShutdown(p: Plugin)
      modifies this
      ensures disabled == old(disabled)[p.name := p] && enabled == old(enabled) - {p.name}
      ensures installed == old(installed) && initialized == old(initialized)
    {
      enabled := enabled - {p.name};
      disabled := disabled[p.name := p];
    }

    /** Listener for `plugin:install`. */
    method OnInstall(p: Plugin)
      modifies this
      ensures installed == old(installed)[p.name := p] && disabled == old(disabled)[p.name := p]
      ensures enabled == old(enabled) && initialized == old(initialized)
    {
      installed := installed[p.name := p];
      disabled := disabled[p.name := p];
    }

    /** Listener for `plugin:uninstall`. */
    method OnUninstall(p: Plugin)
      modifies this
      ensures installed == old(installed) - {p.name} && enabled == old(enabled) - {p.name} && disabled == old(disabled) - {p.name}
      ensures initialized == old(initialized)
    {
      installed := installed - {p.name};
      enabled := enabled - {p.name};
      disabled := disabled - {p.name};
    }

    /** `initialize`: creates empty maps, then installs and starts the kernel's own
        plugin, which ends up installed and enabled. */
    method Initialize()
      modifies this
      ensures Valid() && initialized
      ensures View() == Boot()
      ensures fresh(installed[ManagerName]) && installed[ManagerName].version == ManagerVersion
    {
      initialized := true;
      installed, enabled, disabled := map[], map[], map[];
      var p := new Plugin(Descriptor(Some(ManagerName), ManagerVersion));
      p.Install(this);
      p.Startup(this);
    }

    /** `install(env, descriptor)`: sets up the kernel on first use, then installs the
        plugin unless its name is already taken. A descriptor without a name makes
        the wrapping throw after the set-up: false, with the maps as set up. */
    method Install(d: Descriptor) returns (ok: bool)
      requires Valid()
      modifies this
      ensures Valid() && initialized
      ensures d.name.None? ==> !ok && View() == (if old(initialized) then old(View()) else Boot())
      ensures d.name.Some? ==>
                var before := if old(initialized) then old(View()) else Boot();
                View() == InstallStep(before, d.name.value).registry && ok == InstallStep(before, d.name.value).ok
      ensures ok ==> d.name.Some? && fresh(installed[d.name.value])
      ensures ok ==> installed[d.name.value].status == Disabled && installed[d.name.value].version == VersionOf(d)
      ensures old(initialized) && !ok ==> installed == old(installed) && enabled == old(enabled) && disabled == old(disabled)
      ensures old(initialized) && ok ==> installed == old(installed)[d.name.value := installed[d.name.value]]
      ensures old(initialized) && ok ==> disabled == old(disabled)[d.name.value := installed[d.name.value]] && enabled == old(enabled)
    {
      if !initialized {
        Initialize();
      }
      ok := false;
      if d.name.Some? {
        var p := new Plugin(d);
        if p.name !in installed {
          p.Install(this);
          ok := true;
        }
      }
    }

    /** `startup(env, name)`: starts a disabled plugin; anything else returns false,
        including a call on an environment the kernel never ran on, where reading the
        missing `plugins` namespace throws. */
    method Startup(name: string) returns (ok: bool)
      requires Valid()
      modifies this, installed.Values
      ensures Valid() && initialized == old(initialized)
      ensures !old(initialized) ==> !ok
      ensures ok == (name in old(disabled))
      ensures View() == StartupStep(old(View()), name).registry
      ensures installed == old(installed)
      ensures ok ==> enabled == old(enabled)[name := installed[name]] && disabled == old(disabled) - {name}
      ensures ok ==> installed[name].status == Enabled
      ensures !ok ==> enabled == old(enabled) && disabled == old(disabled)
      ensures forall n :: n in installed && n != name ==> installed[n].status == old(installed[n].status)
    {
      ok := false;
      if name in disabled {
        var p := disabled[name];
        p.Startup(this);
        ok := true;
      }
    }

    /** `shutdown(env, name)`: stops an enabled plugin; anything else returns false,
        including a call on an environment the kernel never ran on. */
    method Shutdown(name: string) returns (ok: bool)
      requires Valid()
      modifies this, installed.Values
      ensures Valid() && initialized == old(initialized)
      ensures !old(initialized) ==> !ok
      ensures ok == (name in old(enabled))
      ensures View() == ShutdownStep(old(View()), name).registry
      ensures installed == old(installed)
      ensures ok ==> disabled == old(disabled)[name := installed[name]] && enabled == old(enabled) - {name}
      ensures ok ==> installed[name].status == Disabled
      ensures !ok ==> enabled == old(enabled) && disabled == old(disabled)
      ensures forall n :: n in installed && n != name ==> installed[n].status == old(installed[n].status)
    {
      ok := false;
      if name in enabled {
        var p := enabled[name];
        p.Shutdown(this);
        ok := true;
      }
    }

    /** `uninstall(env, name)`: shuts the plugin down if it is running, marks it
        `uninstalled` and removes it from all three maps; false on a name that is not
        installed, including on an environment the kernel never ran on. */
    method Uninstall(name: string) returns (ok: bool)
      requires Valid()
      modifies this, installed.Values
      ensures Valid() && initialized == old(initialized)
      ensures !old(initialized) ==> !ok
      ensures ok == (name in old(installed))
      ensures View() == UninstallStep(old(View()), name).registry
      ensures ok ==> old(installed[name]).status == Uninstalled
      ensures installed == old(installed) - {name} && enabled == old(enabled) - {name} && disabled == old(disabled) - {name}
      ensures forall n :: n in installed ==> installed[n].status == old(installed[n].status)
    {
      ok := false;
      if name in installed {
        var _ := Shutdown(name);
        Remove(name);
        ok := true;
      }
    }

    /** The second half of `uninstall`, once the plugin is no longer enabled: the
        plugin's own `uninstall` marks it and `plugin:uninstall` drops it from the maps. */
    method Remove(name: string)
      requires Valid() && initialized && name in installed && name !in enabled
      modifies this, installed[name]
      ensures Valid() && initialized
      ensures old(installed[name]).status == Uninstalled
      ensures installed == old(installed) - {name} && enabled == old(enabled) && disabled == old(disabled) - {name}
      ensures forall n :: n in installed ==> installed[n].status == old(installed[n].status)
    {
      var p := installed[name];
      p.Uninstall(this);
    }

    /** Installing a new plugin and uninstalling it leaves the three maps exactly as they were. */
    method InstallThenUninstall(d: Descriptor) returns (installedOk: bool, uninstalledOk: bool)
      requires Valid() && initialized && d.name.Some? && d.name.value !in installed
      modifies this, installed.Values
      ensures Valid()
      ensures installedOk && uninstalledOk
      ensures installed == old(installed) && enabled == old(enabled) && disabled == old(disabled)
    {
      installedOk := Install(d);
      uninstalledOk := Uninstall(d.name.value);
    }
  }

  /** A live plugin's own `status` is always the status the kernel's maps give its
      name: the maps and the plugin objects never disagree. */
  lemma StatusMatchesMaps(k: Kernel, n: string)
    requires k.Valid() && n in k.installed
    ensures StatusIn(k.View(), n) == Some(k.installed[n].status)
    ensures k.installed[n].status != Uninstalled
  {
  }
}

# ace-addon-manager kernel, modelled in Dafny

This project models the plugin kernel of the ace-addon-manager editor add-on
system and proves properties of that model.

- **Environment.** An environment is a property store and event bus. Environments form a
  single-parent chain: reads fall through to the ancestors, and writes stay where they are
  made. `get` and `set` refuse the names the environment itself defines.
- **Plugin kernel.** The kernel wraps plugin descriptors into plugins. Each plugin has a
  lifecycle status (`disabled`, `enabled`, `uninstalled`). The kernel keeps three maps,
  `installed`, `enabled` and `disabled`, which its own `plugin:*` listeners keep in step.
  Installing a taken name, starting a plugin that is not disabled, and shutting down a
  plugin that is not enabled all return `false`.
- **Command manager.** It normalises command descriptors, keeps the command maps through
  its `command:*` listeners, and records requests. The process-wide request history holds
  at most the newest 100 requests.
- **Type manager.** It wraps type descriptors into types. `valueOf` resolves an input only
  when exactly one suggestion remains. Registration checks a declared base type once: it
  either installs the type or signals `type:failure`.
- **Settings manager.** Settings live on the environment under `"setting:" + name`.
  `set` reports whether the value changed, and `reset` restores the default.
- **Generic extension-point manager.** It harvests one endpoint of every plugin into a
  name-to-extension map and an ordered list of names.

Each module follows one source file:

| module | file |
|---|---|
| `Values` | JavaScript values, truthiness, `Option`, `Result` |
| `Endpoints` | an endpoint object walked with `Object.keys(...).forEach`: ordered entries, and the `m[key] = value` walk |
| `Env` | `overlays/pilot/environment.js` |
| `PluginManager` | `lib/plugin-manager.js` |
| `CommandManager` | `lib/command-manager.js` |
| `TypeManager` | `lib/type-manager.js` |
| `SettingsManager` | `lib/settings-manager.js` |
| `AbstractManager` | `lib/abstract-manager.js` |

How the model is built:

- **State that changes in place is a class.** This covers the environment's own
  properties, plugin status, the kernel and manager maps, the request fields and the
  request history. Each of these classes has a `Valid()` invariant. Every method that
  changes such state states its new state as a pure step function of the old one
  (`View() == StartupStep(old(View()), name).registry`). The lemmas are then proved about
  those step functions.
- **Events become direct calls.** An event the kernel emits to its own listeners is a
  direct call to the listener method. An event whose listeners sit outside the kernel
  (`set`, `setting:set`, `setting:reset`) is appended to the environment's event log.
- **Exceptions become results.** Where a listener throws (a lookup of a missing name,
  then a read of a field of `undefined`), the model returns `ok == false` and leaves the
  state as it was. The same holds for `startup`, `shutdown` and `uninstall` on an
  environment that has no plugin maps yet, and for `install` with a nameless descriptor.
- **Walks over an endpoint are loops.** Each loop is proved equal to a fold. The first
  throw ends the walk, as it does in the source.

## Model

| member | source | states |
|---|---|---|
| Env.Environment.constructor | overlays/pilot/environment.js:59-61 | a new environment has the given parent, no own properties and no events |
| Env.Environment.Get | overlays/pilot/environment.js:73-78 | fails exactly on reserved names; otherwise returns the own value, else the parent's value through the chain, else undefined |
| Env.Environment.Dispatch | overlays/pilot/environment.js:65 | the event reaches the listeners unchanged; properties do not change |
| Env.Environment.Emit | overlays/pilot/environment.js:63-66 | the dispatched event carries `env` = this environment |
| Env.Environment.Put | overlays/pilot/environment.js:94 | the assignment changes the read of that one name on this environment only; what the parent reads is unchanged |
| Env.Environment.Set | overlays/pilot/environment.js:87-99 | reserved name: an error, and nothing changes. Otherwise the value is written on this environment, a `set` event with the name and value is emitted even when the value is the same, the value is returned, and `get` then returns it. Other names and all ancestors read as before |
| Env.AncestorsExcludeSelf | overlays/pilot/environment.js:59-60 | the chain has no cycle, so an environment is never its own ancestor |
| Env.ChildReadsParent | overlays/pilot/environment.js:59-60 | a child reads its parent's value for every name it has not set itself |
| Env.Shadowing | overlays/pilot/environment.js:49-54 | writes do not propagate upward: after the child sets `x` to 2, the child reads 2 and the parent still reads 1 |
| PluginManager.VersionOf | lib/plugin-manager.js:116-117 | the version is the descriptor's own when truthy, else `"0.0.0"` |
| PluginManager.StatusIn | lib/plugin-manager.js:141-146 | a name's status is enabled, disabled or absent, matching the map it is in |
| PluginManager.StatusMatchesMaps | lib/plugin-manager.js:141-146 | on a valid kernel, the status read from the maps is the status field of the installed plugin, and an installed plugin is never marked uninstalled |
| PluginManager.Boot | lib/plugin-manager.js:273-296 | after initialisation, only the kernel's own plugin is installed, and it is enabled |
| PluginManager.InstallStep | lib/plugin-manager.js:312-328 | succeeds iff the name is not installed; the name then joins installed and disabled; other names are unchanged; consistency is kept |
| PluginManager.StartupStep | lib/plugin-manager.js:368-381 | succeeds iff the name is disabled, and then moves it to enabled; other names are unchanged |
| PluginManager.ShutdownStep | lib/plugin-manager.js:392-402 | succeeds iff the name is enabled, and then moves it to disabled; other names are unchanged |
| PluginManager.UninstallStep | lib/plugin-manager.js:344-355 | succeeds iff the name is installed; afterwards it is in none of the maps; other names are unchanged |
| PluginManager.UninstallStepAsWritten | lib/plugin-manager.js:349 | throws exactly when the name is installed; otherwise returns false and changes nothing |
| PluginManager.UninstallAsWrittenThrows | lib/plugin-manager.js:344-353 | right after a successful install, the uninstall as written throws and the plugin stays installed |
| PluginManager.RunConsistent | lib/plugin-manager.js:409-450 | after any sequence of install, uninstall, startup and shutdown calls, installed is the disjoint union of enabled and disabled |
| PluginManager.InstallThenUninstall | lib/plugin-manager.js:312-355 | installing a new name and then uninstalling it restores the registry exactly |
| PluginManager.StartupTwice | lib/plugin-manager.js:168-182 | a second startup without a shutdown in between returns false and changes nothing |
| PluginManager.StartupShutdownMirror | lib/plugin-manager.js:168-213 | shutdown undoes startup, and startup undoes shutdown |
| PluginManager.Plugin.constructor | lib/plugin-manager.js:110-120 | a wrapped plugin has the descriptor's name, the defaulted version and status disabled (the descriptor must name the plugin, as `Trait.required` at line 132 demands) |
| PluginManager.Plugin.Startup | lib/plugin-manager.js:168-182 | only a disabled plugin starts: it becomes enabled and the kernel moves it from disabled to enabled; otherwise nothing changes |
| PluginManager.Plugin.Shutdown | lib/plugin-manager.js:199-213 | only an enabled plugin stops: it becomes disabled and the kernel moves it from enabled to disabled; otherwise nothing changes |
| PluginManager.Plugin.Install | lib/plugin-manager.js:221-230 | the status is untouched, and the kernel files the plugin in installed and disabled |
| PluginManager.Plugin.Uninstall | lib/plugin-manager.js:238-247 | the status becomes uninstalled, and the kernel drops the name from all three maps |
| PluginManager.Kernel.constructor | lib/plugin-manager.js:316 | an environment starts with no plugin namespace |
| PluginManager.Kernel.GetPlugins | lib/plugin-manager.js:262-267 | a truthy selector gives enabled, `false` itself gives disabled, and anything else gives installed |
| PluginManager.Kernel.OnStartup | lib/plugin-manager.js:409-414 | the plugin leaves disabled and enters enabled under its name |
| PluginManager.Kernel.OnShutdown | lib/plugin-manager.js:421-426 | the plugin leaves enabled and enters disabled under its name |
| PluginManager.Kernel.OnInstall | lib/plugin-manager.js:433-437 | the plugin enters installed and disabled under its name |
| PluginManager.Kernel.OnUninstall | lib/plugin-manager.js:444-450 | the name leaves all three maps |
| PluginManager.Kernel.Initialize | lib/plugin-manager.js:273-296 | creates the maps, then installs and starts the kernel's own plugin (version 0.0.1), so the registry is the boot registry |
| PluginManager.Kernel.Install | lib/plugin-manager.js:312-328 | initialises on first use. A descriptor without a name fails (the wrapping throws) and changes nothing beyond the initialisation. Otherwise returns true iff the name was free, files a fresh disabled plugin, and matches the install step |
| PluginManager.Kernel.Startup | lib/plugin-manager.js:368-381 | false on an environment with no plugin maps (the source throws, line 266). Otherwise true iff the name was disabled. The plugin becomes enabled, the maps match the startup step, and no other plugin's status changes |
| PluginManager.Kernel.Shutdown | lib/plugin-manager.js:392-402 | false on an environment with no plugin maps (the source throws, line 266). Otherwise true iff the name was enabled. The plugin becomes disabled, the maps match the shutdown step, and no other plugin's status changes |
| PluginManager.Kernel.Uninstall | lib/plugin-manager.js:344-355 | false on an environment with no plugin maps (the source throws, line 266). Otherwise true iff the name was installed. The plugin is shut down first and marked uninstalled, the name leaves every map, and no other plugin changes |
| PluginManager.Kernel.Remove | lib/plugin-manager.js:351 | the plugin's own uninstall on a plugin that is not running: marked uninstalled and removed from the maps |
| PluginManager.Kernel.InstallThenUninstall | lib/plugin-manager.js:312-355 | on the objects: both calls succeed, and the three maps end exactly as they began |
| CommandManager.Evict | lib/command-manager.js:109-114 | eviction keeps the newest entries: a suffix of length min(length, 100) |
| CommandManager.EvictAbsorbs | lib/command-manager.js:112-114 | evicting, appending more and evicting again is the same as one eviction at the end |
| CommandManager.PushAllKeepsNewest | lib/command-manager.js:105-117 | pushing requests one by one keeps exactly the newest 100 of all of them |
| CommandManager.OneHundredFifty | lib/command-manager.js:109-114 | after 150 requests from empty, the history holds requests 50 to 149 |
| CommandManager.Normalise | lib/command-manager.js:224-236 | a function becomes `{exec, params: []}`; missing params become `[]`; a missing or empty name becomes the event's name |
| CommandManager.NormaliseIdempotent | lib/command-manager.js:227-233 | normalising an already normalised command changes nothing |
| CommandManager.ToString | lib/command-manager.js:188-193 | the result is the name, then `" - "` and the description exactly when there is a description |
| CommandManager.InstallCommand | lib/command-manager.js:224-236 | a given command is filed in installed under its normalised name; an absent one changes nothing |
| CommandManager.StartupCommand | lib/command-manager.js:238-244 | succeeds iff the name is installed, and then enables that command |
| CommandManager.ShutdownCommand | lib/command-manager.js:246-253 | succeeds iff the name is enabled, and then moves the command to disabled |
| CommandManager.UninstallCommand | lib/command-manager.js:255-265 | succeeds iff the name is enabled. The command is shut down, then removed from installed and enabled; it stays in disabled |
| CommandManager.RestartLeavesDisabledEntry | lib/command-manager.js:238-253 | a command shut down and started again sits in both enabled and disabled |
| CommandManager.StartupAllStops | lib/command-manager.js:196-210 | once a startup in the walk throws, the remaining keys change nothing |
| CommandManager.StartupAllEnablesEvery | lib/command-manager.js:196-210 | when no descriptor renames itself, every key ends up installed and enabled |
| CommandManager.ShutdownAllStops | lib/command-manager.js:212-222 | once an uninstall in the walk throws, the remaining keys change nothing |
| CommandManager.ShutdownAllRemoves | lib/command-manager.js:212-222 | a completed walk leaves none of the keys installed or enabled |
| CommandManager.StartupPluginsStops | lib/command-manager.js:295-297 | once one plugin's walk throws, the remaining plugins change nothing |
| CommandManager.StartupPluginsCompletes | lib/command-manager.js:295-297 | when no descriptor renames itself, startup over any plugins completes and keeps every command under its own name |
| CommandManager.History.constructor | lib/command-manager.js:64 | the history starts empty |
| CommandManager.History.Push | lib/command-manager.js:109-114 | push followed by front eviction: the new history is the newest 100 of the old history plus the request, with no repeats and all of them begun |
| CommandManager.Request.constructor | lib/command-manager.js:83-100 | a new request is stamped with the start time and is pending: no output, not completed, no error |
| CommandManager.Request.BeginOutput | lib/command-manager.js:105-117 | the request is marked begun with empty outputs and enters the history at its end, under the cap |
| CommandManager.Request.Output | lib/command-manager.js:140-153 | the first output begins output; every call appends exactly the content |
| CommandManager.Request.Async | lib/command-manager.js:130-134 | begins output if not yet begun; the outputs are unchanged |
| CommandManager.Request.Done | lib/command-manager.js:158-168 | completed, with end = now and duration = now − start; the content is output only when it is given |
| CommandManager.Request.DoneWithError | lib/command-manager.js:122-125 | sets the error flag, then behaves as `done` |
| CommandManager.Request.BeginOutputAsWritten | lib/command-manager.js:105-117 | as written: the request is marked begun with empty outputs and pushed into the history under the cap, then the call to the module's missing `_emit` throws |
| CommandManager.Request.OutputAsWritten | lib/command-manager.js:140-153 | as written: throws iff output had not begun. The first call leaves the outputs empty and the request in the history; later calls append exactly the content |
| CommandManager.Request.AsyncAsWritten | lib/command-manager.js:130-134 | as written: throws iff output had not begun, and then the request has entered the history; the outputs are unchanged |
| CommandManager.Request.DoneAsWritten | lib/command-manager.js:158-168 | as written: completed and stamped first; throws iff content is given and output had not begun, and then the content is lost |
| CommandManager.Request.DoneWithErrorAsWritten | lib/command-manager.js:122-125 | as written: sets the error flag, then behaves as `done` as written |
| CommandManager.FirstOutputLost | lib/command-manager.js:105-153 | a fresh request's first `output("x")` throws, leaves the request in the history and its outputs empty |
| CommandManager.Execute | lib/command-manager.js:179-187 | the request handed to `exec` carries the command, the params and the start time, and is pending |
| CommandManager.UninstallKeepsCommands | lib/command-manager.js:317-320 | with the uninstall as written, the namespace survives an uninstall |
| CommandManager.CommandManager.constructor | lib/command-manager.js:313-316 | an environment starts with no command namespace |
| CommandManager.CommandManager.Install | lib/command-manager.js:313-316 | creates three empty command maps |
| CommandManager.CommandManager.Uninstall | lib/command-manager.js:317-320 | removes the command namespace |
| CommandManager.CommandManager.UninstallAsWritten | lib/command-manager.js:318 | the uninstall as written always fails and changes nothing |
| CommandManager.CommandManager.OnCommandInstall | lib/command-manager.js:224-236 | the maps become the install-command step of the old maps |
| CommandManager.CommandManager.OnCommandStartup | lib/command-manager.js:238-244 | the maps and the outcome are the startup-command step |
| CommandManager.CommandManager.OnCommandShutdown | lib/command-manager.js:246-253 | the maps and the outcome are the shutdown-command step |
| CommandManager.CommandManager.OnCommandUninstall | lib/command-manager.js:255-265 | emits `command:shutdown` first; the maps and the outcome are the uninstall-command step |
| CommandManager.CommandManager.OnCommandExecute | lib/command-manager.js:267-275 | runs, and sets `stop`, exactly when the name is enabled; the request carries that command |
| CommandManager.CommandManager.OnPluginStartup | lib/command-manager.js:196-210 | install then startup for each key, in order, stopping at the first throw: the startup walk |
| CommandManager.CommandManager.OnPluginShutdown | lib/command-manager.js:212-222 | uninstall for each key, in order, stopping at the first throw: the shutdown walk |
| CommandManager.CommandManager.Startup | lib/command-manager.js:280-298 | the plugin-startup listener run for each plugin, in order |
| TypeManager.BaseOf | lib/type-manager.js:150-157 | a base counts only when it is a non-empty name |
| TypeManager.MakeType | lib/type-manager.js:51-66 | named by the key. A function, or an object with its own `suggest`, keeps its suggester; an array, or an object without `suggest`, is searched by grep; only the kept object keeps its base |
| TypeManager.InvalidValue | lib/type-manager.js:93-95 | the message is ``Invalid value: `input` for type `name`.`` |
| TypeManager.ValueOf | lib/type-manager.js:90-98 | Ok iff exactly one suggestion remains, and then it is that suggestion; otherwise the invalid-value error naming the input and the type |
| TypeManager.GetDefaultAsWritten | lib/type-manager.js:87-89 | the default as written is always undefined |
| TypeManager.GetDefault | lib/type-manager.js:82-89 | the first suggestion, or undefined when there is none |
| TypeManager.DefaultAgreesWithValueOf | lib/type-manager.js:82-98 | whenever an input resolves, the default is the resolved value |
| TypeManager.GetDefaultDropsSuggestion | lib/type-manager.js:87-89 | a type with a real first suggestion gets undefined from the default as written |
| TypeManager.Increment | lib/type-manager.js:72-74 | no type has a next value |
| TypeManager.Decrement | lib/type-manager.js:79-81 | no type has a previous value |
| TypeManager.GetType | lib/type-manager.js:138-145 | `true` looks in enabled, `false` in disabled, and anything else in enabled and then disabled |
| TypeManager.InstallType | lib/type-manager.js:126-131 | the type is enabled under its name and removed from disabled |
| TypeManager.Register | lib/type-manager.js:147-173 | installs iff there is no base or the base is enabled; otherwise a failure signal with "base type is not registered", and nothing changes |
| TypeManager.RegisterKeyed | lib/type-manager.js:147-173 | registration keeps every type filed under its own name |
| TypeManager.RegisteredIsEnabled | lib/type-manager.js:126-145 | a registered type is found among the enabled types, and not among the disabled ones |
| TypeManager.SetTypeCommand | lib/type-manager.js:187-193 | resolves the value with the enabled type of that name; the value is untouched when there is no such type |
| TypeManager.RegisterAll | lib/type-manager.js:103-110 | one signal per key |
| TypeManager.RegisterAllKeyed | lib/type-manager.js:103-110 | the walk keeps every type filed under its own name |
| TypeManager.RegisterAllKeeps | lib/type-manager.js:103-110 | an enabled type stays enabled for the rest of the walk |
| TypeManager.RegisterAllAvoids | lib/type-manager.js:103-110 | a name no key in between mentions does not become enabled |
| TypeManager.BaseFirstInstalls | lib/type-manager.js:147-162 | a type whose base comes earlier in the same endpoint, and installs, is installed |
| TypeManager.DerivedFirstFails | lib/type-manager.js:153-172 | registration is one-shot: a type reached before its base stays unregistered even if the base registers later |
| TypeManager.RegisterPluginsKeyed | lib/type-manager.js:203-206 | replaying every plugin keeps types under their names and emits one signal per listed type |
| TypeManager.TypeManager.constructor | lib/type-manager.js:221-223 | an environment starts with no type namespace |
| TypeManager.TypeManager.Install | lib/type-manager.js:221-223 | creates empty type maps |
| TypeManager.TypeManager.Uninstall | lib/type-manager.js:225-227 | removes the type namespace |
| TypeManager.TypeManager.OnTypeInstall | lib/type-manager.js:126-131 | the maps become the install-type step |
| TypeManager.TypeManager.RegisterType | lib/type-manager.js:147-173 | the maps and the signal are the register step, and the signal is recorded |
| TypeManager.TypeManager.OnPluginStartup | lib/type-manager.js:103-110 | registers each key in order: the register walk |
| TypeManager.TypeManager.OnPluginShutdown | lib/type-manager.js:114-124 | fails as soon as the plugin lists a type; otherwise succeeds; nothing changes |
| TypeManager.TypeManager.Startup | lib/type-manager.js:195-207 | the plugin-startup listener replayed for each plugin |
| TypeManager.TypeManager.Shutdown | lib/type-manager.js:209-219 | fails unless no type is enabled; nothing changes |
| SettingsManager.MakeSetting | lib/settings-manager.js:46-57 | named by the key and keeps the type; a falsy default becomes null |
| SettingsManager.RewrapRenames | lib/settings-manager.js:50-53 | wrapping a wrapped setting again under another name renames it and keeps its type and default |
| SettingsManager.Key | lib/settings-manager.js:73-75 | the key is `"setting:"` followed by the name |
| SettingsManager.KeyInjective | lib/settings-manager.js:73-80 | different settings never share a key |
| SettingsManager.KeyNotReserved | lib/settings-manager.js:73-80 | no setting key is a name the environment reserves |
| SettingsManager.Get | lib/settings-manager.js:73-75 | the value under the key, read through the parent chain |
| SettingsManager.GetAgreesWithEnvGet | lib/settings-manager.js:73-75 | reading the setting equals the environment's `get` of its key |
| SettingsManager.Set | lib/settings-manager.js:76-90 | true iff the value differs from the current one. The value is then written on this environment and `setting:set` is emitted; otherwise nothing changes. Afterwards the setting reads the value |
| SettingsManager.Reset | lib/settings-manager.js:91-104 | true iff the current value is not the default. It emits `setting:reset`, then sets the default; afterwards the setting reads the default |
| SettingsManager.ResetAsWritten | lib/settings-manager.js:94-99 | the reset as written throws exactly when the current value is not the default |
| SettingsManager.ResetAfterSetThrows | lib/settings-manager.js:91-104 | after setting a non-default value, the reset as written throws and the value stays |
| SettingsManager.SetAndResetTwice | lib/settings-manager.js:76-104 | a repeated set changes nothing; reset restores the default, and a second reset changes nothing |
| SettingsManager.Wrap | lib/settings-manager.js:117-125 | one wrapped setting per key, in order |
| SettingsManager.InstallAllSpec | lib/settings-manager.js:117-125 | every key is installed with its wrapped setting, nothing else changes, and settings stay under their names |
| SettingsManager.UninstallSetting | lib/settings-manager.js:134-155 | succeeds iff the key is installed, and then removes it |
| SettingsManager.UninstallAllStops | lib/settings-manager.js:130-142 | once a key is not installed, the walk throws and the remaining keys change nothing |
| SettingsManager.UninstallAllSpec | lib/settings-manager.js:130-142 | with distinct installed keys, the walk completes and removes exactly those keys |
| SettingsManager.StartupThenShutdown | lib/settings-manager.js:109-155 | starting a plugin with new settings and shutting it down restores the installed settings exactly |
| SettingsManager.InstallPluginsCovers | lib/settings-manager.js:256-259 | startup over some plugins keeps every installed setting and installs every key any plugin lists |
| SettingsManager.SettingsManager.constructor | lib/settings-manager.js:228-229 | an environment starts with no settings namespace |
| SettingsManager.SettingsManager.Install | lib/settings-manager.js:228-231 | creates empty settings maps |
| SettingsManager.SettingsManager.Uninstall | lib/settings-manager.js:233-235 | removes the settings namespace |
| SettingsManager.SettingsManager.OnSettingInstall | lib/settings-manager.js:144-151 | files the setting under its name |
| SettingsManager.SettingsManager.OnSettingUninstall | lib/settings-manager.js:153-155 | removes the setting filed under its name |
| SettingsManager.SettingsManager.OnPluginStartup | lib/settings-manager.js:109-127 | one `setting:install` per key, in order |
| SettingsManager.SettingsManager.OnPluginShutdown | lib/settings-manager.js:130-142 | one `setting:uninstall` per key, stopping at the first key with nothing installed |
| SettingsManager.SettingsManager.Startup | lib/settings-manager.js:237-260 | the plugin-startup listener run for each plugin, in order |
| Endpoints.Keys | lib/abstract-manager.js:71 | the keys of an endpoint, in iteration order |
| Endpoints.AssignKeys | lib/abstract-manager.js:71-74 | assigning adds exactly the endpoint's keys |
| Endpoints.AssignLast | lib/abstract-manager.js:71-74 | a key holds the value of its last entry |
| Endpoints.AssignOther | lib/abstract-manager.js:71-74 | a key the endpoint does not list keeps its value |
| AbstractManager.DefaultTypes | lib/abstract-manager.js:51-54 | the given types, plus a selection type over the manager's names under its own name when none is given |
| AbstractManager.DefaultSettings | lib/abstract-manager.js:56-59 | the given settings, plus a setting typed by the manager's name when none is given |
| AbstractManager.IndexOf | lib/abstract-manager.js:82 | the first position holding the name, and −1 iff it is absent |
| AbstractManager.SpliceOut | lib/abstract-manager.js:82 | removes the first occurrence. An absent name removes the last element instead (index −1), and an empty list stays empty |
| AbstractManager.SpliceOutRemovesOne | lib/abstract-manager.js:82 | a present name loses exactly one occurrence, as a multiset |
| AbstractManager.Unassign | lib/abstract-manager.js:79-84 | the map without the listed keys; every other key keeps its value |
| AbstractManager.SpliceAllMultiset | lib/abstract-manager.js:79-84 | splicing out present names removes exactly one occurrence of each |
| AbstractManager.SpliceAllSuffix | lib/abstract-manager.js:79-84 | unplugging names appended after names they do not occur in removes exactly the appended ones, in order |
| AbstractManager.ListenerAsWritten | lib/abstract-manager.js:67-85 | the plug and unplug listeners as written always throw |
| AbstractManager.ListenersAsWrittenDoNothing | lib/abstract-manager.js:67-85 | a plugin offering a key is neither stored nor removed by the listeners as written |
| AbstractManager.Manager.constructor | lib/abstract-manager.js:42-65 | empty plugins and names; default types and settings under the manager's name |
| AbstractManager.Manager.OnPlug | lib/abstract-manager.js:67-76 | every key of the endpoint, in order, is stored in plugins and appended to names |
| AbstractManager.Manager.OnUnplug | lib/abstract-manager.js:77-85 | every key is deleted from plugins and spliced out of names |
| AbstractManager.Manager.Startup | lib/abstract-manager.js:86-94 | plug is replayed for every plugin handed over |
| AbstractManager.Offered | lib/abstract-manager.js:70 | a plugin without the endpoint offers nothing |
| AbstractManager.PlugAllIsHarvest | lib/abstract-manager.js:91-93 | plugging plugins one by one stores everything they offer, in order |
| AbstractManager.HarvestKeysAre | lib/abstract-manager.js:91-93 | the names appended by plugging plugins one by one are the keys of everything they offer |
| AbstractManager.PlugThenUnplug | lib/abstract-manager.js:67-85 | plugging new keys and unplugging them restores plugins exactly |
| AbstractManager.PlugThenUnplugOrder | lib/abstract-manager.js:67-85 | plugging new names and unplugging them restores names exactly, in order |
| AbstractManager.PlugThenUnplugNames | lib/abstract-manager.js:67-85 | whatever was plugged, unplugging the same keys restores names as a multiset |

## Left out

- Plugin authors' own hooks (`startup`/`plug`, `shutdown`/`unplug`, `install`, `uninstall` on a descriptor) are outside code. They are modelled as doing nothing. The `data` object handed to them (its `reason` and `plugins`) is not modelled, and neither are the reason constants.
- Re-wrapping an existing plugin or setting (`descriptor.constructor === Plugin`/`Setting`) is not modelled for plugins, because descriptors are values here. For settings, only the renaming it causes is stated (`RewrapRenames`).
- The source writes defaults back into the caller's descriptor: the plugin version, command `params` and `name`, the setting `name` and `defaultValue`, and the type `name`. Descriptors are values here, so that side effect is not visible.
- Keys inherited from `Object.prototype` (`"toString"`, `"constructor"`, …) look present in every JavaScript map. The source's `name in types` and `getPlugins(env)[name]` therefore treat them as taken. The model's maps have no such keys.
- PluginManager.Kernel.Install: does not model that an install under an inherited key such as `"toString"` returns false, for the reason above.
- Listener registration (`env.on`, `env.removeListener`) is not modelled, and neither is the event emitter behind `_emit`. The listeners a manager registers are called directly. The command manager's `shutdown` only removes listeners, so it is not modelled.
- `console.log` in `install` is I/O and is not modelled.
- The request's own `output` notifications (`this._emit('output', {})` in `output` and `done`) are not modelled, because their listeners live outside these files. The module-level notification in `_beginOutput` is listed under Findings: the module has no `_emit`.
- CommandManager.Request.Output: models the evident intent. As written, the first call on a request throws before the content is appended (see `OutputAsWritten` and Findings).
- CommandManager.Request.Async: models the evident intent. As written, the first call enters the history and then throws (see `AsyncAsWritten`).
- CommandManager.Request.Done: models the evident intent. As written, a given content on a request with no earlier output throws after the request is completed and is lost (see `DoneAsWritten`).
- CommandManager.Request.DoneWithError: models the evident intent, as `Done` does (see `DoneWithErrorAsWritten`).
- CommandManager.Request.BeginOutput: models the evident intent without the module-level notification. `requests.shiftObject()` is not a standard array method; it is modelled as removing the first element, as its name and the eviction comment say.
- PluginManager.Plugin.constructor: requires a named descriptor. A descriptor without a name makes the wrapping throw (`Trait.required`); that case is modelled in `Kernel.Install`, which returns false.
- A command without `exec` and a setting without `type` also make the wrapping throw (`Trait.required`). The model's command and setting descriptors always carry these fields, so that error is not modelled.
- `exports.types.command = env.commands.enabled` and `exports.types.setting = env.settings.installed` are not modelled. These aliases only expose the maps to other plugins.
- Request output content is a string. The conversion of other values with `toString`, and DOM nodes, are not modelled.
- The clock (`new Date()`) is a parameter `now` in milliseconds. Request options other than command, params and typed are dropped. `params || {}` is not modelled; params pass through as given.
- The command's `exec` function is outside code: `Execute` builds the request that `exec` would receive, and `exec` itself does not run.
- `lib/grep.js` is not part of this model. A type's suggestions come from an oracle parameter that stands for both the plugin's own `suggest` functions and grep.
- TypeManager.InvalidValue: the message is built by plain concatenation. The source fills it with `String.prototype.replace`, so a `$` pattern in the input, or `{{value}}` inside a type name, would come out differently.
- The type manager's `type:failure` listener is never registered, so a failed registration changes no map and `types.disabled` stays empty. `types.installed` is never written.
- TypeManager.TypeManager.OnPluginShutdown: modelled as written. The listener calls an `unregister` that does not exist in the file, so it throws for any plugin that lists a type. No intended behaviour can be recovered from it.
- TypeManager.TypeManager.Shutdown: modelled as written. It throws on the first enabled type, because the `type:uninstall` export does not exist.
- The settings manager's `onSet` and its `set` command (which only re-emit `setting:set`) are not modelled. The listener's registration is commented out in the source, and the command only relays its parameters.
- The settings manager's `unregister` is not modelled, because nothing calls it.
- The settings manager's no-op `setting:reset`, `type:install` and `type:uninstall` listeners are not modelled. The namespace's `enabled` and `disabled` maps are created but never written.
- The settings manager's `shutdown` is not modelled: it removes listeners, then calls an `onPluginShutdown` that is not in scope, so it throws for any plugin.
- The generic manager's `shutdown` is not modelled: it iterates a `plugins` variable that is not declared (it declares `plugin`), so it always throws.
- The generic manager's `startup` also stores the manager on the environment's prototype. This is not modelled.
- The generic manager constructor's `new`-less call, its method binding, and its writes into the caller's `options.types` and `options.settings` objects are not modelled.
- The model follows the evident intent at six places where the code as written throws: the plugin `uninstall`, the command manager's `uninstall`, the request's `_beginOutput`, settings `reset`, and the generic manager's `onPlug` and `onUnplug`. Each is listed under Findings with its as-written member.
- `Env.Reserved` holds the environment's methods, the emitter methods the kernel uses, and the common `Object.prototype` members. Other inherited names (`__proto__`, `__defineGetter__`, …) are not in it.
- Property reads that fall through to `Object.prototype` return undefined in the model.

The code and the design notes disagree in two places. This model follows the code in both:

- The design notes name a dedicated error for an input that does not resolve. The code throws a `TypeError` with the invalid-value message.
- The notes describe `installed = enabled ∪ disabled` for every registry. The command maps do not keep it: a command shut down and started again stays in `disabled` (`RestartLeavesDisabledEntry`).

## Findings

| source | as written | input that shows it | evidently intended | confidence | as-written member | corrected member |
|---|---|---|---|---|---|---|
| lib/type-manager.js:87-89 | `getDefault` computes the first suggestion without `return`, so it always yields undefined | a type whose suggestions are `["a"]` | return the first suggestion | not executed; high | TypeManager.GetDefaultDropsSuggestion | TypeManager.DefaultAgreesWithValueOf |
| lib/settings-manager.js:94-99 | `reset` builds its event from `value`, which is never declared; in strict mode this throws | setting `tabsize` with default 4, set to 8, then reset | emit the default and set it | not executed; high | SettingsManager.ResetAfterSetThrows | SettingsManager.SetAndResetTwice |
| lib/plugin-manager.js:349 | `uninstall` calls a bare `shutdown`, which is not in scope (the exported one is a named function expression) | install plugin `"p"`, then uninstall `"p"` | call the exported `shutdown` | not executed; high | PluginManager.UninstallAsWrittenThrows | PluginManager.InstallThenUninstall |
| lib/command-manager.js:318 | `uninstall` passes an undeclared `env` to `shutdown`, which throws before the namespace is deleted | `install`, then `uninstall` | use `event.env` | not executed; high | CommandManager.UninstallKeepsCommands | CommandManager.CommandManager.Uninstall |
| lib/command-manager.js:116 | `_beginOutput` ends with `exports._emit(...)`, but the module never defines `_emit`, so it throws after the request was marked and pushed into the history, and the first content is never appended | a fresh request, then `output("x")` | notify the history's listeners and go on to append | not executed; high | CommandManager.FirstOutputLost | CommandManager.Request.Output |
| lib/abstract-manager.js:70 | `onPlug` assigns to the undeclared `extensions` (it declares `extension`); in strict mode this throws | a plugin whose endpoint is `{a: 1}` | declare `extensions` | not executed; high | AbstractManager.ListenersAsWrittenDoNothing | AbstractManager.PlugThenUnplug |
| lib/abstract-manager.js:79 | `onUnplug` reads `data.plugin`, but its parameter is `plugin` and no `data` exists | unplugging a plugin whose endpoint is `{a: 1}` | name the parameter `data` | not executed; high | AbstractManager.ListenersAsWrittenDoNothing | AbstractManager.PlugThenUnplugOrder |

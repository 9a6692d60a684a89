/** The command subsystem: command descriptors normalised into commands, the
    `installed`/`enabled`/`disabled` command maps kept by the `command:*` listeners,
    and `Request` records with the process-wide request history capped at 100. */
module CommandManager {
  import opened Values
  import opened Endpoints

  // ---------------------------------------------------------------------------
  // Request history

  /** How many requests the history keeps. */
  const MaxRequestLength := 100

  /** The history after entries were added at its end: only the newest
      `MaxRequestLength` are kept, the oldest are dropped from the front. */
  function Evict<T>(s: seq<T>): (r: seq<T>)
    ensures |r| == if |s| <= MaxRequestLength then |s| else MaxRequestLength
    ensures r == s[|s| - |r|..]
  {
    if |s| <= MaxRequestLength then s else s[|s| - MaxRequestLength..]
  }

  /** The history after requests begin output one at a time, each push followed by eviction. */
  function PushAll<T>(h: seq<T>, rs: seq<T>): seq<T>
    decreases |rs|
  {
    if rs == [] then h else PushAll(Evict(h + [rs[0]]), rs[1..])
  }

  /** Evicting twice is evicting once over everything that was added. */
  lemma EvictAbsorbs<T>(a: seq<T>, b: seq<T>)
    ensures Evict(Evict(a) + b) == Evict(a + b)
  {
    var e := Evict(a);
    assert e + b == (a + b)[|a| - |e|..];
  }

  /** Pushing requests one at a time onto a history that respects the cap keeps
      exactly the newest `MaxRequestLength` of all of them. */
  lemma {:induction false} PushAllKeepsNewest<T>(h: seq<T>, rs: seq<T>)
    requires |h| <= MaxRequestLength
    ensures PushAll(h, rs) == Evict(h + rs)
    decreases |rs|
  {
    if rs != [] {
      var a := h + [rs[0]];
      PushAllKeepsNewest(Evict(a), rs[1..]);
      EvictAbsorbs(a, rs[1..]);
      PushSplit(h, rs);
    }
  }

  /** Adding the first request and then the rest is adding them all. */
  lemma PushSplit<T>(h: seq<T>, rs: seq<T>)
    requires rs != []
    ensures h + [rs[0]] + rs[1..] == h + rs
  {
    assert [rs[0]] + rs[1..] == rs;
  }

  /** From an empty history, after 150 requests the oldest 50 have been evicted. */
  lemma OneHundredFifty<T>(rs: seq<T>)
    requires |rs| == 150
    ensures PushAll([], rs) == rs[50..]
  {
    PushAllKeepsNewest([], rs);
    assert [] + rs == rs;
  }

  // ---------------------------------------------------------------------------
  // Commands

  /** A normalised command (`TCommand`); `exec` is the identity of its function. */
  datatype Command = Command(name: string, params: seq<Value>, exec: nat, description: Option<string>)

  /** What a plugin lists under `commands`: a bare function, or an object whose
      `name` and `params` may be missing. */
  datatype CommandSpec =
    | Exec(fn: nat)
    | Spec(name: Option<string>, params: Option<seq<Value>>, exec: nat, description: Option<string>)

  predicate Given(s: Option<string>) {
    s.Some? && s.value != ""
  }

  /** `command:install` normalisation: a function becomes `{exec, params: []}`, a
      missing `params` becomes `[]`, a missing (or empty) `name` becomes the event's name. */
  function Normalise(eventName: string, spec: CommandSpec): (c: Command)
    ensures spec.Exec? ==> c == Command(eventName, [], spec.fn, None)
    ensures spec.Spec? ==> c.exec == spec.exec && c.description == spec.description
    ensures spec.Spec? ==> c.params == (if spec.params.Some? then spec.params.value else [])
    ensures spec.Spec? && Given(spec.name) ==> c.name == spec.name.value
    ensures spec.Spec? && !Given(spec.name) ==> c.name == eventName
  {
    match spec
    case Exec(fn) => Command(eventName, [], fn, None)
    case Spec(name, params, exec, description) =>
      Command(if Given(name) then name.value else eventName,
              if params.Some? then params.value else [], exec, description)
  }

  /** The descriptor a command would be written as. */
  function AsSpec(c: Command): CommandSpec {
    Spec(Some(c.name), Some(c.params), c.exec, c.description)
  }

  /** Normalising is idempotent: a command installed again under any event name
      comes back unchanged, as long as it has a name. */
  lemma NormaliseIdempotent(eventName: string, spec: CommandSpec, other: string)
    requires eventName != ""
    ensures Normalise(other, AsSpec(Normalise(eventName, spec))) == Normalise(eventName, spec)
  {
  }

  /** `TCommand.toString`: the name, then " - " and the description when there is one. */
  function ToString(c: Command): (r: string)
    ensures |r| >= |c.name| && r[..|c.name|] == c.name
    ensures Given(c.description) ==> r[|c.name|..] == " - " + c.description.value
    ensures !Given(c.description) <==> r == c.name
  {
    if Given(c.description) then c.name + " - " + c.description.value else c.name
  }

  /** The three command maps as values. */
  datatype Maps = Maps(installed: map<string, Command>, enabled: map<string, Command>, disabled: map<string, Command>)

  /** What the listeners keep true: every command is filed under its own name and
      every enabled command is installed. (A shut-down command stays in `disabled`
      after a later startup or uninstall, so the plugin kernel's disjoint-union
      invariant does not hold here.) */
  ghost predicate Keyed(m: Maps) {
    m.enabled.Keys <= m.installed.Keys &&
    (forall n :: n in m.installed ==> m.installed[n].name == n) &&
    (forall n :: n in m.enabled ==> m.enabled[n].name == n) &&
    (forall n :: n in m.disabled ==> m.disabled[n].name == n)
  }

  /** `command:install`: stores the normalised command under its own name. */
  function InstallCommand(m: Maps, eventName: string, command: Option<CommandSpec>): (r: Maps)
    ensures command.None? ==> r == m
    ensures command.Some? ==> r == m.(installed := m.installed[Normalise(eventName, command.value).name := Normalise(eventName, command.value)])
    ensures Keyed(m) ==> Keyed(r)
  {
    if command.None? then m
    else
      var c := Normalise(eventName, command.value);
      m.(installed := m.installed[c.name := c])
  }

  /** `command:startup`: enables the installed command of that name; false where
      the listener would throw because nothing is installed under the name. */
  function StartupCommand(m: Maps, name: string): (r: (Maps, bool))
    ensures r.1 <==> name in m.installed
    ensures !r.1 ==> r.0 == m
    ensures r.1 && Keyed(m) ==> r.0 == m.(enabled := m.enabled[name := m.installed[name]])
    ensures Keyed(m) ==> Keyed(r.0)
  {
    if name in m.installed then
      var c := m.installed[name];
      (m.(enabled := m.enabled[c.name := c]), true)
    else (m, false)
  }

  /** `command:shutdown`: moves the enabled command to `disabled`; false where the
      listener would throw because the name is not enabled. */
  function ShutdownCommand(m: Maps, name: string): (r: (Maps, bool))
    ensures r.1 <==> name in m.enabled
    ensures !r.1 ==> r.0 == m
    ensures r.1 && Keyed(m) ==> r.0 == m.(enabled := m.enabled - {name}, disabled := m.disabled[name := m.enabled[name]])
    ensures Keyed(m) ==> Keyed(r.0)
  {
    if name in m.enabled then
      var c := m.enabled[name];
      (m.(enabled := m.enabled - {c.name}, disabled := m.disabled[c.name := c]), true)
    else (m, false)
  }

  /** `command:uninstall`: shuts the command down (which leaves it in `disabled`),
      then removes it from `enabled` and `installed`; false where the shutdown throws. */
  function UninstallCommand(m: Maps, name: string): (r: (Maps, bool))
    ensures r.1 <==> name in m.enabled
    ensures !r.1 ==> r.0 == m
    ensures r.1 ==> name !in r.0.installed && name !in r.0.enabled
    ensures r.1 && Keyed(m) ==> r.0.installed == m.installed - {name} && r.0.enabled == m.enabled - {name}
    ensures r.1 && Keyed(m) ==> r.0.disabled == m.disabled[name := m.enabled[name]]
    ensures Keyed(m) ==> Keyed(r.0)
  {
    var (down, ok) := ShutdownCommand(m, name);
    if ok then (down.(enabled := down.enabled - {name}, installed := down.installed - {name}), true)
    else (m, false)
  }

  /** A command shut down and started again is in both `enabled` and `disabled`. */
  lemma RestartLeavesDisabledEntry(m: Maps, name: string)
    requires Keyed(m) && name in m.enabled
    ensures var down := ShutdownCommand(m, name).0;
            var up := StartupCommand(down, name).0;
            name in up.enabled && name in up.disabled
  {
  }

  /** The command `plugin:startup` listener over a plugin's `commands` endpoint:
      for each key, `command:install` then `command:startup`; the first startup that
      throws ends the walk. */
  function StartupAll(m: Maps, es: Entries<CommandSpec>): (Maps, bool)
    decreases |es|
  {
    if es == [] then (m, true)
    else
      var (p, ok) := StartupAll(m, es[..|es| - 1]);
      if !ok then (p, false)
      else
        var e := es[|es| - 1];
        StartupCommand(InstallCommand(p, e.0, Some(e.1)), e.0)
  }

  /** Once the walk has stopped, later entries change nothing. */
  lemma {:induction false} StartupAllStops(m: Maps, es: Entries<CommandSpec>, i: nat)
    requires i <= |es|
    requires !StartupAll(m, es[..i]).1
    ensures StartupAll(m, es) == StartupAll(m, es[..i])
    decreases |es|
  {
    if i < |es| {
      assert es[..|es| - 1][..i] == es[..i];
      StartupAllStops(m, es[..|es| - 1], i);
    } else {
      assert es[..i] == es;
    }
  }

  /** A command descriptor that does not rename itself away from its key. */
  predicate KeepsKey(e: (string, CommandSpec)) {
    e.1.Exec? || !Given(e.1.name) || e.1.name.value == e.0
  }

  /** When no descriptor renames itself, the walk runs to the end and every key is
      installed and enabled. */
  lemma {:induction false} StartupAllEnablesEvery(m: Maps, es: Entries<CommandSpec>)
    requires Keyed(m)
    requires forall i :: 0 <= i < |es| ==> KeepsKey(es[i])
    ensures StartupAll(m, es).1
    ensures Keyed(StartupAll(m, es).0)
    ensures forall i :: 0 <= i < |es| ==> es[i].0 in StartupAll(m, es).0.enabled && es[i].0 in StartupAll(m, es).0.installed
    decreases |es|
  {
    if es != [] {
      var init := es[..|es| - 1];
      StartupAllEnablesEvery(m, init);
      var p := StartupAll(m, init).0;
      var e := es[|es| - 1];
      var q := InstallCommand(p, e.0, Some(e.1));
      assert Normalise(e.0, e.1).name == e.0;
      assert e.0 in q.installed;
      var r := StartupCommand(q, e.0).0;
      forall i | 0 <= i < |es|
        ensures es[i].0 in r.enabled && es[i].0 in r.installed
      {
        if i < |es| - 1 {
          assert init[i] == es[i];
        }
      }
    }
  }

  /** The command `plugin:shutdown` listener: `command:uninstall` for each key; the
      first one that throws ends the walk. */
  function ShutdownAll(m: Maps, names: seq<string>): (Maps, bool)
    decreases |names|
  {
    if names == [] then (m, true)
    else
      var (p, ok) := ShutdownAll(m, names[..|names| - 1]);
      if !ok then (p, false)
      else UninstallCommand(p, names[|names| - 1])
  }

  lemma {:induction false} ShutdownAllStops(m: Maps, names: seq<string>, i: nat)
    requires i <= |names|
    requires !ShutdownAll(m, names[..i]).1
    ensures ShutdownAll(m, names) == ShutdownAll(m, names[..i])
    decreases |names|
  {
    if i < |names| {
      assert names[..|names| - 1][..i] == names[..i];
      ShutdownAllStops(m, names[..|names| - 1], i);
    } else {
      assert names[..i] == names;
    }
  }

  /** A completed walk leaves none of the names installed or enabled. */
  lemma {:induction false} ShutdownAllRemoves(m: Maps, names: seq<string>)
    requires ShutdownAll(m, names).1
    ensures forall i :: 0 <= i < |names| ==> names[i] !in ShutdownAll(m, names).0.installed && names[i] !in ShutdownAll(m, names).0.enabled
    decreases |names|
  {
    if names != [] {
      var init := names[..|names| - 1];
      var (p, ok) := ShutdownAll(m, init);
      assert ok;
      ShutdownAllRemoves(m, init);
      forall i | 0 <= i < |init|
        ensures names[i] !in ShutdownAll(m, names).0.installed && names[i] !in ShutdownAll(m, names).0.enabled
      {
        assert init[i] == names[i];
      }
    }
  }

  /** The manager's own `startup`: the `plugin:startup` listener run directly for
      every plugin it is handed, in order; the first walk that throws ends it. */
  function StartupPlugins(m: Maps, ps: seq<Option<Entries<CommandSpec>>>): (Maps, bool)
    decreases |ps|
  {
    if ps == [] then (m, true)
    else
      var (p, ok) := StartupPlugins(m, ps[..|ps| - 1]);
      if !ok || ps[|ps| - 1].None? then (p, ok)
      else StartupAll(p, ps[|ps| - 1].value)
  }

  lemma {:induction false} StartupPluginsStops(m: Maps, ps: seq<Option<Entries<CommandSpec>>>, i: nat)
    requires i <= |ps|
    requires !StartupPlugins(m, ps[..i]).1
    ensures StartupPlugins(m, ps) == StartupPlugins(m, ps[..i])
    decreases |ps|
  {
    if i < |ps| {
      assert ps[..|ps| - 1][..i] == ps[..i];
      StartupPluginsStops(m, ps[..|ps| - 1], i);
    } else {
      assert ps[..i] == ps;
    }
  }

  /** When no plugin's command descriptor renames itself, starting the manager over
      any plugins runs to the end and keeps every command filed under its own name. */
  lemma {:induction false} StartupPluginsCompletes(m: Maps, ps: seq<Option<Entries<CommandSpec>>>)
    requires Keyed(m)
    requires forall j :: 0 <= j < |ps| && ps[j].Some? ==>
               forall i :: 0 <= i < |ps[j].value| ==> KeepsKey(ps[j].value[i])
    ensures StartupPlugins(m, ps).1 && Keyed(StartupPlugins(m, ps).0)
    decreases |ps|
  {
    if ps != [] {
      var init := ps[..|ps| - 1];
      assert forall j :: 0 <= j < |init| ==> init[j] == ps[j];
      StartupPluginsCompletes(m, init);
      var last := ps[|ps| - 1];
      if last.Some? {
        StartupAllEnablesEvery(StartupPlugins(m, init).0, last.value);
      }
    }
  }

  // ---------------------------------------------------------------------------
  // Objects

  /** No request appears twice. */
  predicate Distinct(s: seq<Request>) {
    forall i, j :: 0 <= i < j < |s| ==> s[i] != s[j]
  }

  /** Every request listed has begun output. */
  ghost predicate AllBegun(s: seq<Request>)
    reads set i | 0 <= i < |s| :: s[i]
  {
    forall i :: 0 <= i < |s| ==> s[i].begunOutput
  }

  /** Dropping requests from the front keeps both properties. */
  lemma SuffixKeeps(s: seq<Request>, k: nat)
    requires k <= |s| && AllBegun(s) && Distinct(s)
    ensures AllBegun(s[k..]) && Distinct(s[k..])
  {
    assert forall i :: 0 <= i < |s| - k ==> s[k..][i] == s[k + i];
  }

  /** The module-level `requests` array. */
  class History {
    var requests: seq<Request>

    /** Within the cap, each request at most once, and only requests that began output. */
    ghost predicate Valid()
      reads this, set i | 0 <= i < |requests| :: requests[i]
    {
      |requests| <= MaxRequestLength && AllBegun(requests) && Distinct(requests)
    }

    constructor ()
      ensures Valid() && requests == []
    {
      requests := [];
    }

    /** The history half of `_beginOutput`: the request is pushed at the end, then
        the oldest entries are shifted off the front until the cap holds again. */
    method Push(r: Request)
      requires Valid() && r.begunOutput && r !in requests
      modifies this
      ensures Valid()
      ensures requests == Evict(old(requests) + [r])
    {
      ghost var full := requests + [r];
      assert AllBegun(full) && Distinct(full);
      requests := requests + [r];
      while |requests| > MaxRequestLength
        invariant |requests| <= |full|
        invariant requests == full[|full| - |requests|..]
        invariant |requests| >= MaxRequestLength || requests == full
      {
        requests := requests[1..];
      }
      SuffixKeeps(full, |full| - |requests|);
    }
  }

  /** One command invocation (`Request`/`TRequest`). */
  class Request {
    const start: int
    const command: Command
    const params: Value
    const typed: Value
    var begunOutput: bool
    var outputs: seq<string>
    var completed: bool
    var error: bool
    var end: Option<int>
    var duration: Option<int>

    /** Nothing is output before output has begun. */
    ghost predicate Valid()
      reads this
    {
      !begunOutput ==> outputs == []
    }

    /** `Request(options)`: stamped with the start time, pending, no output, not in history. */
    constructor (command: Command, params: Value, typed: Value, now: int)
      ensures Valid()
      ensures this.command == command && this.params == params && this.typed == typed && start == now
      ensures !begunOutput && outputs == [] && !completed && !error && end == None && duration == None
    {
      this.command := command;
      this.params := params;
      this.typed := typed;
      start := now;
      begunOutput := false;
      outputs := [];
      completed := false;
      error := false;
      end := None;
      duration := None;
    }

    /** `_beginOutput`: registers the request at the end of the history, then evicts
        from the front until the cap holds again. */
    method BeginOutput(h: History)
      requires h.Valid() && !begunOutput
      modifies this, h
      ensures begunOutput && outputs == []
      ensures h.Valid()
      ensures h.requests == Evict(old(h.requests) + [this])
      ensures completed == old(completed) && error == old(error) && end == old(end) && duration == old(duration)
    {
      begunOutput := true;
      outputs := [];
      h.Push(this);
    }

    /** `output(content)`: begins output on the first call, then appends exactly one entry. */
    method Output(h: History, content: string)
      requires Valid() && h.Valid()
      modifies this, h
      ensures Valid() && h.Valid() && begunOutput
      ensures outputs == old(outputs) + [content]
      ensures h.requests == if old(begunOutput) then old(h.requests) else Evict(old(h.requests) + [this])
      ensures completed == old(completed) && error == old(error) && end == old(end) && duration == old(duration)
    {
      if !begunOutput {
        BeginOutput(h);
      }
      outputs := outputs + [content];
    }

    /** `async()`: declares a later `done`; begins output (and enters history) if it has not yet. */
    method Async(h: History)
      requires Valid() && h.Valid()
      modifies this, h
      ensures Valid() && h.Valid() && begunOutput
      ensures outputs == old(outputs)
      ensures h.requests == if old(begunOutput) then old(h.requests) else Evict(old(h.requests) + [this])
      ensures completed == old(completed) && error == old(error) && end == old(end) && duration == old(duration)
    {
      if !begunOutput {
        BeginOutput(h);
      }
    }

    /** `done(content)`: completes the request, stamps `end` and `duration`, and
        outputs the content only when it is given. */
    method Done(h: History, content: Option<string>, now: int)
      requires Valid() && h.Valid()
      modifies this, h
      ensures Valid() && h.Valid()
      ensures completed && end == Some(now) && duration == Some(now - start)
      ensures error == old(error)
      ensures outputs == if Given(content) then old(outputs) + [content.value] else old(outputs)
      ensures h.requests == if Given(content) && !old(begunOutput) then Evict(old(h.requests) + [this]) else old(h.requests)
    {
      completed := true;
      end := Some(now);
      duration := Some(now - start);
      if Given(content) {
        Output(h, content.value);
      }
    }

    /** `doneWithError(content)`: flags the error, then behaves as `done`. */
    method DoneWithError(h: History, content: Option<string>, now: int)
      requires Valid() && h.Valid()
      modifies this, h
      ensures Valid() && h.Valid()
      ensures error && completed && end == Some(now) && duration == Some(now - start)
      ensures outputs == if Given(content) then old(outputs) + [content.value] else old(outputs)
      ensures h.requests == if Given(content) && !old(begunOutput) then Evict(old(h.requests) + [this]) else old(h.requests)
    {
      error := true;
      Done(h, content, now);
    }

    // The request methods as written. `_beginOutput` ends by calling
    // `exports._emit`, but the module object never gets an `_emit` (the emitter
    // is mixed into requests only), so that call throws a `TypeError` after the
    // request has been marked and pushed into the history. `thrown` is the error
    // the caller sees, `None` when the call returns normally.

    /** `_beginOutput` as written: marks and pushes the request, then throws. */
    method BeginOutputAsWritten(h: History) returns (thrown: Option<string>)
      requires h.Valid() && !begunOutput
      modifies this, h
      ensures thrown == Some(NoModuleEmit)
      ensures begunOutput && outputs == []
      ensures h.Valid() && h.requests == Evict(old(h.requests) + [this])
      ensures completed == old(completed) && error == old(error) && end == old(end) && duration == old(duration)
    {
      begunOutput := true;
      outputs := [];
      h.Push(this);
      thrown := Some(NoModuleEmit);
    }

    /** `output(content)` as written: the first call throws before the content is
        appended, so that content is lost; later calls append as intended. */
    method OutputAsWritten(h: History, content: string) returns (thrown: Option<string>)
      requires Valid() && h.Valid()
      modifies this, h
      ensures Valid() && h.Valid() && begunOutput
      ensures thrown.Some? <==> !old(begunOutput)
      ensures old(begunOutput) ==> outputs == old(outputs) + [content] && h.requests == old(h.requests)
      ensures !old(begunOutput) ==> outputs == [] && h.requests == Evict(old(h.requests) + [this])
      ensures completed == old(completed) && error == old(error) && end == old(end) && duration == old(duration)
    {
      thrown := None;
      if !begunOutput {
        thrown := BeginOutputAsWritten(h);
        return;
      }
      outputs := outputs + [content];
    }

    /** `async()` as written: the first call enters the history and then throws. */
    method AsyncAsWritten(h: History) returns (thrown: Option<string>)
      requires Valid() && h.Valid()
      modifies this, h
      ensures Valid() && h.Valid() && begunOutput
      ensures thrown.Some? <==> !old(begunOutput)
      ensures outputs == old(outputs)
      ensures h.requests == if old(begunOutput) then old(h.requests) else Evict(old(h.requests) + [this])
    {
      thrown := None;
      if !begunOutput {
        thrown := BeginOutputAsWritten(h);
      }
    }

    /** `done(content)` as written: the request is completed and stamped first; a
        given content on a request with no earlier output then throws and is lost. */
    method DoneAsWritten(h: History, content: Option<string>, now: int) returns (thrown: Option<string>)
      requires Valid() && h.Valid()
      modifies this, h
      ensures Valid() && h.Valid()
      ensures completed && end == Some(now) && duration == Some(now - start) && error == old(error)
      ensures thrown.Some? <==> Given(content) && !old(begunOutput)
      ensures outputs == if Given(content) && old(begunOutput) then old(outputs) + [content.value] else old(outputs)
      ensures h.requests == if Given(content) && !old(begunOutput) then Evict(old(h.requests) + [this]) else old(h.requests)
    {
      completed := true;
      end := Some(now);
      duration := Some(now - start);
      thrown := None;
      if Given(content) {
        thrown := OutputAsWritten(h, content.value);
      }
    }

    /** `doneWithError(content)` as written: flags the error, then `done` as written. */
    method DoneWithErrorAsWritten(h: History, content: Option<string>, now: int) returns (thrown: Option<string>)
      requires Valid() && h.Valid()
      modifies this, h
      ensures Valid() && h.Valid()
      ensures error && completed && end == Some(now) && duration == Some(now - start)
      ensures thrown.Some? <==> Given(content) && !old(begunOutput)
      ensures outputs == if Given(content) && old(begunOutput) then old(outputs) + [content.value] else old(outputs)
    {
      error := true;
      thrown := DoneAsWritten(h, content, now);
    }
  }

  /** The error `_beginOutput` raises as written. */
  const NoModuleEmit := "TypeError: exports._emit is not a function"

  /** With the request methods as written, a request's first output is lost: after
      `output("x")` on a fresh request the call has thrown, the request is already in
      the history and has no output. */
  method FirstOutputLost() returns (thrown: bool, first: seq<string>, listed: bool)
    ensures thrown && first == [] && listed
  {
    var h := new History();
    var r := new Request(Command("echo", [], 0, None), Undefined, Undefined, 0);
    var t := r.OutputAsWritten(h, "x");
    assert [] + [r] == [r];
    thrown := t.Some?;
    first := r.outputs;
    listed := r in h.requests;
  }

  /** `TCommand.execute`: builds the request the command's `exec` is handed. */
  method Execute(c: Command, params: Value, typed: Value, now: int) returns (request: Request)
    ensures fresh(request) && request.Valid()
    ensures request.command == c && request.params == params && request.start == now
    ensures !request.begunOutput && !request.completed
  {
    request := new Request(c, params, typed, now);
  }

  /** With the `uninstall` that is written out, the command namespace survives:
      after `install`, `uninstall` fails and `env.commands` is still there. */
  method UninstallKeepsCommands() returns (ok: bool, present: bool)
    ensures !ok && present
  {
    var cm := new CommandManager();
    cm.Install();
    ok := cm.UninstallAsWritten();
    present := cm.present;
  }

  /** The `commands` namespace of an environment and the `command:*` listeners. */
  class CommandManager {
    /** Whether `env.commands` exists. */
    var present: bool
    var installed: map<string, Command>
    var enabled: map<string, Command>
    var disabled: map<string, Command>

    function View(): Maps
      reads this
    {
      Maps(installed, enabled, disabled)
    }

    ghost predicate Valid()
      reads this
    {
      (!present ==> installed == map[] && enabled == map[] && disabled == map[]) && Keyed(View())
    }

    constructor ()
      ensures Valid() && !present
    {
      present := false;
      installed, enabled, disabled := map[], map[], map[];
    }

    /** `install`: creates empty command maps. */
    method Install()
      modifies this
      ensures Valid() && present
      ensures installed == map[] && enabled == map[] && disabled == map[]
    {
      present := true;
      installed, enabled, disabled := map[], map[], map[];
    }

    /** `uninstall`: removes the command maps. */
    method Uninstall()
      modifies this
      ensures Valid() && !present
    {
      present := false;
      installed, enabled, disabled := map[], map[], map[];
    }

    /** `uninstall` as written passes `env`, a name it never declares, to `shutdown`:
        the call throws before `env.commands` is deleted, so it always fails and the
        maps stay. */
    method UninstallAsWritten() returns (ok: bool)
      requires Valid()
      ensures !ok
    {
      ok := false;
    }

    /** Listener for `command:install`. */
    method OnCommandInstall(name: string, command: Option<CommandSpec>)
      requires Valid() && present
      modifies this
      ensures Valid() && present
      ensures View() == InstallCommand(old(View()), name, command)
    {
      if command.Some? {
        var c := Normalise(name, command.value);
        installed := installed[c.name := c];
      }
    }

    /** Listener for `command:startup`; `ok` is false where the source throws. */
    method OnCommandStartup(name: string) returns (ok: bool)
      requires Valid() && present
      modifies this
      ensures Valid() && present
      ensures (View(), ok) == StartupCommand(old(View()), name)
    {
      ok := name in installed;
      if ok {
        var c := installed[name];
        enabled := enabled[c.name := c];
      }
    }

    /** Listener for `command:shutdown`; `ok` is false where the source throws. */
    method OnCommandShutdown(name: string) returns (ok: bool)
      requires Valid() && present
      modifies this
      ensures Valid() && present
      ensures (View(), ok) == ShutdownCommand(old(View()), name)
    {
      ok := name in enabled;
      if ok {
        var c := enabled[name];
        enabled := enabled - {c.name};
        disabled := disabled[c.name := c];
      }
    }

    /** Listener for `command:uninstall`: emits `command:shutdown` first. */
    method OnCommandUninstall(name: string) returns (ok: bool)
      requires Valid() && present
      modifies this
      ensures Valid() && present
      ensures (View(), ok) == UninstallCommand(old(View()), name)
    {
      ok := OnCommandShutdown(name);
      if ok {
        enabled := enabled - {name};
        installed := installed - {name};
      }
    }

    /** Listener for `command:execute`: runs only an enabled command and sets `stop`
        only when it found one. */
    method OnCommandExecute(name: string, params: Value, now: int) returns (stop: bool, request: Request?)
      requires Valid() && present
      ensures stop <==> name in enabled
      ensures stop ==> request != null && fresh(request) && request.command == enabled[name] && request.start == now
      ensures !stop ==> request == null
    {
      stop := false;
      request := null;
      if name in enabled {
        request := Execute(enabled[name], params, Undefined, now);
        stop := true;
      }
    }

    /** The `plugin:startup` listener over the plugin's `commands` endpoint (absent: nothing happens). */
    method OnPluginStartup(commands: Option<Entries<CommandSpec>>) returns (ok: bool)
      requires Valid() && present
      modifies this
      ensures Valid() && present
      ensures commands.None? ==> ok && View() == old(View())
      ensures commands.Some? ==> (View(), ok) == StartupAll(old(View()), commands.value)
    {
      ok := true;
      if commands.Some? {
        var es := commands.value;
        var i := 0;
        while i < |es| && ok
          invariant 0 <= i <= |es|
          invariant Valid() && present
          invariant (View(), ok) == StartupAll(old(View()), es[..i])
        {
          assert es[..i + 1][..i] == es[..i];
          OnCommandInstall(es[i].0, Some(es[i].1));
          ok := OnCommandStartup(es[i].0);
          i := i + 1;
        }
        if ok {
          assert es[..i] == es;
        } else {
          StartupAllStops(old(View()), es, i);
        }
      }
    }

    /** `startup`: runs the `plugin:startup` listener for each plugin handed over,
        in order. */
    method Startup(plugins: seq<Option<Entries<CommandSpec>>>) returns (ok: bool)
      requires Valid() && present
      modifies this
      ensures Valid() && present
      ensures (View(), ok) == StartupPlugins(old(View()), plugins)
    {
      ok := true;
      var i := 0;
      while i < |plugins| && ok
        invariant 0 <= i <= |plugins|
        invariant Valid() && present
        invariant (View(), ok) == StartupPlugins(old(View()), plugins[..i])
      {
        assert plugins[..i + 1][..i] == plugins[..i];
        ok := OnPluginStartup(plugins[i]);
        i := i + 1;
      }
      if ok {
        assert plugins[..i] == plugins;
      } else {
        StartupPluginsStops(old(View()), plugins, i);
      }
    }

    /** The `plugin:shutdown` listener: `command:uninstall` for every key of the endpoint. */
    method OnPluginShutdown(commands: Option<Entries<CommandSpec>>) returns (ok: bool)
      requires Valid() && present
      modifies this
      ensures Valid() && present
      ensures commands.None? ==> ok && View() == old(View())
      ensures commands.Some? ==> (View(), ok) == ShutdownAll(old(View()), Keys(commands.value))
    {
      ok := true;
      if commands.Some? {
        var names := Keys(commands.value);
        var i := 0;
        while i < |names| && ok
          invariant 0 <= i <= |names|
          invariant Valid() && present
          invariant (View(), ok) == ShutdownAll(old(View()), names[..i])
        {
          assert names[..i + 1][..i] == names[..i];
          ok := OnCommandUninstall(names[i]);
          i := i + 1;
        }
        if ok {
          assert names[..i] == names;
        } else {
          ShutdownAllStops(old(View()), names, i);
        }
      }
    }
  }
}

/** The environment: a property store and event bus arranged in a single-parent
    chain. Reads fall through to the ancestors; writes stay on the environment
    they are made on. The JavaScript prototype chain is modelled by an explicit
    `parent` pointer and an `own` property map. */
module Env {
  import opened Values

  /** Names that live on the shared prototype: the environment's own methods, the
      emitter methods the kernel calls on it, and the members every JavaScript
      object inherits. `get` and `set` refuse them. */
  const Reserved: set<string> := {
    "emit", "get", "set",
    "on", "_emit", "removeListener",
    "constructor", "toString", "toLocaleString", "valueOf", "hasOwnProperty",
    "isPrototypeOf", "propertyIsEnumerable"
  }

  datatype EnvError = ReservedName(name: string)

  /** One dispatched event: its type, the name and value it carries, and the
      environment its `env` field points at. */
  datatype Event = Event(kind: string, subject: string, value: Value, env: Environment)

  class Environment {
    const parent: Environment?
    /** This environment and all its ancestors. */
    ghost const Chain: set<Environment>
    /** Distance from the root environment. */
    ghost const depth: nat
    /** Properties set on this environment itself. */
    var own: map<string, Value>
    /** Events dispatched on this environment to listeners outside the kernel, in order. */
    var log: seq<Event>

    ghost predicate Valid()
      decreases depth
    {
      this in Chain &&
      if parent == null then depth == 0 && Chain == {this}
      else parent.depth < depth && Chain == {this} + parent.Chain && parent.Valid()
    }

    /** `Environment(parent)`: a fresh environment whose reads fall through to `parent`. */
    constructor (parent: Environment?)
      requires parent != null ==> parent.Valid()
      ensures Valid() && this.parent == parent
      ensures own == map[] && log == []
    {
      this.parent := parent;
      if parent == null {
        depth := 0;
        Chain := {this};
      } else {
        depth := parent.depth + 1;
        Chain := {this} + parent.Chain;
      }
      own := map[];
      log := [];
    }

    /** A property read `env[name]`: the own value, else the parent's, recursively;
        undefined past the root. */
    function Lookup(name: string): Value
      reads Chain`own
      requires Valid()
      decreases depth
    {
      if name in own then own[name]
      else if parent == null then Undefined
      else parent.Lookup(name)
    }

    /** `get(name)`: refuses reserved names, otherwise reads through the chain. */
    function Get(name: string): (r: Result<Value, EnvError>)
      reads Chain`own
      requires Valid()
      ensures name in Reserved <==> r.Err?
      ensures r.Err? ==> r.error == ReservedName(name)
      ensures r.Ok? && name in own ==> r.value == own[name]
      ensures r.Ok? && name !in own && parent != null ==> r.value == parent.Lookup(name)
      ensures r.Ok? && name !in own && parent == null ==> r.value == Undefined
    {
      if name in Reserved then Err(ReservedName(name)) else Ok(Lookup(name))
    }

    /** `_emit`: hands the event to the listeners as it is. */
    method Dispatch(e: Event)
      modifies this
      ensures own == old(own)
      ensures log == old(log) + [e]
    {
      log := log + [e];
    }

    /** `emit(type, event)`: stamps `event.env` with this environment, then dispatches. */
    method Emit(kind: string, subject: string, value: Value)
      modifies this
      ensures own == old(own)
      ensures log == old(log) + [Event(kind, subject, value, this)]
      ensures log[|log| - 1].env == this
    {
      Dispatch(Event(kind, subject, value, this));
    }

    /** A bare property assignment `env[name] = value`, with no reserved-name check. */
    method Put(name: string, value: Value)
      requires Valid()
      modifies this
      ensures own == old(own)[name := value]
      ensures log == old(log)
      ensures Lookup(name) == value
      ensures forall n :: n != name ==> Lookup(n) == old(Lookup(n))
      ensures parent != null ==> forall n :: parent.Lookup(n) == old(parent.Lookup(n))
    {
      AncestorsExcludeSelf(this);
      own := own[name := value];
    }

    /** `set(name, value)`: refuses reserved names; otherwise writes on this
        environment only, always emits `set` with the name and value (even when the
        value is unchanged) and returns the value. */
    method Set(name: string, value: Value) returns (r: Result<Value, EnvError>)
      requires Valid()
      modifies this
      ensures name in Reserved ==> r == Err(ReservedName(name)) && own == old(own) && log == old(log)
      ensures name !in Reserved ==> r == Ok(value)
      ensures name !in Reserved ==> own == old(own)[name := value]
      ensures name !in Reserved ==> log == old(log) + [Event("set", name, value, this)]
      ensures name !in Reserved ==> Get(name) == Ok(value)
      ensures forall n :: n != name ==> Lookup(n) == old(Lookup(n))
      ensures parent != null ==> forall n :: parent.Lookup(n) == old(parent.Lookup(n))
    {
      if name in Reserved {
        r := Err(ReservedName(name));
      } else {
        Put(name, value);
        Dispatch(Event("set", name, value, this));
        r := Ok(value);
      }
    }
  }

  /** Every environment on the chain is at most as deep as the one it starts from. */
  lemma {:induction false} ChainDepth(e: Environment)
    requires e.Valid()
    ensures forall x :: x in e.Chain ==> x.depth <= e.depth
    decreases e.depth
  {
    if e.parent != null {
      ChainDepth(e.parent);
    }
  }

  /** The chain has no cycle: an environment is not among its parent's ancestors,
      so a write on it cannot change what its ancestors read. */
  lemma AncestorsExcludeSelf(e: Environment)
    requires e.Valid()
    ensures e.parent != null ==> e !in e.parent.Chain
  {
    if e.parent != null {
      ChainDepth(e.parent);
    }
  }

  /** A child environment sees every value of its parent that it has not set itself. */
  lemma ChildReadsParent(c: Environment, name: string)
    requires c.Valid() && c.parent != null
    requires name !in c.own && name !in Reserved
    ensures c.Get(name) == c.parent.Get(name)
  {
  }

  /** The inheritance example: parent `P.set("x", 1)`, child `C`; the child reads 1,
      and after `C.set("x", 2)` the child reads 2 while the parent still reads 1. */
  method Shadowing() returns (before: Value, child: Value, parent: Value)
    ensures before == Num(1) && child == Num(2) && parent == Num(1)
  {
    var p := new Environment(null);
    var _ := p.Set("x", Num(1));
    var c := new Environment(p);
    var r := c.Get("x");
    before := r.value;
    var _ := c.Set("x", Num(2));
    r := c.Get("x");
    child := r.value;
    r := p.Get("x");
    parent := r.value;
  }
}

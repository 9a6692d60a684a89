/** The generic extension-point manager: it collects one endpoint of every plugged
    plugin into a name-to-extension map and an ordered list of names. */
module AbstractManager {
  import opened Values
  import opened Endpoints

  /** An entry of the manager's `types`: one the caller gave, or the default
      selection type whose `data` is the manager's own (live) `names` list. */
  datatype TypeEntry = GivenType(v: Value) | SelectionOfNames(name: string, base: string)

  /** An entry of the manager's `settings`: one the caller gave, or the default
      setting typed by the manager's name. */
  datatype SettingEntry = GivenSetting(v: Value) | DefaultSetting(description: Value, kind: string)

  /** The `types` a manager starts with: the given ones (none when absent), plus the
      default selection type under the manager's name when that name is not given. */
  function DefaultTypes(name: string, given: Option<map<string, Value>>): (r: map<string, TypeEntry>)
    ensures name in r
    ensures given.Some? && name in given.value ==> r[name] == GivenType(given.value[name])
    ensures given.None? || name !in given.value ==> r[name] == SelectionOfNames(name, "selection")
    ensures given.Some? ==> r.Keys == given.value.Keys + {name}
    ensures given.None? ==> r.Keys == {name}
    ensures given.Some? ==> forall n :: n in given.value ==> r[n] == GivenType(given.value[n])
  {
    var base := if given.Some? then map n | n in given.value :: GivenType(given.value[n]) else map[];
    if name in base then base else base[name := SelectionOfNames(name, "selection")]
  }

  /** The `settings` a manager starts with, defaulted in the same way. */
  function DefaultSettings(name: string, description: Value, given: Option<map<string, Value>>): (r: map<string, SettingEntry>)
    ensures name in r
    ensures given.Some? && name in given.value ==> r[name] == GivenSetting(given.value[name])
    ensures given.None? || name !in given.value ==> r[name] == DefaultSetting(description, name)
    ensures given.Some? ==> r.Keys == given.value.Keys + {name}
    ensures given.None? ==> r.Keys == {name}
    ensures given.Some? ==> forall n :: n in given.value ==> r[n] == GivenSetting(given.value[n])
  {
    var base := if given.Some? then map n | n in given.value :: GivenSetting(given.value[n]) else map[];
    if name in base then base else base[name := DefaultSetting(description, name)]
  }

  /** `indexOf`: the first position holding `x`, or -1. */
  function IndexOf(s: seq<string>, x: string): (r: int)
    ensures -1 <= r < |s|
    ensures r == -1 <==> x !in s
    ensures r >= 0 ==> s[r] == x && forall j :: 0 <= j < r ==> s[j] != x
  {
    if s == [] then -1
    else if s[0] == x then 0
    else
      var r := IndexOf(s[1..], x);
      if r == -1 then -1 else r + 1
  }

  /** `names.splice(names.indexOf(x), 1)`: removes the first `x`; when there is none,
      index -1 counts from the end, so the last name is removed instead. */
  function SpliceOut(s: seq<string>, x: string): (r: seq<string>)
    ensures x in s ==> r == s[..IndexOf(s, x)] + s[IndexOf(s, x) + 1..]
    ensures x !in s && s != [] ==> r == s[..|s| - 1]
    ensures s == [] ==> r == []
  {
    var i := IndexOf(s, x);
    if i >= 0 then s[..i] + s[i + 1..]
    else if s == [] then []
    else s[..|s| - 1]
  }

  /** A name that is present loses exactly one occurrence. */
  lemma SpliceOutRemovesOne(s: seq<string>, x: string)
    requires x in s
    ensures |SpliceOut(s, x)| == |s| - 1
    ensures multiset(SpliceOut(s, x)) == multiset(s) - multiset{x}
  {
    var i := IndexOf(s, x);
    assert s == s[..i] + [x] + s[i + 1..];
  }

  /** `onUnplug`'s walk over the names: one splice per key, in key order. */
  function SpliceAll(s: seq<string>, keys: seq<string>): seq<string>
    decreases |keys|
  {
    if keys == [] then s else SpliceOut(SpliceAll(s, keys[..|keys| - 1]), keys[|keys| - 1])
  }

  /** `onUnplug`'s walk over the map: `delete plugins[name]` per key. */
  function Unassign(m: map<string, Value>, keys: seq<string>): (r: map<string, Value>)
    ensures forall n :: n in r <==> n in m && n !in keys
    ensures forall n :: n in r ==> r[n] == m[n]
    decreases |keys|
  {
    if keys == [] then m
    else
      var init := keys[..|keys| - 1];
      assert forall n :: n in keys <==> n in init || n == keys[|keys| - 1] by {
        assert keys == init + [keys[|keys| - 1]];
      }
      Unassign(m, init) - {keys[|keys| - 1]}
  }

  lemma SpliceAllAt(s: seq<string>, keys: seq<string>, i: nat)
    requires i < |keys|
    ensures SpliceAll(s, keys[..i + 1]) == SpliceOut(SpliceAll(s, keys[..i]), keys[i])
  {
    assert keys[..i + 1][..i] == keys[..i];
  }

  /** Splicing out names that are all present removes exactly one occurrence of each. */
  lemma {:induction false} SpliceAllMultiset(s: seq<string>, keys: seq<string>)
    requires multiset(keys) <= multiset(s)
    ensures multiset(SpliceAll(s, keys)) == multiset(s) - multiset(keys)
    decreases |keys|
  {
    if keys != [] {
      var init, last := keys[..|keys| - 1], keys[|keys| - 1];
      assert keys == init + [last];
      assert multiset(keys) == multiset(init) + multiset{last};
      SpliceAllMultiset(s, init);
      var mid := SpliceAll(s, init);
      assert multiset(mid)[last] == multiset(s)[last] - multiset(init)[last];
      assert last in multiset(mid);
      SpliceOutRemovesOne(mid, last);
    }
  }

  /** Splicing out a name that first occurs right after a prefix removes that occurrence. */
  lemma SpliceOutAfter(s: seq<string>, x: string, rest: seq<string>)
    requires x !in s
    ensures SpliceOut(s + [x] + rest, x) == s + rest
  {
    var t := s + [x] + rest;
    assert t[|s|] == x;
    assert forall j :: 0 <= j < |s| ==> t[j] != x;
    assert IndexOf(t, x) == |s|;
    assert t[..|s|] == s && t[|s| + 1..] == rest;
  }

  /** Unplugging names that were appended after names they do not occur in removes
      exactly the appended ones, in order (a repeated appended name is found first
      among the appended ones too). */
  lemma {:induction false} SpliceAllSuffix(s: seq<string>, keys: seq<string>, i: nat)
    requires i <= |keys|
    requires forall k :: 0 <= k < |keys| ==> keys[k] !in s
    ensures SpliceAll(s + keys, keys[..i]) == s + keys[i..]
    decreases i
  {
    if i > 0 {
      SpliceAllSuffix(s, keys, i - 1);
      SpliceSuffixStep(s, keys, i);
    } else {
      assert keys[0..] == keys;
    }
  }

  /** One more splice in `SpliceAllSuffix`: the next appended name is the first one left. */
  lemma SpliceSuffixStep(s: seq<string>, keys: seq<string>, i: nat)
    requires 0 < i <= |keys| && keys[i - 1] !in s
    requires SpliceAll(s + keys, keys[..i - 1]) == s + keys[i - 1..]
    ensures SpliceAll(s + keys, keys[..i]) == s + keys[i..]
  {
    var x, rest := keys[i - 1], keys[i..];
    SpliceAllAt(s + keys, keys, i - 1);
    SplitAt(s, keys, i);
    SpliceOutAfter(s, x, rest);
  }

  /** A tail of the keys is its first name followed by the rest. */
  lemma SplitAt(s: seq<string>, keys: seq<string>, i: nat)
    requires 0 < i <= |keys|
    ensures s + keys[i - 1..] == s + [keys[i - 1]] + keys[i..]
  {
    assert keys[i - 1..] == [keys[i - 1]] + keys[i..];
  }

  /** The manager's two plugin listeners. */
  datatype Listener = Plug | Unplug

  /** `onPlug` or `onUnplug` as written. `onPlug` assigns the endpoint to
      `extensions`, a name it never declares (it declares `extension`), which
      strict mode refuses; `onUnplug` reads `data.plugin`, but its parameter is named
      `plugin` and no `data` is in scope. Either way the first statement throws and
      the manager is left as it was. */
  function ListenerAsWritten(listener: Listener, m: map<string, Value>, names: seq<string>, extensions: Option<Entries<Value>>): (r: Result<(map<string, Value>, seq<string>), string>)
    ensures r.Err?
  {
    Err("ReferenceError: " + (if listener == Plug then "extensions" else "data") + " is not defined")
  }

  /** Neither listener as written ever changes the manager: a plugin offering a key
      leaves it out of `plugins` and `names`, and unplugging it leaves it in. */
  lemma ListenersAsWrittenDoNothing(k: string, v: Value)
    ensures ListenerAsWritten(Plug, map[], [], Some([(k, v)])).Err?
    ensures ListenerAsWritten(Unplug, map[k := v], [k], Some([(k, v)])).Err?
  {
  }

  /** The manager (`Manager`): its name, the endpoint it harvests, and what it has harvested. */
  class Manager {
    const name: string
    const version: Value
    const description: Value
    const endpoint: string
    const types: map<string, TypeEntry>
    const settings: map<string, SettingEntry>
    var plugins: map<string, Value>
    var names: seq<string>

    /** `Manager(options)`: empty `plugins` and `names`, and a default type and
        setting under the manager's name when none is given. */
    constructor (name: string, version: Value, description: Value, endpoint: string,
                 types: Option<map<string, Value>>, settings: Option<map<string, Value>>)
      ensures this.name == name && this.version == version && this.description == description && this.endpoint == endpoint
      ensures plugins == map[] && names == []
      ensures this.types == DefaultTypes(name, types)
      ensures this.settings == DefaultSettings(name, description, settings)
    {
      this.name := name;
      this.version := version;
      this.description := description;
      this.endpoint := endpoint;
      this.types := DefaultTypes(name, types);
      this.settings := DefaultSettings(name, description, settings);
      plugins := map[];
      names := [];
    }

    /** `onPlug`: every key of the plugin's endpoint, in order, is stored in `plugins`
        and appended to `names` (again, if already there); a plugin without the
        endpoint changes nothing. */
    method OnPlug(extensions: Option<Entries<Value>>)
      modifies this
      ensures plugins == Assign(old(plugins), Offered(extensions))
      ensures names == old(names) + Keys(Offered(extensions))
    {
      if extensions.Some? {
        var es := extensions.value;
        var i := 0;
        while i < |es|
          invariant 0 <= i <= |es|
          invariant plugins == Assign(old(plugins), es[..i])
          invariant names == old(names) + Keys(es[..i])
        {
          assert es[..i + 1][..i] == es[..i];
          plugins := plugins[es[i].0 := es[i].1];
          names := names + [es[i].0];
          i := i + 1;
        }
        assert es[..i] == es;
      }
    }

    /** `onUnplug`: every key of the plugin's endpoint is deleted from `plugins` and
        spliced out of `names`. */
    method OnUnplug(extensions: Option<Entries<Value>>)
      modifies this
      ensures extensions.None? ==> plugins == old(plugins) && names == old(names)
      ensures extensions.Some? ==> plugins == Unassign(old(plugins), Keys(extensions.value))
      ensures extensions.Some? ==> names == SpliceAll(old(names), Keys(extensions.value))
    {
      if extensions.Some? {
        var keys := Keys(extensions.value);
        var i := 0;
        while i < |keys|
          invariant 0 <= i <= |keys|
          invariant plugins == Unassign(old(plugins), keys[..i])
          invariant names == SpliceAll(old(names), keys[..i])
        {
          assert keys[..i + 1][..i] == keys[..i];
          plugins := plugins - {keys[i]};
          names := SpliceOut(names, keys[i]);
          i := i + 1;
        }
        assert keys[..i] == keys;
      }
    }

    /** `startup`: replays `onPlug` for every plugin already enabled, in order. */
    method Startup(enabled: seq<Option<Entries<Value>>>)
      modifies this
      ensures plugins == PlugAll(old(plugins), enabled)
      ensures names == old(names) + HarvestKeys(enabled)
    {
      ghost var plugins0, names0 := plugins, names;
      var i := 0;
      while i < |enabled|
        invariant 0 <= i <= |enabled|
        invariant plugins == PlugAll(plugins0, enabled[..i])
        invariant names == names0 + HarvestKeys(enabled[..i])
      {
        assert enabled[..i + 1][..i] == enabled[..i];
        OnPlug(enabled[i]);
        i := i + 1;
      }
      assert enabled[..i] == enabled;
    }
  }

  /** What one plugin offers under the endpoint: nothing when it lacks it. */
  function Offered(extensions: Option<Entries<Value>>): (es: Entries<Value>)
    ensures extensions.Some? ==> es == extensions.value
    ensures extensions.None? ==> es == []
  {
    if extensions.Some? then extensions.value else []
  }

  /** Everything a sequence of plugins offers under the endpoint, plugin after plugin. */
  function Harvest(ps: seq<Option<Entries<Value>>>): (es: Entries<Value>)
    ensures ps == [] ==> es == []
    decreases |ps|
  {
    if ps == [] then []
    else
      Harvest(ps[..|ps| - 1]) + Offered(ps[|ps| - 1])
  }

  /** The map after `onPlug` for each plugin in turn. */
  function PlugAll(m: map<string, Value>, ps: seq<Option<Entries<Value>>>): map<string, Value>
    decreases |ps|
  {
    if ps == [] then m else Assign(PlugAll(m, ps[..|ps| - 1]), Offered(ps[|ps| - 1]))
  }

  /** Plugging plugins one by one stores everything they offer, in order. */
  lemma {:induction false} PlugAllIsHarvest(m: map<string, Value>, ps: seq<Option<Entries<Value>>>)
    ensures PlugAll(m, ps) == Assign(m, Harvest(ps))
    decreases |ps|
  {
    if ps != [] {
      PlugAllIsHarvest(m, ps[..|ps| - 1]);
      AssignConcat(m, Harvest(ps[..|ps| - 1]), Offered(ps[|ps| - 1]));
    }
  }

  /** The names a sequence of plugins offers, plugin after plugin. */
  function HarvestKeys(ps: seq<Option<Entries<Value>>>): seq<string>
    decreases |ps|
  {
    if ps == [] then [] else HarvestKeys(ps[..|ps| - 1]) + Keys(Offered(ps[|ps| - 1]))
  }

  lemma {:induction false} HarvestKeysAre(ps: seq<Option<Entries<Value>>>)
    ensures HarvestKeys(ps) == Keys(Harvest(ps))
    decreases |ps|
  {
    if ps != [] {
      HarvestKeysAre(ps[..|ps| - 1]);
      KeysConcat(Harvest(ps[..|ps| - 1]), Offered(ps[|ps| - 1]));
    }
  }

  /** Plugging a plugin whose keys are all new and unplugging it again restores
      `plugins` exactly. */
  lemma PlugThenUnplug(m: map<string, Value>, es: Entries<Value>)
    requires forall i :: 0 <= i < |es| ==> es[i].0 !in m
    ensures Unassign(Assign(m, es), Keys(es)) == m
  {
    var ks := Keys(es);
    var a := Assign(m, es);
    AssignKeys(m, es);
    var r := Unassign(a, ks);
    forall n | n in m ensures n in r && r[n] == m[n] {
      assert forall i :: 0 <= i < |ks| ==> ks[i] != n;
      AssignOther(m, es, n);
    }
    forall n | n in r ensures n in m {
      assert n in a && n !in ks;
      assert forall i :: 0 <= i < |es| ==> es[i].0 != n by {
        forall i | 0 <= i < |es| ensures es[i].0 != n {
          assert ks[i] == es[i].0;
        }
      }
    }
  }

  /** ... and, when no key was already listed, `names` exactly. */
  lemma PlugThenUnplugOrder(s: seq<string>, es: Entries<Value>)
    requires forall i :: 0 <= i < |es| ==> es[i].0 !in s
    ensures SpliceAll(s + Keys(es), Keys(es)) == s
  {
    var ks := Keys(es);
    SpliceAllSuffix(s, ks, |ks|);
    assert ks[..|ks|] == ks;
    assert s + ks[|ks|..] == s;
  }

  /** Whatever was plugged, unplugging the same keys removes one occurrence of each
      from `names`: the names that were there before come back as a multiset. */
  lemma PlugThenUnplugNames(s: seq<string>, es: Entries<Value>)
    ensures multiset(SpliceAll(s + Keys(es), Keys(es))) == multiset(s)
  {
    SpliceAllMultiset(s + Keys(es), Keys(es));
  }
}

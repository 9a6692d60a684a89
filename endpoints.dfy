/** An endpoint of a plugin descriptor (`commands`, `settings`, `types`, ...) is a
    JavaScript object walked with `Object.keys(...).forEach`: an ordered list of
    (key, value) entries. */
module Endpoints {

  type Entries<T> = seq<(string, T)>

  /** The keys of an endpoint, in iteration order. */
  function Keys<T>(es: Entries<T>): (ks: seq<string>)
    ensures |ks| == |es|
    ensures forall i :: 0 <= i < |es| ==> ks[i] == es[i].0
  {
    if es == [] then [] else Keys(es[..|es| - 1]) + [es[|es| - 1].0]
  }

  /** A name is not among the keys exactly when no entry carries it. */
  lemma NotAKey<T>(es: Entries<T>, n: string)
    ensures n !in Keys(es) <==> forall i :: 0 <= i < |es| ==> es[i].0 != n
  {
    var ks := Keys(es);
    if n in ks {
      var i :| 0 <= i < |ks| && ks[i] == n;
      assert es[i].0 == n;
    }
  }

  /** `Object.keys` never repeats a key. */
  predicate DistinctKeys<T>(es: Entries<T>) {
    forall i, j :: 0 <= i < j < |es| ==> es[i].0 != es[j].0
  }

  /** `m[key] = value` for every entry in order: a later entry overwrites an earlier one. */
  function Assign<T>(m: map<string, T>, es: Entries<T>): map<string, T>
  {
    if es == [] then m else Assign(m, es[..|es| - 1])[es[|es| - 1].0 := es[|es| - 1].1]
  }

  /** Assigning adds exactly the endpoint's keys. */
  lemma {:induction false} AssignKeys<T>(m: map<string, T>, es: Entries<T>)
    ensures Assign(m, es).Keys == m.Keys + set i | 0 <= i < |es| :: es[i].0
  {
    if es != [] {
      var init := es[..|es| - 1];
      AssignKeys(m, init);
      assert forall i :: 0 <= i < |init| ==> init[i] == es[i];
      assert (set i | 0 <= i < |es| :: es[i].0) == (set i | 0 <= i < |init| :: init[i].0) + {es[|es| - 1].0};
    }
  }

  /** The value stored under a key is the one of its last entry. */
  lemma {:induction false} AssignLast<T>(m: map<string, T>, es: Entries<T>, i: nat)
    requires i < |es|
    requires forall j :: i < j < |es| ==> es[j].0 != es[i].0
    ensures es[i].0 in Assign(m, es) && Assign(m, es)[es[i].0] == es[i].1
  {
    if i < |es| - 1 {
      var init := es[..|es| - 1];
      AssignLast(m, init, i);
    }
  }

  /** Keys that no entry mentions keep their old value. */
  lemma {:induction false} AssignOther<T>(m: map<string, T>, es: Entries<T>, k: string)
    requires forall j :: 0 <= j < |es| ==> es[j].0 != k
    ensures k in Assign(m, es) <==> k in m
    ensures k in m ==> Assign(m, es)[k] == m[k]
  {
    if es != [] {
      AssignOther(m, es[..|es| - 1], k);
    }
  }

  /** Walking two endpoints one after the other is walking their concatenation. */
  lemma {:induction false} AssignConcat<T>(m: map<string, T>, a: Entries<T>, b: Entries<T>)
    ensures Assign(Assign(m, a), b) == Assign(m, a + b)
    decreases |b|
  {
    if b != [] {
      var init, last := b[..|b| - 1], b[|b| - 1];
      AssignConcat(m, a, init);
      assert (a + b)[..|a + b| - 1] == a + init;
      calc {
        Assign(m, a + b);
        Assign(m, a + init)[last.0 := last.1];
        Assign(Assign(m, a), init)[last.0 := last.1];
        Assign(Assign(m, a), b);
      }
    } else {
      assert a + b == a;
    }
  }

  lemma KeysConcat<T>(a: Entries<T>, b: Entries<T>)
    ensures Keys(a + b) == Keys(a) + Keys(b)
  {
  }
}

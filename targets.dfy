/** The caller-owned containers that fillCollection and fillMap add to in place:
    a java.util.Collection (a List, or a Set that ignores an element already present)
    and a java.util.Map. */
module Targets {

  /** The elements of a sequence, as a set. */
  function Elements<T(==)>(s: seq<T>): set<T>
  {
    set x | x in s
  }

  ghost predicate Distinct<T>(s: seq<T>)
  {
    forall i, j :: 0 <= i < j < |s| ==> s[i] != s[j]
  }

  /** Collection.add: a list appends; a set appends only an element it does not hold yet. */
  function Added<T(==)>(isSet: bool, items: seq<T>, x: T): seq<T>
  {
    if isSet && x in items then items else items + [x]
  }

  /** The contents after adding `xs` one at a time, front to back. */
  function AddedAll<T(==)>(isSet: bool, items: seq<T>, xs: seq<T>): seq<T>
    decreases |xs|
  {
    if xs == [] then items else Added(isSet, AddedAll(isSet, items, xs[..|xs| - 1]), xs[|xs| - 1])
  }

  /** Adding to a list keeps the old contents and puts the new elements after them, in order. */
  lemma {:induction false} ListAddAllAppends<T>(items: seq<T>, xs: seq<T>)
    ensures AddedAll(false, items, xs) == items + xs
  {
    if xs != [] {
      var init := xs[..|xs| - 1];
      ListAddAllAppends(items, init);
      assert init + [xs[|xs| - 1]] == xs;
    }
  }

  /** Adding to a set gives the union of the old contents and the new elements, and
      a set never holds an element twice. */
  lemma {:induction false} SetAddAllUnites<T>(items: seq<T>, xs: seq<T>)
    requires Distinct(items)
    ensures Elements(AddedAll(true, items, xs)) == Elements(items) + Elements(xs)
    ensures Distinct(AddedAll(true, items, xs))
  {
    if xs != [] {
      var init := xs[..|xs| - 1];
      var x := xs[|xs| - 1];
      SetAddAllUnites(items, init);
      assert init + [x] == xs;
      assert Elements(xs) == Elements(init) + {x};
      var before := AddedAll(true, items, init);
      assert Elements(Added(true, before, x)) == Elements(before) + {x} by {
        if x !in before { assert Elements(before + [x]) == Elements(before) + {x}; }
      }
    }
  }

  /** A caller-owned java.util.Collection. Only its contents are modelled; a set's
      iteration order is not. */
  class Collection<T(==)> {
    const isSet: bool
    var elements: seq<T>

    /** A set holds each element once. */
    ghost predicate Valid()
      reads this
    {
      isSet ==> Distinct(elements)
    }

    constructor (isSet: bool)
      ensures this.isSet == isSet && elements == []
      ensures Valid()
    {
      this.isSet := isSet;
      elements := [];
    }

    method Add(x: T)
      requires Valid()
      modifies this
      ensures elements == Added(isSet, old(elements), x)
      ensures Valid()
    {
      if !(isSet && x in elements) {
        elements := elements + [x];
      }
    }
  }

  /** The map after putting the pairs `ps` one at a time, front to back. */
  function PutAll<K, V>(m: map<K, V>, ps: seq<(K, V)>): map<K, V>
    decreases |ps|
  {
    if ps == [] then m else PutAll(m, ps[..|ps| - 1])[ps[|ps| - 1].0 := ps[|ps| - 1].1]
  }

  /** The keys the pairs mention. */
  function KeysOf<K, V>(ps: seq<(K, V)>): set<K>
  {
    set i | 0 <= i < |ps| :: ps[i].0
  }

  /** Putting pairs adds exactly their keys. */
  lemma {:induction false} PutAllKeys<K, V>(m: map<K, V>, ps: seq<(K, V)>)
    ensures PutAll(m, ps).Keys == m.Keys + KeysOf(ps)
  {
    if ps != [] {
      var init := ps[..|ps| - 1];
      PutAllKeys(m, init);
      assert KeysOf(ps) == KeysOf(init) + {ps[|ps| - 1].0};
    }
  }

  /** The last pair with a given key decides its value: a later duplicate overwrites an earlier one. */
  lemma {:induction false} PutAllLastWins<K, V>(m: map<K, V>, ps: seq<(K, V)>, i: nat)
    requires i < |ps|
    requires forall j :: i < j < |ps| ==> ps[j].0 != ps[i].0
    ensures ps[i].0 in PutAll(m, ps) && PutAll(m, ps)[ps[i].0] == ps[i].1
  {
    if i < |ps| - 1 {
      var init := ps[..|ps| - 1];
      PutAllLastWins(m, init, i);
    }
  }

  /** A key no pair mentions keeps its old entry, or stays absent. */
  lemma {:induction false} PutAllUntouched<K, V>(m: map<K, V>, ps: seq<(K, V)>, k: K)
    requires forall j :: 0 <= j < |ps| ==> ps[j].0 != k
    ensures k in PutAll(m, ps) <==> k in m
    ensures k in m ==> PutAll(m, ps)[k] == m[k]
  {
    if ps != [] {
      PutAllUntouched(m, ps[..|ps| - 1], k);
    }
  }

  /** Putting pairs that all agree with `src` gives every key they mention its value in `src`. */
  lemma {:induction false} PutAllAgreeing<K, V>(m: map<K, V>, src: map<K, V>, ps: seq<(K, V)>)
    requires forall j :: 0 <= j < |ps| ==> ps[j].0 in src && src[ps[j].0] == ps[j].1
    ensures forall k :: k in KeysOf(ps) ==> k in PutAll(m, ps) && PutAll(m, ps)[k] == src[k]
  {
    if ps != [] {
      var init := ps[..|ps| - 1];
      PutAllAgreeing(m, src, init);
      assert KeysOf(ps) == KeysOf(init) + {ps[|ps| - 1].0};
    }
  }

  /** A caller-owned java.util.Map. */
  class Dictionary<K(==), V> {
    var entries: map<K, V>

    constructor ()
      ensures entries == map[]
    {
      entries := map[];
    }

    method Put(k: K, v: V)
      modifies this
      ensures entries == old(entries)[k := v]
    {
      entries := entries[k := v];
    }
  }
}

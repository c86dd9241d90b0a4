/** The synchronous engine, ObjectStoreRaw: typed reads and writes on top of a keyed
    JSON backend, the overwrite policy, collection streaming and the tagged map protocol. */
module Engine {
  import opened Json
  import opened Results
  import opened Codecs
  import opened Wire
  import opened Targets

  /** The IOException a failing backend raises from getJson, storeJson or remove. */
  const BackendError: Failure := IoError(BackendFailure)

  /** What an operation that may write the backend returns, and the backend's entries after it. */
  datatype Step<T> = Step(result: Result<T>, storage: map<string, Json>)

  /** What a fill operation returns, and the contents of the caller's target after it. */
  datatype Filled<C> = Filled(result: Result<bool>, target: C)

  // ----- Specification of each operation, as a function of the backend's state -----

  /** storeIntern: write only if overwriting is allowed or the identifier is absent. */
  function StoreStep(storage: map<string, Json>, backendFails: bool, allowOverwrite: bool, id: string, json: Json): (s: Step<bool>)
    ensures s.result == Ok(false) <==> !allowOverwrite && id in storage
    ensures s.result == Ok(true) <==> (allowOverwrite || id !in storage) && !backendFails
    ensures s.result.Err? ==> s.result.error == BackendError
    ensures s.result == Ok(true) ==> s.storage == storage[id := json]
    ensures s.result != Ok(true) ==> s.storage == storage
  {
    if allowOverwrite || id !in storage then
      if backendFails then Step(Err(BackendError), storage) else Step(Ok(true), storage[id := json])
    else Step(Ok(false), storage)
  }

  /** remove: nothing to do for an absent identifier; otherwise the backend deletes the entry. */
  function RemoveStep(storage: map<string, Json>, backendFails: bool, id: string): (s: Step<bool>)
    ensures s.result == Ok(false) <==> id !in storage
    ensures s.result == Ok(true) <==> id in storage && !backendFails
    ensures s.result.Err? ==> s.result.error == BackendError
    ensures s.storage == if s.result == Ok(true) then storage - {id} else storage
  {
    if id in storage then
      if backendFails then Step(Err(BackendError), storage) else Step(Ok(true), storage - {id})
    else Step(Ok(false), storage)
  }

  /** get: null (None) for an absent identifier, otherwise the stored JSON decoded as the requested type. */
  function GetReply<T>(storage: map<string, Json>, backendFails: bool, id: string, c: TypeCodec<T>): (r: Result<Option<T>>)
    ensures r == Ok(None) <==> id !in storage
    ensures r.Ok? && r.value.Some? ==> id in storage && !backendFails && c.decode(storage[id]) == r.value
    ensures r.Err? ==> id in storage && r.error == (if backendFails then BackendError else SyntaxError)
    ensures id in storage && !backendFails && c.decode(storage[id]).Some? ==> r == Ok(c.decode(storage[id]))
  {
    if id !in storage then Ok(None)
    else if backendFails then Err(BackendError)
    else match c.decode(storage[id])
      case None => Err(SyntaxError)
      case Some(v) => Ok(Some(v))
  }

  /** fillCollection: read the stored array element by element and add each decoded
      element to the target; the first element Gson rejects ends the read, after the
      elements before it have been added. */
  function FillCollectionStep<T(==)>(storage: map<string, Json>, backendFails: bool, id: string, c: TypeCodec<T>,
                                     isSet: bool, items: seq<T>): (f: Filled<seq<T>>)
    ensures f.result == Ok(false) <==> id !in storage
    ensures f.result == Ok(true) <==>
      id in storage && !backendFails && storage[id].JArray? && DecodeElements(c, storage[id].elements).complete
    ensures f.result.Err? ==> id in storage
    ensures f.result.Err? ==>
      f.result.error == (if backendFails then BackendError else if storage[id].JArray? then SyntaxError else StateError)
    ensures id !in storage || backendFails || !storage[id].JArray? ==> f.target == items
  {
    if id !in storage then Filled(Ok(false), items)
    else if backendFails then Filled(Err(BackendError), items)
    else match storage[id]
      case JArray(es) =>
        var d := DecodeElements(c, es);
        Filled(if d.complete then Ok(true) else Err(SyntaxError), AddedAll(isSet, items, d.values))
      case _ => Filled(Err(StateError), items)
  }

  /** fillMap: read the stored array of tagged entries and put each pair into the
      target; the first entry that fails ends the read, after the pairs before it have been put. */
  function FillMapStep<K(==), V>(storage: map<string, Json>, backendFails: bool, id: string,
                                 kc: TypeCodec<K>, vc: TypeCodec<V>, target: map<K, V>): (f: Filled<map<K, V>>)
    ensures f.result == Ok(false) <==> id !in storage
    ensures f.result == Ok(true) <==>
      id in storage && !backendFails && storage[id].JArray? && ReadEntries(kc, vc, storage[id].elements).failure.None?
    ensures f.result.Err? ==> id in storage
    ensures f.result.Err? && backendFails ==> f.result.error == BackendError
    ensures f.result.Err? && !backendFails && !storage[id].JArray? ==> f.result.error == StateError
    ensures f.result.Err? && !backendFails && storage[id].JArray? ==>
      ReadEntries(kc, vc, storage[id].elements).failure == Some(f.result.error)
    ensures id !in storage || backendFails || !storage[id].JArray? ==> f.target == target
  {
    if id !in storage then Filled(Ok(false), target)
    else if backendFails then Filled(Err(BackendError), target)
    else match storage[id]
      case JArray(es) =>
        var r := ReadEntries(kc, vc, es);
        Filled(if r.failure.None? then Ok(true) else Err(r.failure.value), PutAll(target, r.pairs))
      case _ => Filled(Err(StateError), target)
  }

  /** getList, getSet and getMap ignore the boolean of the fill and return the filled
      container; a failure of the fill propagates. */
  function Collected<C>(f: Filled<C>): (r: Result<C>)
    ensures r.Ok? <==> f.result.Ok?
    ensures r.Ok? ==> r.value == f.target
    ensures r.Err? ==> r.error == f.result.error
  {
    if f.result.Ok? then Ok(f.target) else Err(f.result.error)
  }

  /** getSet: the elements read into a fresh HashSet. */
  function SetReply<T(==)>(storage: map<string, Json>, backendFails: bool, id: string, c: TypeCodec<T>): (r: Result<set<T>>)
    ensures r.Ok? <==> FillCollectionStep(storage, backendFails, id, c, true, []).result.Ok?
    ensures r.Err? ==> r.error == FillCollectionStep(storage, backendFails, id, c, true, []).result.error
    ensures id !in storage ==> r == Ok({})
    ensures r.Ok? && id in storage && storage[id].JArray? ==>
      r.value == DecodedSet(c, storage[id].elements)
  {
    match Collected(FillCollectionStep(storage, backendFails, id, c, true, []))
    case Ok(xs) =>
      assert Elements<T>([]) == {};
      if id in storage && storage[id].JArray? then
        var es := storage[id].elements;
        var vs := DecodeElements(c, es).values;
        SetAddAllUnites([], vs);
        DecodedMembers(c, es);
        Ok(Elements(xs))
      else Ok(Elements(xs))
    case Err(e) => Err(e)
  }

  /** The values the elements of an array decode to, as a set. */
  function DecodedSet<T(==)>(c: TypeCodec<T>, es: seq<Json>): set<T>
  {
    set i | 0 <= i < |es| && c.decode(es[i]).Some? :: c.decode(es[i]).value
  }

  /** When every element decodes, the decoded values are exactly the values some element decodes to. */
  lemma DecodedMembers<T>(c: TypeCodec<T>, es: seq<Json>)
    requires DecodeElements(c, es).complete
    ensures Elements(DecodeElements(c, es).values) == DecodedSet(c, es)
  {
    var vs := DecodeElements(c, es).values;
    forall x | x in DecodedSet(c, es) ensures x in Elements(vs) {
      var i :| 0 <= i < |es| && c.decode(es[i]).Some? && c.decode(es[i]).value == x;
      assert vs[i] == x;
    }
    forall x | x in Elements(vs) ensures x in DecodedSet(c, es) {
      var i :| 0 <= i < |vs| && vs[i] == x;
      assert c.decode(es[i]) == Some(x);
    }
  }

  // ----- Properties of the specification -----

  /** With overwriting disabled the first value stored under a fresh identifier stays;
      with it enabled the second one replaces it. */
  lemma SecondStoreWinsOnlyWithOverwrite<T(!new)>(storage: map<string, Json>, id: string, c: TypeCodec<T>,
                                                  allowOverwrite: bool, a: T, b: T)
    requires RoundTrip(c) && id !in storage
    ensures var first := StoreStep(storage, false, allowOverwrite, id, c.encode(a));
            var second := StoreStep(first.storage, false, allowOverwrite, id, c.encode(b));
            && first.result == Ok(true)
            && second.result == Ok(allowOverwrite)
            && GetReply(second.storage, false, id, c) == Ok(Some(if allowOverwrite then b else a))
  {
  }

  /** What was written can be read back with the same codec; every other entry is untouched. */
  lemma StoreThenGet<T(!new)>(storage: map<string, Json>, backendFails: bool, allowOverwrite: bool,
                              id: string, c: TypeCodec<T>, x: T)
    requires RoundTrip(c)
    requires StoreStep(storage, backendFails, allowOverwrite, id, c.encode(x)).result == Ok(true)
    ensures var after := StoreStep(storage, backendFails, allowOverwrite, id, c.encode(x)).storage;
            && GetReply(after, backendFails, id, c) == Ok(Some(x))
            && forall other :: other != id ==> (other in after <==> other in storage)
  {
  }

  /** On a working backend, removing twice answers true and then false. */
  lemma RemoveTwice(storage: map<string, Json>, id: string)
    requires id in storage
    ensures var first := RemoveStep(storage, false, id);
            var second := RemoveStep(first.storage, false, id);
            first.result == Ok(true) && second.result == Ok(false) && second.storage == storage - {id}
  {
  }

  /** Filling from an absent identifier answers false and leaves the target as it was. */
  lemma FillFromAbsentLeavesTarget<T, K, V>(storage: map<string, Json>, backendFails: bool, id: string,
                                                   c: TypeCodec<T>, isSet: bool, items: seq<T>,
                                                   kc: TypeCodec<K>, vc: TypeCodec<V>, target: map<K, V>)
    requires id !in storage
    ensures FillCollectionStep(storage, backendFails, id, c, isSet, items) == Filled(Ok(false), items)
    ensures FillMapStep(storage, backendFails, id, kc, vc, target) == Filled(Ok(false), target)
    ensures Collected(FillCollectionStep(storage, backendFails, id, c, false, [])) == Ok([])
  {
  }

  /** A successful fill of a list keeps the old contents and appends one decoded
      element per array element, in array order. */
  lemma FillListAppends<T>(storage: map<string, Json>, backendFails: bool, id: string, c: TypeCodec<T>, items: seq<T>)
    requires FillCollectionStep(storage, backendFails, id, c, false, items).result == Ok(true)
    ensures id in storage && storage[id].JArray?
    ensures var es := storage[id].elements;
            var filled := FillCollectionStep(storage, backendFails, id, c, false, items).target;
            && |filled| == |items| + |es|
            && filled[..|items|] == items
            && forall i :: 0 <= i < |es| ==> c.decode(es[i]) == Some(filled[|items| + i])
  {
    var d := DecodeElements(c, storage[id].elements);
    ListAddAllAppends(items, d.values);
  }

  /** A fill of a list that Gson stops at an element has still appended the elements before it. */
  lemma FillListStopsAtUndecodable<T>(storage: map<string, Json>, backendFails: bool, id: string, c: TypeCodec<T>, items: seq<T>)
    requires id in storage && !backendFails && storage[id].JArray?
    requires !DecodeElements(c, storage[id].elements).complete
    ensures var es := storage[id].elements;
            var n := |DecodeElements(c, es).values|;
            var f := FillCollectionStep(storage, backendFails, id, c, false, items);
            && f.result == Err(SyntaxError)
            && n < |es| && c.decode(es[n]).None?
            && f.target == items + DecodeElements(c, es).values
  {
    ListAddAllAppends(items, DecodeElements(c, storage[id].elements).values);
  }

  /** A successful fill of a set adds the decoded elements to its contents and holds each element once. */
  lemma FillSetUnites<T>(storage: map<string, Json>, backendFails: bool, id: string, c: TypeCodec<T>, items: seq<T>)
    requires Distinct(items)
    requires FillCollectionStep(storage, backendFails, id, c, true, items).result == Ok(true)
    ensures id in storage && storage[id].JArray?
    ensures var filled := FillCollectionStep(storage, backendFails, id, c, true, items).target;
            && Distinct(filled)
            && Elements(filled) == Elements(items) + Elements(DecodeElements(c, storage[id].elements).values)
  {
    SetAddAllUnites(items, DecodeElements(c, storage[id].elements).values);
  }

  /** A map fill succeeds only on an array of tagged objects {"key": .., "value": ..}. */
  lemma FillMapAcceptsOnlyTagged<K, V>(storage: map<string, Json>, backendFails: bool, id: string,
                                          kc: TypeCodec<K>, vc: TypeCodec<V>, target: map<K, V>)
    requires FillMapStep(storage, backendFails, id, kc, vc, target).result == Ok(true)
    ensures id in storage && storage[id].JArray?
    ensures forall i :: 0 <= i < |storage[id].elements| ==> IsTaggedObject(storage[id].elements[i])
  {
    AcceptedEntriesAreTagged(kc, vc, storage[id].elements);
  }

  /** A misnamed element makes the map fill fail; the target has received only the
      pairs of the elements before it, and a wrong first name is reported as the
      IOException naming the member found. */
  lemma FillMapRejectsMisnamed<K, V>(storage: map<string, Json>, id: string,
                                        kc: TypeCodec<K>, vc: TypeCodec<V>, target: map<K, V>, i: nat)
    requires id in storage && storage[id].JArray?
    requires i < |storage[id].elements| && Misnamed(storage[id].elements[i])
    ensures var es := storage[id].elements;
            var r := ReadEntries(kc, vc, es);
            var f := FillMapStep(storage, false, id, kc, vc, target);
            && f.result.Err?
            && |r.pairs| <= i
            && f.target == PutAll(target, r.pairs)
            && (|r.pairs| == i && es[i].members[0].name != "key" ==>
                  f.result == Err(IoError(UnexpectedName("key", es[i].members[0].name))))
            && (|r.pairs| == i && es[i].members[0].name == "key" && kc.decode(es[i].members[0].value).Some? ==>
                  f.result == Err(IoError(UnexpectedName("value", es[i].members[1].name))))
  {
    MisnamedEntryStopsRead(kc, vc, storage[id].elements, i);
  }

  /** Pairs are put in array order, so the last entry with a given decoded key decides its value. */
  lemma FillMapLastWins<K, V>(storage: map<string, Json>, backendFails: bool, id: string,
                                 kc: TypeCodec<K>, vc: TypeCodec<V>, target: map<K, V>, i: nat)
    requires id in storage && !backendFails && storage[id].JArray?
    requires var ps := ReadEntries(kc, vc, storage[id].elements).pairs;
             i < |ps| && forall j :: i < j < |ps| ==> ps[j].0 != ps[i].0
    ensures var ps := ReadEntries(kc, vc, storage[id].elements).pairs;
            var filled := FillMapStep(storage, backendFails, id, kc, vc, target).target;
            ps[i].0 in filled && filled[ps[i].0] == ps[i].1
  {
    PutAllLastWins(target, ReadEntries(kc, vc, storage[id].elements).pairs, i);
  }

  /** The fill of a stored array, unfolded once. */
  lemma FillCollectionOfArray<T>(storage: map<string, Json>, id: string, c: TypeCodec<T>, isSet: bool, es: seq<Json>)
    requires id in storage && storage[id] == JArray(es)
    ensures var d := DecodeElements(c, es);
            FillCollectionStep(storage, false, id, c, isSet, []) ==
            Filled(if d.complete then Ok(true) else Err(SyntaxError), AddedAll(isSet, [], d.values))
  {
  }

  /** The map fill of a stored array, unfolded once. */
  lemma FillMapOfArray<K, V>(storage: map<string, Json>, id: string, kc: TypeCodec<K>, vc: TypeCodec<V>, es: seq<Json>)
    requires id in storage && storage[id] == JArray(es)
    ensures var r := ReadEntries(kc, vc, es);
            FillMapStep(storage, false, id, kc, vc, map[]) ==
            Filled(if r.failure.None? then Ok(true) else Err(r.failure.value), PutAll(map[], r.pairs))
  {
  }

  /** Putting a map's pairs, in an order that visits every key, into an empty map rebuilds it. */
  lemma PairsRebuildMap<K, V>(m: map<K, V>, iteration: seq<K>)
    requires Elements(iteration) == m.Keys
    ensures PutAll(map[], PairsOf(m, iteration)) == m
  {
    var ps := PairsOf(m, iteration);
    assert KeysOf(ps) == m.Keys by {
      forall k | k in m.Keys ensures k in KeysOf(ps) {
        var j :| 0 <= j < |iteration| && iteration[j] == k;
        assert ps[j].0 == k;
      }
    }
    PutAllKeys(map[], ps);
    PutAllAgreeing(map[], m, ps);
  }

  /** A list written by storeList reads back by getList as the same list, in order. */
  lemma ListRoundTrip<T(!new)>(storage: map<string, Json>, backendFails: bool, allowOverwrite: bool,
                               id: string, c: TypeCodec<T>, xs: seq<T>)
    requires RoundTrip(c)
    requires StoreStep(storage, backendFails, allowOverwrite, id, EncodeCollection(c, xs)).result == Ok(true)
    ensures var after := StoreStep(storage, backendFails, allowOverwrite, id, EncodeCollection(c, xs)).storage;
            Collected(FillCollectionStep(after, backendFails, id, c, false, [])) == Ok(xs)
  {
    var after := StoreStep(storage, backendFails, allowOverwrite, id, EncodeCollection(c, xs)).storage;
    var es := EncodeCollection(c, xs).elements;
    assert !backendFails && id in after && after[id] == JArray(es);
    assert DecodeElements(c, es) == Decoded(xs, true) by { CollectionRoundTrip(c, xs); }
    assert AddedAll(false, [], xs) == xs by { ListAddAllAppends([], xs); }
    FillCollectionOfArray(after, id, c, false, es);
  }

  /** A set written by storeSet, in any iteration order, reads back by getSet as the same set. */
  lemma SetRoundTrip<T(!new)>(storage: map<string, Json>, backendFails: bool, allowOverwrite: bool,
                              id: string, c: TypeCodec<T>, s: set<T>, iteration: seq<T>)
    requires RoundTrip(c) && Elements(iteration) == s
    requires StoreStep(storage, backendFails, allowOverwrite, id, EncodeCollection(c, iteration)).result == Ok(true)
    ensures var after := StoreStep(storage, backendFails, allowOverwrite, id, EncodeCollection(c, iteration)).storage;
            SetReply(after, backendFails, id, c) == Ok(s)
  {
    var after := StoreStep(storage, backendFails, allowOverwrite, id, EncodeCollection(c, iteration)).storage;
    var es := EncodeCollection(c, iteration).elements;
    assert !backendFails && id in after && after[id] == JArray(es);
    assert DecodeElements(c, es) == Decoded(iteration, true) by { CollectionRoundTrip(c, iteration); }
    assert Elements(AddedAll(true, [], iteration)) == s by {
      SetAddAllUnites([], iteration);
      assert Elements<T>([]) == {};
    }
    FillCollectionOfArray(after, id, c, true, es);
  }

  /** A map written by storeMap, in any iteration order, reads back by getMap as the same map. */
  lemma MapRoundTrip<K(!new), V(!new)>(storage: map<string, Json>, backendFails: bool, allowOverwrite: bool, id: string,
                                       kc: TypeCodec<K>, vc: TypeCodec<V>, m: map<K, V>, iteration: seq<K>)
    requires RoundTrip(kc) && RoundTrip(vc) && Elements(iteration) == m.Keys
    requires StoreStep(storage, backendFails, allowOverwrite, id, EncodeMap(kc, vc, m, iteration)).result == Ok(true)
    ensures var after := StoreStep(storage, backendFails, allowOverwrite, id, EncodeMap(kc, vc, m, iteration)).storage;
            Collected(FillMapStep(after, backendFails, id, kc, vc, map[])) == Ok(m)
  {
    var after := StoreStep(storage, backendFails, allowOverwrite, id, EncodeMap(kc, vc, m, iteration)).storage;
    var es := EncodeEntries(kc, vc, m, iteration);
    assert !backendFails && id in after && after[id] == JArray(es);
    var ps := PairsOf(m, iteration);
    assert ReadEntries(kc, vc, es) == Entries(ps, None) by { EntriesRoundTrip(kc, vc, m, iteration); }
    assert PutAll(map[], ps) == m by { PairsRebuildMap(m, iteration); }
    FillMapOfArray(after, id, kc, vc, es);
  }

  // ----- The engine -----

  class ObjectStoreRaw {
    /** Whether store* may replace an existing entry (mOverwrite). */
    var overwrite: bool
    /** The backend's entries: identifier to stored JSON. */
    var storage: map<string, Json>
    /** Whether the backend's getJson, storeJson and remove raise IOException. */
    const backendFails: bool

    constructor (storage: map<string, Json>, backendFails: bool)
      ensures this.storage == storage && this.backendFails == backendFails
      ensures overwrite
    {
      this.storage := storage;
      this.backendFails := backendFails;
      overwrite := true;
    }

    method SetOverwriteEnabled(enabled: bool)
      modifies this
      ensures overwrite == enabled && storage == old(storage)
    {
      overwrite := enabled;
    }

    /** Delegates to the backend; never fails and decodes nothing. */
    function Contains(id: string): (b: bool)
      reads this
      ensures b <==> id in storage
    {
      id in storage
    }

    method Remove(id: string) returns (r: Result<bool>)
      modifies this
      ensures Step(r, storage) == RemoveStep(old(storage), backendFails, id)
      ensures overwrite == old(overwrite)
    {
      if Contains(id) {
        if backendFails {
          r := Err(BackendError);
        } else {
          storage := storage - {id};
          r := Ok(true);
        }
      } else {
        r := Ok(false);
      }
    }

    method Store<T>(id: string, c: TypeCodec<T>, x: T) returns (r: Result<bool>)
      modifies this
      ensures Step(r, storage) == StoreStep(old(storage), backendFails, overwrite, id, c.encode(x))
      ensures overwrite == old(overwrite)
    {
      r := StoreIntern(id, c.encode(x), overwrite);
    }

    method Get<T>(id: string, c: TypeCodec<T>) returns (r: Result<Option<T>>)
      ensures r == GetReply(storage, backendFails, id, c)
    {
      if Contains(id) {
        if backendFails {
          return Err(BackendError);
        }
        var v := c.decode(storage[id]);
        if v.None? {
          return Err(SyntaxError);
        }
        return Ok(Some(v.value));
      } else {
        return Ok(None);
      }
    }

    method GetList<T(==)>(id: string, c: TypeCodec<T>) returns (r: Result<seq<T>>)
      ensures r == Collected(FillCollectionStep(storage, backendFails, id, c, false, []))
      ensures id !in storage ==> r == Ok([])
    {
      var list := new Collection<T>(false);
      var filled := FillCollection(id, c, list);
      r := if filled.Ok? then Ok(list.elements) else Err(filled.error);
    }

    method StoreList<T>(id: string, c: TypeCodec<T>, xs: seq<T>) returns (r: Result<bool>)
      modifies this
      ensures Step(r, storage) == StoreStep(old(storage), backendFails, overwrite, id, EncodeCollection(c, xs))
      ensures overwrite == old(overwrite)
    {
      r := StoreCollectionIntern(id, c, xs, overwrite);
    }

    method GetSet<T(==)>(id: string, c: TypeCodec<T>) returns (r: Result<set<T>>)
      ensures r == SetReply(storage, backendFails, id, c)
      ensures id !in storage ==> r == Ok({})
    {
      var objects := new Collection<T>(true);
      var filled := FillCollection(id, c, objects);
      assert Elements(objects.elements) == {} <== objects.elements == [];
      r := if filled.Ok? then Ok(Elements(objects.elements)) else Err(filled.error);
    }

    /** The set `s` is passed together with the order its iterator yields its elements in. */
    method StoreSet<T(==)>(id: string, c: TypeCodec<T>, s: set<T>, iteration: seq<T>) returns (r: Result<bool>)
      requires Elements(iteration) == s && Distinct(iteration)
      modifies this
      ensures Step(r, storage) == StoreStep(old(storage), backendFails, overwrite, id, EncodeCollection(c, iteration))
      ensures overwrite == old(overwrite)
    {
      r := StoreCollectionIntern(id, c, iteration, overwrite);
    }

    method GetMap<K(==), V>(id: string, kc: TypeCodec<K>, vc: TypeCodec<V>) returns (r: Result<map<K, V>>)
      ensures r == Collected(FillMapStep(storage, backendFails, id, kc, vc, map[]))
      ensures id !in storage ==> r == Ok(map[])
    {
      var m := new Dictionary<K, V>();
      var filled := FillMap(id, kc, vc, m);
      r := if filled.Ok? then Ok(m.entries) else Err(filled.error);
    }

    /** The map `m` is passed together with the order its entry set yields its keys in. */
    method StoreMap<K(==), V>(id: string, kc: TypeCodec<K>, vc: TypeCodec<V>, m: map<K, V>, iteration: seq<K>)
      returns (r: Result<bool>)
      requires Elements(iteration) == m.Keys && Distinct(iteration)
      modifies this
      ensures Step(r, storage) == StoreStep(old(storage), backendFails, overwrite, id, EncodeMap(kc, vc, m, iteration))
      ensures overwrite == old(overwrite)
    {
      r := StoreMapIntern(id, kc, vc, m, iteration, overwrite);
    }

    method FillCollection<T(==)>(id: string, c: TypeCodec<T>, target: Collection<T>) returns (r: Result<bool>)
      requires target.Valid()
      modifies target
      ensures Filled(r, target.elements) ==
              FillCollectionStep(storage, backendFails, id, c, target.isSet, old(target.elements))
      ensures target.Valid()
    {
      if !Contains(id) {
        return Ok(false);
      }
      if backendFails {
        return Err(BackendError);
      }
      var json := storage[id];
      if !json.JArray? {
        return Err(StateError);  // beginArray
      }
      var es := json.elements;
      ghost var added: seq<T> := [];
      var i := 0;
      while i < |es|
        invariant 0 <= i <= |es|
        invariant |added| == i
        invariant forall j :: 0 <= j < i ==> c.decode(es[j]) == Some(added[j])
        invariant target.elements == AddedAll(target.isSet, old(target.elements), added)
        invariant target.Valid()
      {
        var x := c.decode(es[i]);
        if x.None? {
          DecodeElementsStopsAt(c, es, added);
          return Err(SyntaxError);
        }
        target.Add(x.value);
        assert (added + [x.value])[..|added|] == added;
        added := added + [x.value];
        i := i + 1;
      }
      DecodeElementsStopsAt(c, es, added);
      return Ok(true);
    }

    method FillMap<K(==), V>(id: string, kc: TypeCodec<K>, vc: TypeCodec<V>, target: Dictionary<K, V>)
      returns (r: Result<bool>)
      modifies target
      ensures Filled(r, target.entries) == FillMapStep(storage, backendFails, id, kc, vc, old(target.entries))
    {
      if !Contains(id) {
        return Ok(false);
      }
      if backendFails {
        return Err(BackendError);
      }
      var json := storage[id];
      if !json.JArray? {
        return Err(StateError);  // beginArray
      }
      var failure := PutEntries(kc, vc, json.elements, target);
      return if failure.None? then Ok(true) else Err(failure.value);
    }

    /** fillMap's loop over the stored array: each entry read is put into the target,
        until the first entry that fails. */
    method PutEntries<K(==), V>(kc: TypeCodec<K>, vc: TypeCodec<V>, es: seq<Json>, target: Dictionary<K, V>)
      returns (failure: Option<Failure>)
      modifies target
      ensures var r := ReadEntries(kc, vc, es);
              failure == r.failure && target.entries == PutAll(old(target.entries), r.pairs)
    {
      ghost var put: seq<(K, V)> := [];
      var i := 0;
      while i < |es|
        invariant 0 <= i <= |es|
        invariant |put| == i
        invariant forall j :: 0 <= j < i ==> ReadEntry(kc, vc, es[j]) == Ok(put[j])
        invariant target.entries == PutAll(old(target.entries), put)
      {
        var entry := ReadTaggedEntry(kc, vc, es[i]);
        if entry.Err? {
          ReadEntriesStopsAt(kc, vc, es, put, Some(entry.error));
          return Some(entry.error);
        }
        target.Put(entry.value.0, entry.value.1);
        assert (put + [entry.value])[..|put|] == put;
        put := put + [entry.value];
        i := i + 1;
      }
      ReadEntriesStopsAt(kc, vc, es, put, None);
      return None;
    }

    /** One pass of fillMap's loop body: beginObject, the name check for "key", the key,
        the name check for "value", the value, endObject. */
    method ReadTaggedEntry<K, V>(kc: TypeCodec<K>, vc: TypeCodec<V>, element: Json) returns (r: Result<(K, V)>)
      ensures r == ReadEntry(kc, vc, element)
    {
      if !element.JObject? {
        return Err(StateError);  // beginObject
      }
      var members := element.members;
      if |members| == 0 {
        return Err(StateError);  // nextName
      }
      if members[0].name != "key" {
        return Err(IoError(UnexpectedName("key", members[0].name)));
      }
      var key := kc.decode(members[0].value);
      if key.None? {
        return Err(SyntaxError);
      }
      if |members| == 1 {
        return Err(StateError);  // nextName
      }
      if members[1].name != "value" {
        return Err(IoError(UnexpectedName("value", members[1].name)));
      }
      var value := vc.decode(members[1].value);
      if value.None? {
        return Err(SyntaxError);
      }
      if |members| > 2 {
        return Err(StateError);  // endObject
      }
      return Ok((key.value, value.value));
    }

    method StoreIntern(id: string, json: Json, allowOverwrite: bool) returns (r: Result<bool>)
      modifies this
      ensures Step(r, storage) == StoreStep(old(storage), backendFails, allowOverwrite, id, json)
      ensures overwrite == old(overwrite)
    {
      if allowOverwrite || !Contains(id) {
        if backendFails {
          r := Err(BackendError);
        } else {
          storage := storage[id := json];
          r := Ok(true);
        }
      } else {
        r := Ok(false);
      }
    }

    /** Collections are written through the single-value path, as one array. */
    method StoreCollectionIntern<T>(id: string, c: TypeCodec<T>, xs: seq<T>, allowOverwrite: bool) returns (r: Result<bool>)
      modifies this
      ensures Step(r, storage) == StoreStep(old(storage), backendFails, allowOverwrite, id, EncodeCollection(c, xs))
      ensures overwrite == old(overwrite)
    {
      r := StoreIntern(id, EncodeCollection(c, xs), allowOverwrite);
    }

    /** Writes one tagged object per entry, in iteration order, inside a single array. */
    method StoreMapIntern<K(==), V>(id: string, kc: TypeCodec<K>, vc: TypeCodec<V>, m: map<K, V>, iteration: seq<K>,
                                    allowOverwrite: bool) returns (r: Result<bool>)
      requires forall i :: 0 <= i < |iteration| ==> iteration[i] in m
      modifies this
      ensures Step(r, storage) == StoreStep(old(storage), backendFails, allowOverwrite, id, EncodeMap(kc, vc, m, iteration))
      ensures overwrite == old(overwrite)
    {
      if allowOverwrite || !Contains(id) {
        var written: seq<Json> := [];  // the array elements in the writer's buffer
        for i := 0 to |iteration|
          invariant written == EncodeEntries(kc, vc, m, iteration[..i])
        {
          var k := iteration[i];
          written := written + [TaggedEntry(kc.encode(k), vc.encode(m[k]))];
        }
        assert iteration[..|iteration|] == iteration;
        if backendFails {
          r := Err(BackendError);
        } else {
          storage := storage[id := JArray(written)];
          r := Ok(true);
        }
      } else {
        r := Ok(false);
      }
    }
  }
}

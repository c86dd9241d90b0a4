/** ObjectStore, the error-translating facade over the engine: each wrapper calls the
    engine and turns a caught exception into false or null. Only the exceptions the
    Java code catches are translated; the others leave the facade unchanged. */
module Facade {
  import opened Json
  import opened Results
  import opened Codecs
  import opened Wire
  import opened Targets
  import opened Engine

  /** The catch of the boolean wrappers (remove, store*, fill*): an IOException becomes false. */
  function CatchIo(r: Result<bool>): (o: Result<bool>)
    ensures r.Ok? ==> o == r
    ensures r.Err? && r.error.IsChecked() ==> o == Ok(false)
    ensures r.Err? && !r.error.IsChecked() ==> o == r
    ensures o.Err? ==> o == r && !o.error.IsChecked()
  {
    if r.Err? && r.error.IoError? then Ok(false) else r
  }

  /** The catch of get: a JsonSyntaxException or an IOException becomes null. */
  function CatchGet<T>(r: Result<Option<T>>): (o: Result<Option<T>>)
    ensures r.Ok? ==> o == r
    ensures r.Err? && (r.error.IsChecked() || r.error.SyntaxError?) ==> o == Ok(None)
    ensures o.Err? ==> o == r && o.error.StateError?
  {
    if r.Err? && (r.error.IoError? || r.error.SyntaxError?) then Ok(None) else r
  }

  /** The catch clause of getList, getSet and getMap, as written: an IOException becomes
      null (None), while a collection, even an empty one, is returned as it is. */
  function CatchCollection<C>(r: Result<C>): (o: Result<Option<C>>)
    ensures r.Ok? ==> o == Ok(Some(r.value))
    ensures r.Err? && r.error.IsChecked() ==> o == Ok(None)
    ensures r.Err? && !r.error.IsChecked() ==> o == Err(r.error)
    ensures o.Err? ==> r.Err? && o.error == r.error && !r.error.IsChecked()
  {
    match r
    case Ok(c) => Ok(Some(c))
    case Err(e) => if e.IoError? then Ok(None) else Err(e)
  }

  /** getList, getSet and getMap as they run on the facade. The inherited getter calls
      fillCollection or fillMap on the facade itself, so the facade's own fill runs and
      has already turned an IOException into false. The getter then returns the container,
      and its catch-to-null never applies. */
  function FacadeCollected<C>(f: Filled<C>): (o: Result<Option<C>>)
    ensures o.Ok? <==> f.result.Ok? || f.result.error.IsChecked()
    ensures o.Ok? ==> o.value == Some(f.target)
    ensures o.Err? ==> o.error == f.result.error && !o.error.IsChecked()
  {
    CatchCollection(Collected(Filled(CatchIo(f.result), f.target)))
  }

  /** getSet on the facade: the elements of the fresh set after the facade's own fill. */
  function FacadeSetReply<T(==)>(storage: map<string, Json>, backendFails: bool, id: string, c: TypeCodec<T>)
    : (r: Result<Option<set<T>>>)
    ensures r.Ok? <==> FillCollectionStep(storage, backendFails, id, c, true, []).result.Ok? || backendFails
    ensures r.Err? ==> r.error == FillCollectionStep(storage, backendFails, id, c, true, []).result.error
    ensures r.Ok? ==> r.value.Some?
    ensures id !in storage || backendFails ==> r == Ok(Some({}))
    ensures r.Err? ==> r.error.SyntaxError? || r.error.StateError?
    ensures r.Ok? && id in storage && !backendFails ==>
      storage[id].JArray? && r.value == Some(DecodedSet(c, storage[id].elements))
  {
    var f := FillCollectionStep(storage, backendFails, id, c, true, []);
    assert Elements<T>([]) == {};
    if id in storage && !backendFails && storage[id].JArray? && f.result.Ok? then
      var es := storage[id].elements;
      assert f.target == AddedAll(true, [], DecodeElements(c, es).values);
      SetAddAllUnites([], DecodeElements(c, es).values);
      DecodedMembers(c, es);
      assert Elements(f.target) == DecodedSet(c, es);
      assert FacadeCollected(Filled(f.result, Elements(f.target))) == Ok(Some(Elements(f.target)));
      FacadeCollected(Filled(f.result, Elements(f.target)))
    else FacadeCollected(Filled(f.result, Elements(f.target)))
  }

  /** The facade's get never raises: the engine's get fails only with the two exceptions it catches. */
  lemma FacadeGetNeverRaises<T>(storage: map<string, Json>, backendFails: bool, id: string, c: TypeCodec<T>)
    ensures CatchGet(GetReply(storage, backendFails, id, c)).Ok?
    ensures id in storage && backendFails ==> CatchGet(GetReply(storage, backendFails, id, c)) == Ok(None)
  {
  }

  /** Through the facade, getList, getSet and getMap never answer null. A backend failure
      on a present identifier answers the same empty container as an absent identifier. */
  lemma FacadeFailureLooksLikeAbsence<T, K, V>(storage: map<string, Json>, id: string,
                                              c: TypeCodec<T>, kc: TypeCodec<K>, vc: TypeCodec<V>)
    requires id in storage
    ensures var absent := storage - {id};
      && FacadeCollected(FillCollectionStep(storage, true, id, c, false, [])) == Ok(Some([]))
      && FacadeCollected(FillCollectionStep(absent, false, id, c, false, [])) == Ok(Some([]))
      && FacadeSetReply(storage, true, id, c) == FacadeSetReply(absent, false, id, c) == Ok(Some({}))
      && FacadeCollected(FillMapStep(storage, true, id, kc, vc, map[])) == Ok(Some(map[]))
      && FacadeCollected(FillMapStep(absent, false, id, kc, vc, map[])) == Ok(Some(map[]))
  {
  }

  /** Through the facade, getMap answers a payload that breaks the name protocol with the
      map of the entries before the misnamed one, and not with an error or null; a misnamed
      first entry gives the empty map. */
  lemma FacadeMapHidesMisnamed<K, V>(storage: map<string, Json>, id: string,
                                     kc: TypeCodec<K>, vc: TypeCodec<V>, i: nat)
    requires id in storage && storage[id].JArray?
    requires i < |storage[id].elements| && Misnamed(storage[id].elements[i])
    requires forall j :: 0 <= j < i ==> ReadEntry(kc, vc, storage[id].elements[j]).Ok?
    requires storage[id].elements[i].members[0].name == "key" ==>
             kc.decode(storage[id].elements[i].members[0].value).Some?
    ensures var r := ReadEntries(kc, vc, storage[id].elements);
            && |r.pairs| == i
            && FacadeCollected(FillMapStep(storage, false, id, kc, vc, map[])) == Ok(Some(PutAll(map[], r.pairs)))
    ensures i == 0 ==> FacadeCollected(FillMapStep(storage, false, id, kc, vc, map[])) == Ok(Some(map[]))
  {
    MisnamedEntryStopsRead(kc, vc, storage[id].elements, i);
  }

  /** The facade does not hide an element Gson rejects: getList still raises the
      JsonSyntaxException. */
  lemma FacadeListRaisesOnUndecodable<T>(storage: map<string, Json>, id: string, c: TypeCodec<T>)
    requires id in storage && storage[id].JArray?
    requires !DecodeElements(c, storage[id].elements).complete
    ensures FacadeCollected(FillCollectionStep(storage, false, id, c, false, [])) == Err(SyntaxError)
  {
  }

  class ObjectStore {
    /** The engine this facade extends. */
    const raw: ObjectStoreRaw

    constructor (storage: map<string, Json>, backendFails: bool)
      ensures fresh(raw)
      ensures raw.storage == storage && raw.backendFails == backendFails && raw.overwrite
    {
      raw := new ObjectStoreRaw(storage, backendFails);
    }

    method Remove(id: string) returns (r: Result<bool>)
      modifies raw
      ensures var s := RemoveStep(old(raw.storage), raw.backendFails, id);
              r == CatchIo(s.result) && raw.storage == s.storage
      ensures raw.overwrite == old(raw.overwrite)
    {
      var e := raw.Remove(id);
      r := CatchIo(e);
    }

    method Store<T>(id: string, c: TypeCodec<T>, x: T) returns (r: Result<bool>)
      modifies raw
      ensures var s := StoreStep(old(raw.storage), raw.backendFails, raw.overwrite, id, c.encode(x));
              r == CatchIo(s.result) && raw.storage == s.storage
      ensures raw.overwrite == old(raw.overwrite)
    {
      var e := raw.Store(id, c, x);
      r := CatchIo(e);
    }

    method Get<T>(id: string, c: TypeCodec<T>) returns (r: Result<Option<T>>)
      ensures r == CatchGet(GetReply(raw.storage, raw.backendFails, id, c))
    {
      var e := raw.Get(id, c);
      r := CatchGet(e);
    }

    /** The inherited ObjectStoreRaw.getList runs with its fillCollection call bound to
        this facade's override. */
    method GetList<T(==)>(id: string, c: TypeCodec<T>) returns (r: Result<Option<seq<T>>>)
      ensures r == FacadeCollected(FillCollectionStep(raw.storage, raw.backendFails, id, c, false, []))
    {
      var list := new Collection<T>(false);
      var filled := FillCollection(id, c, list);
      var e := if filled.Ok? then Ok(list.elements) else Err(filled.error);
      r := CatchCollection(e);
    }

    method StoreList<T>(id: string, c: TypeCodec<T>, xs: seq<T>) returns (r: Result<bool>)
      modifies raw
      ensures var s := StoreStep(old(raw.storage), raw.backendFails, raw.overwrite, id, EncodeCollection(c, xs));
              r == CatchIo(s.result) && raw.storage == s.storage
      ensures raw.overwrite == old(raw.overwrite)
    {
      var e := raw.StoreList(id, c, xs);
      r := CatchIo(e);
    }

    /** The inherited ObjectStoreRaw.getSet, with its fillCollection call bound to this
        facade's override. */
    method GetSet<T(==)>(id: string, c: TypeCodec<T>) returns (r: Result<Option<set<T>>>)
      ensures r == FacadeSetReply(raw.storage, raw.backendFails, id, c)
    {
      var objects := new Collection<T>(true);
      var filled := FillCollection(id, c, objects);
      var e := if filled.Ok? then Ok(Elements(objects.elements)) else Err(filled.error);
      r := CatchCollection(e);
    }

    method StoreSet<T(==)>(id: string, c: TypeCodec<T>, s: set<T>, iteration: seq<T>) returns (r: Result<bool>)
      requires Elements(iteration) == s && Distinct(iteration)
      modifies raw
      ensures var st := StoreStep(old(raw.storage), raw.backendFails, raw.overwrite, id, EncodeCollection(c, iteration));
              r == CatchIo(st.result) && raw.storage == st.storage
      ensures raw.overwrite == old(raw.overwrite)
    {
      var e := raw.StoreSet(id, c, s, iteration);
      r := CatchIo(e);
    }

    /** The inherited ObjectStoreRaw.getMap, with its fillMap call bound to this facade's override. */
    method GetMap<K(==), V>(id: string, kc: TypeCodec<K>, vc: TypeCodec<V>) returns (r: Result<Option<map<K, V>>>)
      ensures r == FacadeCollected(FillMapStep(raw.storage, raw.backendFails, id, kc, vc, map[]))
    {
      var m := new Dictionary<K, V>();
      var filled := FillMap(id, kc, vc, m);
      var e := if filled.Ok? then Ok(m.entries) else Err(filled.error);
      r := CatchCollection(e);
    }

    method StoreMap<K(==), V>(id: string, kc: TypeCodec<K>, vc: TypeCodec<V>, m: map<K, V>, iteration: seq<K>)
      returns (r: Result<bool>)
      requires Elements(iteration) == m.Keys && Distinct(iteration)
      modifies raw
      ensures var s := StoreStep(old(raw.storage), raw.backendFails, raw.overwrite, id, EncodeMap(kc, vc, m, iteration));
              r == CatchIo(s.result) && raw.storage == s.storage
      ensures raw.overwrite == old(raw.overwrite)
    {
      var e := raw.StoreMap(id, kc, vc, m, iteration);
      r := CatchIo(e);
    }

    method FillCollection<T(==)>(id: string, c: TypeCodec<T>, target: Collection<T>) returns (r: Result<bool>)
      requires target.Valid()
      modifies target
      ensures var f := FillCollectionStep(raw.storage, raw.backendFails, id, c, target.isSet, old(target.elements));
              r == CatchIo(f.result) && target.elements == f.target
      ensures target.Valid()
    {
      var e := raw.FillCollection(id, c, target);
      r := CatchIo(e);
    }

    method FillMap<K(==), V>(id: string, kc: TypeCodec<K>, vc: TypeCodec<V>, target: Dictionary<K, V>)
      returns (r: Result<bool>)
      modifies target
      ensures var f := FillMapStep(raw.storage, raw.backendFails, id, kc, vc, old(target.entries));
              r == CatchIo(f.result) && target.entries == f.target
    {
      var e := raw.FillMap(id, kc, vc, target);
      r := CatchIo(e);
    }
  }
}

# ObjectStore engine, modelled in Dafny

This project models the synchronous core of ObjectStoreLib, an Android object-persistence
library. The library stores typed Java values as JSON text under string identifiers in a
pluggable backend (`IJsonStorage`). The model covers two classes:

- `ObjectStoreRaw`, the engine. It enforces the overwrite policy of `store*`, answers
  `get` with null for an absent identifier, streams a stored JSON array into a caller-owned
  collection (`fillCollection`), and reads and writes maps as a JSON array of tagged objects
  `{"key": k, "value": v}` (`fillMap`, `storeMapIntern`).
- `ObjectStore`, the facade that extends the engine and turns the exceptions it catches
  into `false` or `null`.

Files and modules:

| file | module | contents |
|---|---|---|
| results.dfy | `Results` | `Option`, `Result`, and `Failure`, one case per Java exception class the engine raises |
| json.dfy | `Json` | the JSON value datatype; object members keep their order |
| codecs.dfy | `Codecs` | `TypeCodec<T>`, Gson's encoder and decoder for one Java type, and the `RoundTrip` assumption |
| wire.dfy | `Wire` | the collection and tagged-map wire formats, and the pure decoders the read loops follow |
| targets.dfy | `Targets` | the caller-owned `Collection` (List or Set) and `Dictionary` (Map) that the fill operations change in place |
| engine.dfy | `Engine` | one specification function per engine operation, lemmas about them, and the class `ObjectStoreRaw` |
| facade.dfy | `Facade` | the catch translations, lemmas about them, and the class `ObjectStore` |

Representation choices:

- The backend is the field `ObjectStoreRaw.storage: map<string, Json>`. A store replaces any
  existing entry, as the SQLite backend's replace-on-conflict insert does.
- Backend I/O failure is the constant `backendFails`, fixed at construction. When it is set,
  `getJson`, `storeJson` and `remove` raise an IOException and change nothing, while
  `contains` still answers.
- Each engine method is proved equal to a specification function of the old state:
  `StoreStep`, `RemoveStep`, `GetReply`, `FillCollectionStep` or `FillMapStep`. The lemmas
  state what the library promises about those functions. Each facade method is proved equal
  to a catch translation (`CatchIo`, `CatchGet`, `CatchCollection`) applied to that same
  engine specification, with the same final state. The exceptions are `getList`, `getSet`
  and `getMap`. The facade inherits them from `ObjectStoreRaw`, and their calls to
  `fillCollection` or `fillMap` go to the facade's own overrides (Java virtual dispatch).
  The model therefore runs those getters over the facade's fill (`Facade.FacadeCollected`).
- A Java `Set` or `Map` argument is passed together with the order its iterator yields
  (`iteration`). The sequence must enumerate the elements or keys without duplicates.

In these places the model follows the code:

- The facade's wrappers catch only `IOException`; `get` also catches `JsonSyntaxException`.
  An element that Gson cannot decode still raises `JsonSyntaxException` through the facade's
  `fillCollection`, `getList` and `getSet`. A stored value of the wrong shape raises
  `IllegalStateException` through them too. So the facade does not turn every failure into
  `false` or `null`, and `Facade.CatchIo` and `Facade.CatchCollection` let those failures
  through.
- The facade's `getList`, `getSet` and `getMap` never return null. The overriding fill has
  already caught the IOException and returned false, and the inherited getter then returns the
  empty or partly filled container. A backend failure therefore reads as an absent identifier,
  and a map payload with a misnamed entry reads as the entries before it. The catch-to-null
  clauses of the three getters are kept in the model (`Facade.CatchCollection`), but their
  IOException case is never reached.
- The map reader checks two member names explicitly, and a wrong name raises an IOException.
  An object with extra members is rejected only by `JsonReader.endObject`, which raises
  `IllegalStateException` (`StateError`). An empty object, or one with a single member, is
  rejected by `nextName` in the same way.
- The fill operations are not atomic. When an element fails, the elements before it have
  already been added to the caller's collection or map.

## Model

| member | source | states |
|---|---|---|
| Wire.EncodeCollection | src/de/sabian/objectstore/ObjectStoreRaw.java:173-177 | a collection is written as one JSON array holding one encoded element per element, in iteration order |
| Wire.DecodeElements | src/de/sabian/objectstore/ObjectStoreRaw.java:122-127 | the read loop decodes the longest prefix of array elements that Gson accepts; it reaches the end iff every element decodes; otherwise it stops at the first element that does not decode |
| Wire.DecodeElementsStopsAt | src/de/sabian/objectstore/ObjectStoreRaw.java:123-126 | any prefix of decoded values that reaches the end of the array, or stops at an undecodable element, is exactly what DecodeElements yields |
| Wire.CollectionRoundTrip | src/de/sabian/objectstore/ObjectStoreRaw.java:173-177 | under codec round-trip, decoding the array written for a collection gives every element back, in order |
| Wire.TaggedEntry | src/de/sabian/objectstore/ObjectStoreRaw.java:186-192 | one entry is written as an object whose members are "key" and then "value", holding the encoded key and value; it is never misnamed |
| Wire.EncodeEntries | src/de/sabian/objectstore/ObjectStoreRaw.java:185-193 | one tagged object per visited key, in iteration order, carrying that key's encoding and the encoding of its value |
| Wire.EncodeMap | src/de/sabian/objectstore/ObjectStoreRaw.java:184-194 | the map payload is a single array with one correctly tagged object per visited key |
| Wire.ReadEntry | src/de/sabian/objectstore/ObjectStoreRaw.java:141-153 | one map entry is accepted iff it is an object with exactly the members "key" then "value" and both decode; a first name other than "key" is the IOException naming the member found; after a decodable key, a second name other than "value" is the IOException naming that member; a misnamed entry is never accepted |
| Wire.NameCheckMessage | src/de/sabian/objectstore/ObjectStoreRaw.java:143-150 | the IOException of a failed name check carries the message "expected name key but found: " or "expected name value but found: " followed by the name found |
| Wire.TaggedEntryReadsBack | src/de/sabian/objectstore/ObjectStoreRaw.java:186-192 | under codec round-trip, the object written for an entry is read back as that entry |
| Wire.ReadEntries | src/de/sabian/objectstore/ObjectStoreRaw.java:139-155 | the read loop yields one pair per accepted element, in array order, and stops at the first element that fails, reporting that element's failure |
| Wire.ReadEntriesStopsAt | src/de/sabian/objectstore/ObjectStoreRaw.java:140-154 | the pairs read so far plus the failure that stopped the loop, or none at the end, are exactly what ReadEntries yields |
| Wire.AcceptedEntriesAreTagged | src/de/sabian/objectstore/ObjectStoreRaw.java:141-152 | a map payload read without failure consists only of objects tagged "key" then "value" |
| Wire.MisnamedEntryStopsRead | src/de/sabian/objectstore/ObjectStoreRaw.java:141-150 | a misnamed element is never skipped or repaired: reading stops at it or earlier; when reading stops at it, the failure is the IOException naming the wrong first name, or the wrong second name after a decodable key |
| Wire.EntriesRoundTrip | src/de/sabian/objectstore/ObjectStoreRaw.java:184-194 | under codec round-trip, reading the tagged entries written for a map yields its pairs in the order they were written |
| Targets.ListAddAllAppends | src/de/sabian/objectstore/ObjectStoreRaw.java:83-84 | adding elements to a list keeps the old contents and appends the new elements in order |
| Targets.SetAddAllUnites | src/de/sabian/objectstore/ObjectStoreRaw.java:95-96 | adding elements to a set yields the union of old and new elements, each held once |
| Targets.Collection.constructor | src/de/sabian/objectstore/ObjectStoreRaw.java:83 | a new ArrayList or HashSet is empty |
| Targets.Collection.Add | src/de/sabian/objectstore/ObjectStoreRaw.java:125 | Collection.add appends to a list, and appends to a set only an element it does not already hold, so a set keeps each element once |
| Targets.PutAllKeys | src/de/sabian/objectstore/ObjectStoreRaw.java:153 | putting pairs adds exactly their keys to the map |
| Targets.PutAllLastWins | src/de/sabian/objectstore/ObjectStoreRaw.java:153 | the last pair with a given key decides its value, so a later duplicate overwrites an earlier one |
| Targets.PutAllUntouched | src/de/sabian/objectstore/ObjectStoreRaw.java:153 | a key that no pair mentions keeps its old entry, or stays absent |
| Targets.PutAllAgreeing | src/de/sabian/objectstore/ObjectStoreRaw.java:153 | after putting pairs that agree with a source map, every key they mention holds its value in that map |
| Targets.Dictionary.constructor | src/de/sabian/objectstore/ObjectStoreRaw.java:107 | a new HashMap is empty |
| Targets.Dictionary.Put | src/de/sabian/objectstore/ObjectStoreRaw.java:153 | Map.put sets one key and leaves every other entry alone |
| Engine.FillCollectionStep | src/de/sabian/objectstore/ObjectStoreRaw.java:117-132 | the fill answers false iff the identifier is absent and true iff the stored array decodes completely; failures are IOException for a failing backend, IllegalStateException for a non-array and JsonSyntaxException otherwise; absence, backend failure and a non-array leave the target unchanged |
| Engine.FillMapStep | src/de/sabian/objectstore/ObjectStoreRaw.java:134-160 | the map fill answers false iff the identifier is absent and true iff every entry of the stored array is read; a failure is IOException for a failing backend, IllegalStateException for a non-array, and otherwise the failure of the first entry that fails; absence, backend failure and a non-array leave the target unchanged |
| Engine.Collected | src/de/sabian/objectstore/ObjectStoreRaw.java:81-86 | getList and getMap ignore the fill's boolean: any successful fill returns the filled container, and a failure propagates |
| Engine.SetReply | src/de/sabian/objectstore/ObjectStoreRaw.java:93-98 | getSet succeeds iff the fill does, and otherwise raises exactly the fill's failure; an absent identifier gives the empty set; a stored array gives exactly the set of values its elements decode to |
| Engine.DecodedMembers | src/de/sabian/objectstore/ObjectStoreRaw.java:122-127 | when every element decodes, the elements read are exactly the values some array element decodes to |
| Engine.StoreStep | src/de/sabian/objectstore/ObjectStoreRaw.java:162-171 | a store answers false, writing nothing, iff overwrite is off and the identifier is present; otherwise it writes the entry and answers true, or, on a failing backend, raises IOException and changes nothing; no other entry changes |
| Engine.RemoveStep | src/de/sabian/objectstore/ObjectStoreRaw.java:61-67 | remove answers false without side effects iff the identifier is absent; otherwise it deletes exactly that entry and answers true, or raises IOException on a failing backend |
| Engine.GetReply | src/de/sabian/objectstore/ObjectStoreRaw.java:73-79 | get answers null iff the identifier is absent; on a working backend a present entry that decodes is returned, and a value it returns is always the decoding of the stored JSON; its failures are IOException from the backend or JsonSyntaxException from decoding |
| Engine.SecondStoreWinsOnlyWithOverwrite | src/de/sabian/objectstore/ObjectStoreRaw.java:162-171 | storing a then b under a fresh identifier leaves a readable with overwrite off, and b with overwrite on; the second store answers whether overwrite is on |
| Engine.StoreThenGet | src/de/sabian/objectstore/ObjectStoreRaw.java:164-167 | after a successful store, get with the same codec returns the stored value, and every other identifier is present iff it was before |
| Engine.RemoveTwice | src/de/sabian/objectstore/ObjectStoreRaw.java:61-67 | on a working backend, removing a present identifier twice answers true then false, and only that entry is gone |
| Engine.FillFromAbsentLeavesTarget | src/de/sabian/objectstore/ObjectStoreRaw.java:117-160 | fillCollection and fillMap on an absent identifier answer false and leave the target unchanged, so getList answers an empty list |
| Engine.FillListAppends | src/de/sabian/objectstore/ObjectStoreRaw.java:117-132 | a successful fill of a list keeps its old contents and appends one decoded element per stored array element, in array order |
| Engine.FillListStopsAtUndecodable | src/de/sabian/objectstore/ObjectStoreRaw.java:123-126 | a fill that meets an undecodable element raises JsonSyntaxException after appending the elements before it |
| Engine.FillSetUnites | src/de/sabian/objectstore/ObjectStoreRaw.java:93-98 | a successful fill of a set adds the decoded elements to its contents and holds each element once |
| Engine.FillMapAcceptsOnlyTagged | src/de/sabian/objectstore/ObjectStoreRaw.java:141-152 | fillMap succeeds only on an array whose elements are all objects tagged "key" then "value" |
| Engine.FillMapRejectsMisnamed | src/de/sabian/objectstore/ObjectStoreRaw.java:141-150 | a misnamed element makes fillMap fail, and the target receives only the pairs before it; a wrong first name, or a wrong second name after a decodable key, is the IOException naming the member found |
| Engine.FillMapLastWins | src/de/sabian/objectstore/ObjectStoreRaw.java:153 | fillMap puts pairs in array order, so the last entry with a given decoded key decides its value |
| Engine.PairsRebuildMap | src/de/sabian/objectstore/ObjectStoreRaw.java:185 | putting a map's entries, in an order that visits every key, into an empty map rebuilds the map |
| Engine.ListRoundTrip | src/de/sabian/objectstore/ObjectStoreRaw.java:81-91 | a list written by storeList is read back by getList as the same list, in the same order |
| Engine.SetRoundTrip | src/de/sabian/objectstore/ObjectStoreRaw.java:93-103 | a set written by storeSet, in any iteration order, is read back by getSet as the same set |
| Engine.MapRoundTrip | src/de/sabian/objectstore/ObjectStoreRaw.java:179-201 | a map written by storeMap, in any iteration order, is read back by getMap as a map equal to the original |
| Engine.ObjectStoreRaw.constructor | src/de/sabian/objectstore/ObjectStoreRaw.java:47-51 | a new engine has overwrite enabled and the backend's entries |
| Engine.ObjectStoreRaw.SetOverwriteEnabled | src/de/sabian/objectstore/ObjectStoreRaw.java:53-55 | sets the overwrite flag and touches no entry |
| Engine.ObjectStoreRaw.Contains | src/de/sabian/objectstore/ObjectStoreRaw.java:57-59 | answers whether the backend holds the identifier, without failing |
| Engine.ObjectStoreRaw.Remove | src/de/sabian/objectstore/ObjectStoreRaw.java:61-67 | result and new entries are those of RemoveStep; the flag is unchanged |
| Engine.ObjectStoreRaw.Store | src/de/sabian/objectstore/ObjectStoreRaw.java:69-71 | result and new entries are those of StoreStep, under the current flag, for the value's encoding |
| Engine.ObjectStoreRaw.Get | src/de/sabian/objectstore/ObjectStoreRaw.java:73-79 | answers GetReply and changes nothing |
| Engine.ObjectStoreRaw.GetList | src/de/sabian/objectstore/ObjectStoreRaw.java:81-86 | answers the contents of a fresh list after the fill, or the fill's failure; an absent identifier gives an empty list |
| Engine.ObjectStoreRaw.StoreList | src/de/sabian/objectstore/ObjectStoreRaw.java:88-91 | writes the list as one array of encoded elements under the overwrite policy of StoreStep |
| Engine.ObjectStoreRaw.GetSet | src/de/sabian/objectstore/ObjectStoreRaw.java:93-98 | answers the elements of a fresh set after the fill, or the fill's failure; an absent identifier gives an empty set |
| Engine.ObjectStoreRaw.StoreSet | src/de/sabian/objectstore/ObjectStoreRaw.java:100-103 | writes the set, in its iteration order, as one array under the overwrite policy of StoreStep |
| Engine.ObjectStoreRaw.GetMap | src/de/sabian/objectstore/ObjectStoreRaw.java:105-110 | answers the entries of a fresh map after the fill, or the fill's failure; an absent identifier gives an empty map |
| Engine.ObjectStoreRaw.StoreMap | src/de/sabian/objectstore/ObjectStoreRaw.java:112-115 | writes the tagged-entry array for the map under the overwrite policy of StoreStep |
| Engine.ObjectStoreRaw.FillCollection | src/de/sabian/objectstore/ObjectStoreRaw.java:117-132 | result and the target's new contents are those of FillCollectionStep: absent gives false and no change; otherwise decoded elements are added in array order until the first failure; a set target stays duplicate-free |
| Engine.ObjectStoreRaw.FillMap | src/de/sabian/objectstore/ObjectStoreRaw.java:134-160 | result and the target's new entries are those of FillMapStep: absent gives false and no change; otherwise tagged pairs are put in array order until the first failing element |
| Engine.ObjectStoreRaw.PutEntries | src/de/sabian/objectstore/ObjectStoreRaw.java:140-155 | the loop of fillMap puts exactly the pairs ReadEntries reads, in array order, and reports the failure of the first entry that fails |
| Engine.ObjectStoreRaw.ReadTaggedEntry | src/de/sabian/objectstore/ObjectStoreRaw.java:141-152 | one pass of the loop body reads exactly what ReadEntry specifies, raising each failure where its JsonReader or Gson call does |
| Engine.ObjectStoreRaw.StoreIntern | src/de/sabian/objectstore/ObjectStoreRaw.java:162-171 | result and new entries are those of StoreStep for the given flag |
| Engine.ObjectStoreRaw.StoreCollectionIntern | src/de/sabian/objectstore/ObjectStoreRaw.java:173-177 | a collection goes through the single-value path as one array of encoded elements |
| Engine.ObjectStoreRaw.StoreMapIntern | src/de/sabian/objectstore/ObjectStoreRaw.java:179-201 | when the guard allows, one tagged object per entry, in iteration order, is written inside a single array; otherwise nothing is written and the answer is false |
| Facade.CatchIo | src/de/sabian/objectstore/ObjectStore.java:38-45 | an engine success passes through unchanged, an IOException becomes false, and every unchecked failure propagates unchanged |
| Facade.CatchGet | src/de/sabian/objectstore/ObjectStore.java:56-66 | an engine success passes through unchanged; an IOException or JsonSyntaxException becomes null |
| Facade.CatchCollection | src/de/sabian/objectstore/ObjectStore.java:68-75 | the catch clause as written: a collection, even an empty one, passes through; an IOException becomes null; every unchecked failure propagates unchanged |
| Facade.FacadeCollected | src/de/sabian/objectstore/ObjectStore.java:68-75 | getList and getMap on the facade, over the overriding fill: the result is never null; the container is returned whenever the fill succeeds or hits an IOException; only unchecked failures propagate |
| Facade.FacadeSetReply | src/de/sabian/objectstore/ObjectStore.java:86-94 | getSet on the facade succeeds iff the fill succeeds or the backend fails, and otherwise raises the fill's failure; it is never null; absence or a backend failure gives the empty set; on a working backend a set result is exactly the values the stored elements decode to; only JsonSyntaxException or IllegalStateException propagate |
| Facade.FacadeGetNeverRaises | src/de/sabian/objectstore/ObjectStore.java:56-66 | the facade's get never raises, and a backend failure on a present identifier gives null |
| Facade.FacadeFailureLooksLikeAbsence | src/de/sabian/objectstore/ObjectStore.java:124-143 | through the facade, a backend failure on a present identifier gives the same empty list, set and map as an absent identifier |
| Facade.FacadeMapHidesMisnamed | src/de/sabian/objectstore/ObjectStore.java:134-143 | through the facade, a map payload with a misnamed entry reads as the map of the entries before it, not as an error or null; a misnamed first entry gives the empty map |
| Facade.FacadeListRaisesOnUndecodable | src/de/sabian/objectstore/ObjectStore.java:68-75 | an element Gson rejects still raises JsonSyntaxException through the facade's getList |
| Facade.ObjectStore.constructor | src/de/sabian/objectstore/ObjectStore.java:34-36 | a new facade holds a fresh engine over the given backend, with overwrite enabled |
| Facade.ObjectStore.Remove | src/de/sabian/objectstore/ObjectStore.java:38-45 | answers CatchIo of the engine's remove and leaves exactly the engine's new entries |
| Facade.ObjectStore.Store | src/de/sabian/objectstore/ObjectStore.java:47-54 | answers CatchIo of the engine's store and leaves exactly the engine's new entries |
| Facade.ObjectStore.Get | src/de/sabian/objectstore/ObjectStore.java:56-66 | answers CatchGet of the engine's get |
| Facade.ObjectStore.GetList | src/de/sabian/objectstore/ObjectStore.java:68-75 | runs the inherited getList with its fill bound to the facade's override, and answers FacadeCollected of the engine's fill |
| Facade.ObjectStore.StoreList | src/de/sabian/objectstore/ObjectStore.java:77-84 | answers CatchIo of the engine's storeList and leaves exactly the engine's new entries |
| Facade.ObjectStore.GetSet | src/de/sabian/objectstore/ObjectStore.java:86-94 | runs the inherited getSet with its fill bound to the facade's override, and answers FacadeSetReply |
| Facade.ObjectStore.StoreSet | src/de/sabian/objectstore/ObjectStore.java:96-103 | answers CatchIo of the engine's storeSet and leaves exactly the engine's new entries |
| Facade.ObjectStore.GetMap | src/de/sabian/objectstore/ObjectStore.java:105-113 | runs the inherited getMap with its fillMap bound to the facade's override, and answers FacadeCollected of the engine's map fill |
| Facade.ObjectStore.StoreMap | src/de/sabian/objectstore/ObjectStore.java:115-122 | answers CatchIo of the engine's storeMap and leaves exactly the engine's new entries |
| Facade.ObjectStore.FillCollection | src/de/sabian/objectstore/ObjectStore.java:124-132 | answers CatchIo of the engine's fillCollection; the target changes exactly as the engine changes it, and a set target stays duplicate-free |
| Facade.ObjectStore.FillMap | src/de/sabian/objectstore/ObjectStore.java:134-143 | answers CatchIo of the engine's fillMap; the target changes exactly as the engine changes it |

## Left out

- `AsyncStoreExecution`: it runs each engine call on an Android `AsyncTask` and delivers the result in a callback. Concurrency and thread handoff are not modelled.
- The concrete backends (`SQLiteStorage`, `SharedPreferencesStorage`, `InternalFilesystemStorage`): they are represented only by the `storage` map and the `backendFails` flag. `IJsonStorage` and `InternalFilesystemStorage` are not part of this model.
- Backend failure is all-or-nothing and fixed for the engine's lifetime. A write that fails part-way, or a backend that fails only sometimes, is not modelled.
- A backend's `getJson` answers null for an absent identifier. The engine only calls it after `contains`, so that case is not modelled.
- Gson's text encoding and parsing are not modelled. Stored text is the JSON value it denotes, so malformed text (`MalformedJsonException`) does not arise.
- Gson's reflective typed (de)serialization is the abstract `TypeCodec`. Read-backs are proved under the `RoundTrip` assumption, and Gson itself is not verified.
- Runtime-type dispatch (`getClass()` in `store` and `storeMapIntern`): the caller passes the codec of the value's runtime type.
- Null values are not modelled: `store` of a null object, and null keys or values in `storeMap`, raise `NullPointerException` in Java.
- JSON numbers are integers. Floating point is not modelled.
- A HashSet's and a HashMap's own iteration order: the order is a parameter of `StoreSet` and `StoreMap`, and a filled set is modelled by its contents only.
- Logging through `printStackTrace` and the Android `Context` constructor argument are not modelled.
- `ObjectStoreSamples` is demo code and is not modelled.
- `setOverwriteEnabled` and `contains` on the facade are inherited in Java. In the model they are reached through `ObjectStore.raw`.

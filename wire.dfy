/** The two wire formats of the engine: a collection is one JSON array of its encoded
    elements, and a map is a JSON array of tagged objects {"key": k, "value": v}. */
module Wire {
  import opened Json
  import opened Results
  import opened Codecs

  // ----- Collections -----

  /** The array Gson writes for a collection: the encoded elements in iteration order. */
  function EncodeCollection<T>(c: TypeCodec<T>, xs: seq<T>): (j: Json)
    ensures j.JArray? && |j.elements| == |xs|
    ensures forall i :: 0 <= i < |xs| ==> j.elements[i] == c.encode(xs[i])
  {
    JArray(seq(|xs|, i requires 0 <= i < |xs| => c.encode(xs[i])))
  }

  /** The values the read loop obtained and whether it reached the end of the array. */
  datatype Decoded<T> = Decoded(values: seq<T>, complete: bool)

  /** Decoding array elements front to back, as the read loop does, stops at the
      first element Gson rejects. */
  function DecodeElements<T>(c: TypeCodec<T>, es: seq<Json>): (d: Decoded<T>)
    ensures d.complete ==> |d.values| == |es|
    ensures !d.complete ==> |d.values| < |es| && c.decode(es[|d.values|]).None?
    ensures forall i :: 0 <= i < |d.values| ==> c.decode(es[i]) == Some(d.values[i])
    ensures d.complete <==> forall i :: 0 <= i < |es| ==> c.decode(es[i]).Some?
  {
    if es == [] then Decoded([], true)
    else match c.decode(es[0])
      case None => Decoded([], false)
      case Some(v) =>
        var rest := DecodeElements(c, es[1..]);
        Decoded([v] + rest.values, rest.complete)
  }

  /** The decoding is determined by the longest prefix of elements that decode:
      what the read loop has decoded when it stops is exactly DecodeElements. */
  lemma DecodeElementsStopsAt<T>(c: TypeCodec<T>, es: seq<Json>, values: seq<T>)
    requires |values| <= |es|
    requires forall j :: 0 <= j < |values| ==> c.decode(es[j]) == Some(values[j])
    requires |values| < |es| ==> c.decode(es[|values|]).None?
    ensures DecodeElements(c, es) == Decoded(values, |values| == |es|)
  {
  }

  /** Decoding a collection's array gives back the collection, element by element and in order. */
  lemma CollectionRoundTrip<T(!new)>(c: TypeCodec<T>, xs: seq<T>)
    requires RoundTrip(c)
    ensures EncodeCollection(c, xs).JArray?
    ensures DecodeElements(c, EncodeCollection(c, xs).elements) == Decoded(xs, true)
  {
    var es := EncodeCollection(c, xs).elements;
    var d := DecodeElements(c, es);
    assert forall i :: 0 <= i < |es| ==> c.decode(es[i]) == Some(xs[i]);
  }

  // ----- Maps -----

  /** The object storeMapIntern writes for one entry: member "key" first, then "value". */
  function TaggedEntry(key: Json, value: Json): (j: Json)
    ensures IsTaggedObject(j) && !Misnamed(j)
    ensures j.members[0].value == key && j.members[1].value == value
  {
    JObject([Member("key", key), Member("value", value)])
  }

  /** The array elements storeMapIntern writes for the entries of `m`, visited in `iteration` order. */
  function EncodeEntries<K, V>(kc: TypeCodec<K>, vc: TypeCodec<V>, m: map<K, V>, iteration: seq<K>): (es: seq<Json>)
    requires forall i :: 0 <= i < |iteration| ==> iteration[i] in m
    ensures |es| == |iteration|
    ensures forall i :: 0 <= i < |es| ==>
      IsTaggedObject(es[i]) &&
      es[i].members[0].value == kc.encode(iteration[i]) && es[i].members[1].value == vc.encode(m[iteration[i]])
  {
    var es := seq(|iteration|, i requires 0 <= i < |iteration| => TaggedEntry(kc.encode(iteration[i]), vc.encode(m[iteration[i]])));
    assert forall i :: 0 <= i < |es| ==> es[i] == TaggedEntry(kc.encode(iteration[i]), vc.encode(m[iteration[i]]));
    es
  }

  /** The whole map payload: a single array of tagged entries. */
  function EncodeMap<K, V>(kc: TypeCodec<K>, vc: TypeCodec<V>, m: map<K, V>, iteration: seq<K>): (j: Json)
    requires forall i :: 0 <= i < |iteration| ==> iteration[i] in m
    ensures j.JArray? && |j.elements| == |iteration|
    ensures forall i :: 0 <= i < |j.elements| ==> IsTaggedObject(j.elements[i]) && !Misnamed(j.elements[i])
  {
    JArray(EncodeEntries(kc, vc, m, iteration))
  }

  /** An object whose first two members are named "key" and "value", in that order, and nothing else. */
  predicate IsTaggedObject(j: Json)
  {
    j.JObject? && |j.members| == 2 && j.members[0].name == "key" && j.members[1].name == "value"
  }

  /** An object whose member names break the protocol at a point the explicit name checks inspect. */
  predicate Misnamed(j: Json)
  {
    j.JObject? &&
    ((|j.members| >= 1 && j.members[0].name != "key") ||
     (|j.members| >= 2 && j.members[0].name == "key" && j.members[1].name != "value"))
  }

  /** One pass of fillMap's loop body over one array element: beginObject, the name
      check for "key", the key, the name check for "value", the value, endObject. */
  function ReadEntry<K, V>(kc: TypeCodec<K>, vc: TypeCodec<V>, j: Json): (r: Result<(K, V)>)
    ensures r.Ok? <==>
      IsTaggedObject(j) && kc.decode(j.members[0].value).Some? && vc.decode(j.members[1].value).Some?
    ensures r.Ok? ==>
      kc.decode(j.members[0].value) == Some(r.value.0) && vc.decode(j.members[1].value) == Some(r.value.1)
    ensures j.JObject? && |j.members| >= 1 && j.members[0].name != "key" ==>
      r == Err(IoError(UnexpectedName("key", j.members[0].name)))
    ensures j.JObject? && |j.members| >= 2 && j.members[0].name == "key" &&
            kc.decode(j.members[0].value).Some? && j.members[1].name != "value" ==>
      r == Err(IoError(UnexpectedName("value", j.members[1].name)))
    ensures r.Err? && r.error.IoError? ==> Misnamed(j)
    ensures Misnamed(j) ==> r.Err?
  {
    if !j.JObject? then Err(StateError)
    else
      var ms := j.members;
      if |ms| == 0 then Err(StateError)
      else if ms[0].name != "key" then Err(IoError(UnexpectedName("key", ms[0].name)))
      else match kc.decode(ms[0].value)
        case None => Err(SyntaxError)
        case Some(k) =>
          if |ms| == 1 then Err(StateError)
          else if ms[1].name != "value" then Err(IoError(UnexpectedName("value", ms[1].name)))
          else match vc.decode(ms[1].value)
            case None => Err(SyntaxError)
            case Some(v) =>
              if |ms| > 2 then Err(StateError) else Ok((k, v))
  }

  /** The pairs the read loop obtained and the failure that stopped it, if any. */
  datatype Entries<K, V> = Entries(pairs: seq<(K, V)>, failure: Option<Failure>)

  /** Reading the array elements front to back stops at the first element that fails;
      every element before it yields exactly one pair, in array order. */
  function ReadEntries<K, V>(kc: TypeCodec<K>, vc: TypeCodec<V>, es: seq<Json>): (r: Entries<K, V>)
    ensures r.failure.None? ==> |r.pairs| == |es|
    ensures r.failure.Some? ==> |r.pairs| < |es| && ReadEntry(kc, vc, es[|r.pairs|]) == Err(r.failure.value)
    ensures forall i :: 0 <= i < |r.pairs| ==> ReadEntry(kc, vc, es[i]) == Ok(r.pairs[i])
  {
    if es == [] then Entries([], None)
    else match ReadEntry(kc, vc, es[0])
      case Err(e) => Entries([], Some(e))
      case Ok(p) =>
        var rest := ReadEntries(kc, vc, es[1..]);
        Entries([p] + rest.pairs, rest.failure)
  }

  /** What the read loop has put when it stops is exactly ReadEntries. */
  lemma ReadEntriesStopsAt<K, V>(kc: TypeCodec<K>, vc: TypeCodec<V>, es: seq<Json>, pairs: seq<(K, V)>, failure: Option<Failure>)
    requires |pairs| <= |es|
    requires forall j :: 0 <= j < |pairs| ==> ReadEntry(kc, vc, es[j]) == Ok(pairs[j])
    requires |pairs| == |es| ==> failure.None?
    requires |pairs| < |es| ==> failure.Some? && ReadEntry(kc, vc, es[|pairs|]) == Err(failure.value)
    ensures ReadEntries(kc, vc, es) == Entries(pairs, failure)
  {
  }

  /** A payload read without failure consists of tagged objects only. */
  lemma AcceptedEntriesAreTagged<K, V>(kc: TypeCodec<K>, vc: TypeCodec<V>, es: seq<Json>)
    requires ReadEntries(kc, vc, es).failure.None?
    ensures forall i :: 0 <= i < |es| ==> IsTaggedObject(es[i])
  {
    var r := ReadEntries(kc, vc, es);
    forall i | 0 <= i < |es| ensures IsTaggedObject(es[i]) {
      assert ReadEntry(kc, vc, es[i]) == Ok(r.pairs[i]);
    }
  }

  /** A misnamed element is never skipped or repaired: the read stops at it or earlier,
      and when it stops at it because the first name is wrong, the failure is the
      IOException naming the member found. */
  lemma MisnamedEntryStopsRead<K, V>(kc: TypeCodec<K>, vc: TypeCodec<V>, es: seq<Json>, i: nat)
    requires i < |es| && Misnamed(es[i])
    ensures ReadEntries(kc, vc, es).failure.Some? && |ReadEntries(kc, vc, es).pairs| <= i
    ensures |ReadEntries(kc, vc, es).pairs| == i && es[i].members[0].name != "key" ==>
      ReadEntries(kc, vc, es).failure == Some(IoError(UnexpectedName("key", es[i].members[0].name)))
    ensures |ReadEntries(kc, vc, es).pairs| == i && es[i].members[0].name == "key" &&
            kc.decode(es[i].members[0].value).Some? ==>
      ReadEntries(kc, vc, es).failure == Some(IoError(UnexpectedName("value", es[i].members[1].name)))
  {
  }

  /** The IOException of a failed name check carries the message the engine builds:
      the expected name and the name found in its place. */
  lemma NameCheckMessage<K, V>(kc: TypeCodec<K>, vc: TypeCodec<V>, j: Json)
    requires ReadEntry(kc, vc, j).Err? && ReadEntry(kc, vc, j).error.IoError?
    ensures j.JObject? && |j.members| >= 1
    ensures ReadEntry(kc, vc, j).error.cause.UnexpectedName?
    ensures j.members[0].name != "key" ==>
      ReadEntry(kc, vc, j).error.Message() == "expected name key but found: " + j.members[0].name
    ensures j.members[0].name == "key" ==> |j.members| >= 2
    ensures j.members[0].name == "key" ==>
      ReadEntry(kc, vc, j).error.Message() == "expected name value but found: " + j.members[1].name
  {
  }

  /** The tagged object written for one entry reads back as that entry. */
  lemma TaggedEntryReadsBack<K(!new), V(!new)>(kc: TypeCodec<K>, vc: TypeCodec<V>, k: K, v: V)
    requires RoundTrip(kc) && RoundTrip(vc)
    ensures ReadEntry(kc, vc, TaggedEntry(kc.encode(k), vc.encode(v))) == Ok((k, v))
  {
    assert kc.decode(kc.encode(k)) == Some(k);
    assert vc.decode(vc.encode(v)) == Some(v);
  }

  /** The pairs of `m` in `iteration` order. */
  function PairsOf<K, V>(m: map<K, V>, iteration: seq<K>): seq<(K, V)>
    requires forall i :: 0 <= i < |iteration| ==> iteration[i] in m
  {
    seq(|iteration|, i requires 0 <= i < |iteration| => (iteration[i], m[iteration[i]]))
  }

  /** Reading the tagged entries written for a map yields its pairs in the order written. */
  lemma EntriesRoundTrip<K(!new), V(!new)>(kc: TypeCodec<K>, vc: TypeCodec<V>, m: map<K, V>, iteration: seq<K>)
    requires RoundTrip(kc) && RoundTrip(vc)
    requires forall i :: 0 <= i < |iteration| ==> iteration[i] in m
    ensures ReadEntries(kc, vc, EncodeEntries(kc, vc, m, iteration)) == Entries(PairsOf(m, iteration), None)
  {
    var es := EncodeEntries(kc, vc, m, iteration);
    var r := ReadEntries(kc, vc, es);
    forall i | 0 <= i < |es| ensures ReadEntry(kc, vc, es[i]) == Ok((iteration[i], m[iteration[i]])) {
      TaggedEntryReadsBack(kc, vc, iteration[i], m[iteration[i]]);
    }
  }
}

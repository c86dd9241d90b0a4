/** The stored text, as the JSON value it denotes (RFC 8259). Objects keep their
    members in order, because the map protocol depends on member order. */
module Json {

  datatype Json =
    | JNull
    | JBool(b: bool)
    | JNumber(n: int)
    | JString(s: string)
    | JArray(elements: seq<Json>)
    | JObject(members: seq<Member>)

  datatype Member = Member(name: string, value: Json)
}

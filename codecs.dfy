/** Gson's typed encoding and decoding, as an abstract pair of functions per Java type. */
module Codecs {
  import opened Json
  import opened Results

  /** How values of one Java type are written to and read from JSON. `decode` gives
      None exactly where Gson raises JsonSyntaxException. */
  datatype TypeCodec<!T> = TypeCodec(encode: T -> Json, decode: Json -> Option<T>)

  /** Decoding what was encoded gives the value back: the assumption under which
      every stored value can be read again with the same type. */
  ghost predicate RoundTrip<T(!new)>(c: TypeCodec<T>)
  {
    forall x :: c.decode(c.encode(x)) == Some(x)
  }
}

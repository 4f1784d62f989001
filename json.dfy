/**
 * JSON values as the bridge sees them. The bridge never inspects a value: it
 * decodes the text of a local entry before pushing it and encodes a remote value
 * before storing it. Decoding and encoding are the host's `JSON.parse` and
 * `JSON.stringify`; the model keeps them abstract and receives them as function
 * values (see `Sync.Bridge`).
 */
module Json {
  import opened Wrappers

  /** A JSON document. Numbers are kept as integers; floating point is not modelled. */
  datatype Value =
    | Null
    | Bool(b: bool)
    | Num(n: int)
    | Str(s: string)
    | Arr(items: seq<Value>)
    | Obj(fields: map<string, Value>)

  /** The shape of `JSON.parse`: text to a value, or nothing when the text is not JSON. */
  type Parser = string -> Option<Value>

  /** The shape of `JSON.stringify`: a value to its text. */
  type Encoder = Value -> string

  /** The JSON law the host's parser and encoder obey: decoding an encoding gives the value back. */
  ghost predicate Inverse(parse: Parser, encode: Encoder)
  {
    forall x :: parse(encode(x)) == Some(x)
  }
}

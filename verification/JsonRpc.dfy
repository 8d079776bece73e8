/** What the two JSON-RPC protocols share. */
module JsonRpc {
  import opened Bytes

  /** The id of a message: absent, null, a number, or anything else. */
  datatype Id = NoId | NullId | NumId(n: int) | OtherId(text: seq<byte>)

  const INITIALIZE: seq<byte> := Ascii("initialize")
}

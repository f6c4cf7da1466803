/** The boundary: the host primitives the call layer imports and the shared
    reply decoder. Their code lies outside the module, so they are given as
    values: `host` answers each request with a reply buffer and
    `getSingleVal` decodes a reply buffer into one value. */
module Ffi {
  import opened Bytes
  import opened Values

  /** One request handed to the host: the receiver's handle, for a method
      call the member name, and for calls with arguments the argument count
      and the encoded argument bytes. */
  datatype HostCall =
    | Call0(refId: uint32)
    | Call1(refId: uint32, bytes: seq<byte>)
    | CallArgs(refId: uint32, argc: uint32, bytes: seq<byte>)
    | CallMethod0(refId: uint32, name: string)
    | CallMethod1(refId: uint32, name: string, bytes: seq<byte>)
    | CallMethodArgs(refId: uint32, name: string, argc: uint32, bytes: seq<byte>)

  datatype Boundary = Boundary(
    singleValVecLen: nat,
    host: HostCall -> seq<byte>,
    getSingleVal: seq<byte> -> JsValue)
  {
    /** The decoded answer to a request. */
    function Reply(c: HostCall): JsValue
    {
      getSingleVal(host(c))
    }
  }
}

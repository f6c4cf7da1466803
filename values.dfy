/** The value model shared by the encoder, the call layer and the callback
    registry: a declared JavaScript type paired with a representation. */
module Values {
  import opened Bytes

  /** Element kind of a typed array. */
  datatype ArrayType = I8 | U8 | I16 | U16 | I32 | U32 | F32 | F64

  /** The type a value declares (`js_type`). */
  datatype JsType =
    | Empty
    | Boolean
    | Number
    | String
    | Array
    | TypedArray(elem: ArrayType)
    | Object
    | Function
    | Error

  /** An IEEE 754 double, kept as its 64 bits; no arithmetic is done on it. */
  datatype Float64 = Float64(bits: bv64)

  /** The representation a value carries (`val`); `Ref` is a host handle. */
  datatype Val =
    | None
    | Boolean(b: bool)
    | Number(n: Float64)
    | String(s: string)
    | Ref(id: uint32)

  datatype JsValue = JsValue(jsType: JsType, val: Val)
}

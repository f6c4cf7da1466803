# wasm_val core in Dafny

This project models the deterministic core of `wasm_val`, a Rust crate that lets a
WebAssembly module exchange typed values with its JavaScript host. The model has
three linked parts:

- **Wire encoder** (`js_ser.dfy`, with `bytes.dfy`, `tags.dfy`, `cursor.dfy`).
  Each serialisable primitive (`bool`, `i8`, `u8`, `i16`, `u16`, `i32`, `u32`, `&str`)
  declares a size. It appends a one-byte type tag and a little-endian payload to a
  `Cursor<Vec<u8>>`. A `&str` is sent by reference, as its byte length and its
  address, never as text. The host's way of reading the stream back is given as a
  reference decoder. Decoding is proved to invert encoding.
- **Call layer** (`call.dfy`, `ffi.dfy`). There are six entry points on `JsValue`:
  `call`, `call_with_arg`, `call_with_args`, `call_method`, `call_method_with_arg`
  and `call_method_with_args`. Each one:
  - checks the value's `(js_type, val)` pair;
  - builds the argument buffer;
  - hands the host the receiver's handle, the argument count and the bytes;
  - decodes the reply.

  The host primitives and the reply decoder `get_single_val` are parameters.
- **Callback registry** (`registry.dfy`). It is one object with a shared id counter
  that starts at 1 and two id→closure tables, one per closure shape. Registration
  issues fresh ids. Dispatch needs the id to be present.

`values.dfy` holds the `JsValue` / `Type` / `ArrayType` / `Val` data model.
`wrappers.dfy` holds `Option`.

Two points of the code shape the model:

- The code does not require a `Function`-typed value to hold a `Ref`, so the call
  gates check both fields, as `call` does at `wasm_val/src/js_val_impl/call.rs:15`.
- `id + 1` at `wasm_val/src/lib.rs:62` overflows at `u32::MAX`, so the model requires
  the counter to be below it (see Left out).

## Model

| member | source | states |
|---|---|---|
| `Bytes.LeRoundTrip` | wasm_val/src/js_ser.rs:48-82 | reading back `k` little-endian bytes gives the number written, for every number below 256^k |
| `Bytes.FromLeRoundTrip` | wasm_val/src/js_ser.rs:48-82 | writing the number read from `k` bytes gives the same bytes, so little-endian encoding is a bijection |
| `Bytes.AsUnsigned` | wasm_val/src/js_ser.rs:33-36 | the `as uN` bit pattern of a signed value is in range and congruent to it modulo 2^N (two's complement) |
| `Bytes.AsSigned` | wasm_val/src/js_ser.rs:48-73 | reading a bit pattern back as signed gives a value in range and congruent to it modulo 2^N |
| `Tags.LookupIn` | wasm_val/src/js_ser.rs:22-27 | a tag found for a byte carries that byte; when no tag is found, no tag in the list carries it |
| `Tags.LookupCode` | wasm_val/src/js_ser.rs:22-27 | with distinct tag bytes, every tag is recognised from its own byte |
| `JsSer.Size` | wasm_val/src/js_ser.rs:15 | the declared size of every primitive is between 1 and 9 bytes |
| `JsSer.Payload` | wasm_val/src/js_ser.rs:30-92 | the payload after the tag has exactly the declared size minus the tag byte |
| `JsSer.Encode` | wasm_val/src/js_ser.rs:14-92 | declared size equals the number of bytes encoded, for every primitive |
| `JsSer.SerBool` | wasm_val/src/js_ser.rs:19-27 | `false` appends the single byte `BoolFalse` and `true` the single byte `BoolTrue`; earlier bytes are unchanged |
| `JsSer.SerI8` | wasm_val/src/js_ser.rs:30-37 | appends the `Int8` tag, then the two's-complement byte |
| `JsSer.SerU8` | wasm_val/src/js_ser.rs:39-46 | appends the `UInt8` tag, then the byte |
| `JsSer.SerI16` | wasm_val/src/js_ser.rs:48-55 | appends the `Int16` tag, then 2 little-endian two's-complement bytes |
| `JsSer.SerU16` | wasm_val/src/js_ser.rs:57-64 | appends the `UInt16` tag, then 2 little-endian bytes |
| `JsSer.SerI32` | wasm_val/src/js_ser.rs:66-73 | appends the `Int32` tag, then 4 little-endian two's-complement bytes |
| `JsSer.SerU32` | wasm_val/src/js_ser.rs:75-82 | appends the `UInt32` tag, then 4 little-endian bytes |
| `JsSer.SerStr` | wasm_val/src/js_ser.rs:85-92 | appends the `String` tag, the length cast to `u32` (LE), then the address (LE), and no text |
| `JsSer.Ser` | wasm_val/src/js_ser.rs:14-17 | appends exactly `Encode(a)` after the bytes already written; the buffer grows by `size()` and reallocates only if that does not fit |
| `JsSer.SumSizes` | wasm_val/src/js_val_impl/call.rs:43 | the sum of declared sizes lies between 1× and 9× the argument count |
| `JsSer.FoldSizes` | wasm_val/src/js_val_impl/call.rs:43 | the wrapping `u32` fold of the sizes equals their exact sum whenever that sum fits in 32 bits |
| `JsSer.EncodeAll` | wasm_val/src/js_val_impl/call.rs:47-49 | the in-order concatenation of the encodings is as long as the sum of declared sizes |
| `JsSer.EncodeAllFront` | wasm_val/src/js_val_impl/call.rs:47-49 | the argument stream splits into the first argument's encoding followed by the rest's |
| `JsSer.DecodeArg` | wasm_val/src/js_ser.rs:14-92 | the reference reader for one value: when it succeeds, it consumes the decoded value's declared size, and no more than the buffer holds |
| `JsSer.DecodeArgs` | wasm_val/src/js_val_impl/call.rs:51 | the reference reader for `argc` values: when it succeeds, it yields exactly `argc` values |
| `JsSer.PayloadRoundTrip` | wasm_val/src/js_ser.rs:30-92 | every payload read back under its own tag gives the value (string length below 2^32) |
| `JsSer.DecodeEncode` | wasm_val/src/js_ser.rs:19-92 | decoding an encoding gives the value and its declared size back, whatever bytes follow |
| `JsSer.DecodeEncodeAll` | wasm_val/src/js_val_impl/call.rs:43-51 | with the argument count, the host recovers every argument, in order, from a multi-argument buffer |
| `JsSer.EncodeInjective` | wasm_val/src/js_ser.rs:19-92 | distinct representable values never share an encoding; in particular `true` and `false` differ |
| `JsSer.StrLayout` | wasm_val/src/js_ser.rs:85-92 | bytes 1..5 of a string's encoding read back its length (when below 2^32) and bytes 5..9 its address; `Str` carries no text, so nothing else is written |
| `JsSer.Examples` | wasm_val/src/js_ser.rs:19-92 | concrete encodings: `true`; `false`; u8 200 → `[UInt8, 0xC8]`; i8 -1 → `[Int8, 0xFF]`; 16- and 32-bit boundary values; `"hi"` gives 9 bytes with length bytes `[2,0,0,0]` |
| `Cursors.Reserve` | wasm_val/src/js_val_impl/call.rs:44 | a vector's capacity stays put while its contents fit and otherwise covers them |
| `Cursors.Cursor.constructor` | wasm_val/src/js_val_impl/call.rs:44-45 | a new cursor is on an empty vector with the requested capacity |
| `Cursors.Cursor.WriteAll` | wasm_val/src/js_ser.rs:16 | a write appends at the cursor and leaves earlier bytes unchanged |
| `Bytes.Le` | wasm_val/src/js_ser.rs:53-91 | the little-endian layout `byteorder` writes has exactly `k` bytes |
| `Cursors.Cursor.WriteU8` | wasm_val/src/js_ser.rs:24-25 | `write_u8` appends exactly the one byte and keeps earlier bytes |
| `Cursors.Cursor.WriteI8` | wasm_val/src/js_ser.rs:35 | `write_i8` appends the value's two's-complement byte and keeps earlier bytes |
| `Cursors.Cursor.WriteU16Le` | wasm_val/src/js_ser.rs:62 | `write_u16::<LittleEndian>` appends the value's 2 little-endian bytes and keeps earlier bytes |
| `Cursors.Cursor.WriteI16Le` | wasm_val/src/js_ser.rs:53 | `write_i16::<LittleEndian>` appends the 2 little-endian bytes of the two's-complement pattern and keeps earlier bytes |
| `Cursors.Cursor.WriteU32Le` | wasm_val/src/js_ser.rs:80-91 | `write_u32::<LittleEndian>` appends the value's 4 little-endian bytes and keeps earlier bytes |
| `Cursors.Cursor.WriteI32Le` | wasm_val/src/js_ser.rs:71 | `write_i32::<LittleEndian>` appends the 4 little-endian bytes of the two's-complement pattern and keeps earlier bytes |
| `Cursors.Cursor.IntoInner` | wasm_val/src/js_val_impl/call.rs:51 | the vector handed over holds everything written so far |
| `Call.FunctionTarget` | wasm_val/src/js_val_impl/call.rs:13-22 | a handle is found exactly when `js_type` is `Function` and `val` is `Ref`, and it is that `Ref`'s id |
| `Call.MethodTarget` | wasm_val/src/js_val_impl/call.rs:59-68 | a handle is found exactly when `val` is `Ref`, whatever the declared type |
| `Call.GatesAgree` | wasm_val/src/js_val_impl/call.rs:13-103 | the function gate is the method gate restricted to `Function`s; changing `js_type` never changes the method gate |
| `Call.Argc` | wasm_val/src/js_val_impl/call.rs:51 | `args.len() as u32` is the argument count whenever that count fits in 32 bits |
| `Call.SerializeArg` | wasm_val/src/js_val_impl/call.rs:27-32 | the one-argument buffer is exactly that argument's encoding and fits the fixed capacity 9 |
| `Call.SerializeArgs` | wasm_val/src/js_val_impl/call.rs:43-51 | the multi-argument buffer is the concatenation of the encodings, in order; its length is the sum of the sizes; and it equals the pre-allocated capacity, so no growth occurs |
| `Call.CallNoArg` | wasm_val/src/js_val_impl/call.rs:13-22 | `Some` exactly for a `Ref`-valued `Function`; the result then decodes the host's reply to `call_0` on the receiver's own id |
| `Call.CallWithArg` | wasm_val/src/js_val_impl/call.rs:24-38 | same gate; the host receives the receiver's id and exactly the argument's encoding |
| `Call.CallWithArgs` | wasm_val/src/js_val_impl/call.rs:40-57 | same gate; the host receives the receiver's id, `args.len()` and the in-order concatenation of the encodings |
| `Call.CallMethod` | wasm_val/src/js_val_impl/call.rs:59-68 | `Some` exactly for a `Ref`-valued value of any type; the host receives the id and the member name |
| `Call.CallMethodWithArg` | wasm_val/src/js_val_impl/call.rs:70-84 | same gate; the host receives the id, the name and exactly the argument's encoding |
| `Call.CallMethodWithArgs` | wasm_val/src/js_val_impl/call.rs:86-103 | same gate; the host receives the id, the name, `args.len()` and the concatenated encodings |
| `Registry.CallbackRegistry.constructor` | wasm_val/src/lib.rs:35-39 | both tables start empty and the counter starts at 1 |
| `Registry.CallbackRegistry.GetNextCallbackId` | wasm_val/src/lib.rs:58-66 | returns the counter's value and leaves the counter exactly one greater |
| `Registry.CallbackRegistry.RegisterCallback` | wasm_val/src/lib.rs:68-75 | returns a fresh id, absent from both tables; adds exactly `id ↦ closure` to the zero-argument table; leaves the other table unchanged; keeps the registry invariant |
| `Registry.CallbackRegistry.RegisterCallbackArg` | wasm_val/src/lib.rs:77-84 | does the same for the one-argument table |
| `Registry.CallbackRegistry.CallRegisteredCallback` | wasm_val/src/lib.rs:41-46 | needs the key to be present; yields exactly the closure stored under it; changes nothing |
| `Registry.CallbackRegistry.CallRegisteredCallbackArg` | wasm_val/src/lib.rs:48-56 | takes a buffer of `SINGLE_VAL_VEC_LEN` bytes and needs the key to be present; yields the stored closure and the value `get_single_val` decodes from the buffer; changes nothing |
| `Registry.CallbackRegistry.RegisterAll` | wasm_val/src/lib.rs:58-84 | a run of registrations in any mix of shapes gets consecutive ids, so strictly increasing and pairwise distinct; each closure is filed in its own shape's table and earlier entries are kept |
| `Registry.FirstTwoIds` | wasm_val/src/lib.rs:38-75 | on a fresh registry, two zero-argument registrations return 1 and then 2 |

The registry invariant (`CallbackRegistry.Valid`) says:

- the counter is at least 1;
- every key of either table is below the counter;
- the two key sets are disjoint;
- every id from 1 up to the counter is in one of the tables.

## Left out

- Host primitives `wasm_ffi::call_*`, `get_single_val` and `SINGLE_VAL_VEC_LEN`: their code is not part of this model. They are the fields of an `Ffi.Boundary` value. The model does not require the host's replies to have the fixed reply length.
- Tag byte values (`ser_constants::TypeTag`): that table is not part of this model. `Tags.TagTable` maps each tag to an arbitrary byte. Lemmas that read tags back require the bytes to be distinct.
- `wasm_val_rust_alloc` and `wasm_val_get_api_version`: they only export raw memory and a version number.
- `Vec::from_raw_parts` in the one-argument dispatch: the model receives a byte sequence of the fixed length. Taking ownership of the raw buffer and freeing it are not modelled.
- What a string address points to, and how long that memory stays valid: the encoder sees only the length and the address.
- Closure bodies, their side effects, and the `RefCell` borrow held during dispatch (the re-entrancy hazard): closures are opaque tokens, and dispatch returns the closure to run.
- Floating point: `Val::Number` holds its 64 bits as an opaque `Float64`. The `F32`/`F64` array kinds are plain tags.
- `Cursors.Cursor`: cursors start on an empty vector and only append, so writes at a position other than the end are not modelled.
- `Cursors.Reserve`: a vector that must grow is given exactly the needed capacity. `Vec`'s amortised growth policy is not modelled.
- `Registry.CallbackRegistry.GetNextCallbackId`: requires the counter to be below `u32::MAX`. The overflow of `id + 1` there (a panic in debug builds, id reuse in release builds) is not modelled.
- `Registry.CallbackRegistry.RegisterCallback`: has the same counter bound, for the same reason.
- `Registry.CallbackRegistry.RegisterCallbackArg`: has the same counter bound, for the same reason.
- `Registry.CallbackRegistry.CallRegisteredCallback`: requires the key to be present, because indexing a missing key panics.
- `Registry.CallbackRegistry.CallRegisteredCallbackArg`: requires the key to be present, for the same reason.
- `JsSer.FoldSizes`: `acc + val.size()` adds a `u8` size to a `u32` accumulator, which Rust does not accept as written; the model widens each size to `u32`. The `u32` fold wraps, as in a release build. The panic a debug build raises on overflow is not modelled. It takes more than 477 million arguments to reach it.
- The serialisable closure impl, `JsValue::get_global` and `JsValue::set_val`, which the example test crate uses: they are not part of this model.
- The scenario in which a one-argument callback receives a decoded `u32` 42 depends on `get_single_val`, which is a parameter here.

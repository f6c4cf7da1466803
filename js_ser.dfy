/** The wire encoder: every serialisable primitive declares its size and
    appends a tag byte followed by its little-endian payload to a cursor. */
module JsSer {
  import opened Wrappers
  import opened Bytes
  import opened Tags
  import opened Cursors

  /** A value the encoder accepts. A `&str` is passed by reference: the
      encoder sees only its UTF-8 byte length and its address in linear
      memory, never its text. */
  datatype Arg =
    | Bool(b: bool)
    | I8(i8: int8)
    | U8(u8: uint8)
    | I16(i16: int16)
    | U16(u16: uint16)
    | I32(i32: int32)
    | U32(u32: uint32)
    | Str(len: nat, addr: uint32)

  /** A string whose length survives the `as u32` cast. */
  predicate Representable(a: Arg) {
    a.Str? ==> a.len <= U32_MAX
  }

  /** The declared size, `size()`, in bytes including the tag. */
  function Size(a: Arg): (n: nat)
    ensures 1 <= n <= 9
  {
    match a
    case Bool(_) => 1
    case I8(_) => 2
    case U8(_) => 2
    case I16(_) => 3
    case U16(_) => 3
    case I32(_) => 5
    case U32(_) => 5
    case Str(_, _) => 9
  }

  /** The tag that leads the encoding of `a`. */
  function Tag(a: Arg): TypeTag
  {
    match a
    case Bool(b) => if b then BoolTrue else BoolFalse
    case I8(_) => Int8
    case U8(_) => UInt8
    case I16(_) => Int16
    case U16(_) => UInt16
    case I32(_) => Int32
    case U32(_) => UInt32
    case Str(_, _) => String
  }

  /** The bytes after the tag: the value, little-endian, two's complement
      when signed; for a string its length cast to `u32`, then its address. */
  function Payload(a: Arg): (p: seq<byte>)
    ensures |p| == Size(a) - 1
  {
    match a
    case Bool(_) => []
    case I8(n) => Le(AsUnsigned(n, 0x80), 1)
    case U8(n) => Le(n, 1)
    case I16(n) => Le(AsUnsigned(n, 0x8000), 2)
    case U16(n) => Le(n, 2)
    case I32(n) => Le(AsUnsigned(n, 0x8000_0000), 4)
    case U32(n) => Le(n, 4)
    case Str(len, addr) => Le(len % 0x1_0000_0000, 4) + Le(addr, 4)
  }

  /** The bytes `ser` appends for `a`: its tag, then its payload. Their
      number is the declared size. */
  function Encode(tags: TagTable, a: Arg): (r: seq<byte>)
    ensures |r| == Size(a)
  {
    [tags.code(Tag(a))] + Payload(a)
  }

  /** `ser` for `bool`: a single tag byte that tells `true` from `false`. */
  method SerBool(tags: TagTable, b: bool, cursor: Cursor)
    requires cursor.Valid()
    modifies cursor
    ensures cursor.Valid()
    ensures cursor.inner == old(cursor.inner) + Encode(tags, Bool(b))
    ensures cursor.capacity == Reserve(old(cursor.capacity), |cursor.inner|)
  {
    if b {
      cursor.WriteU8(tags.code(BoolTrue));
    } else {
      cursor.WriteU8(tags.code(BoolFalse));
    }
  }

  /** `ser` for `i8`. */
  method SerI8(tags: TagTable, n: int8, cursor: Cursor)
    requires cursor.Valid()
    modifies cursor
    ensures cursor.Valid()
    ensures cursor.inner == old(cursor.inner) + Encode(tags, I8(n))
    ensures cursor.capacity == Reserve(old(cursor.capacity), |cursor.inner|)
  {
    cursor.WriteU8(tags.code(Int8));
    cursor.WriteI8(n);
  }

  /** `ser` for `u8`. */
  method SerU8(tags: TagTable, n: uint8, cursor: Cursor)
    requires cursor.Valid()
    modifies cursor
    ensures cursor.Valid()
    ensures cursor.inner == old(cursor.inner) + Encode(tags, U8(n))
    ensures cursor.capacity == Reserve(old(cursor.capacity), |cursor.inner|)
  {
    cursor.WriteU8(tags.code(UInt8));
    cursor.WriteU8(n);
    assert Le(n, 1) == [n];
  }

  /** `ser` for `i16`. */
  method SerI16(tags: TagTable, n: int16, cursor: Cursor)
    requires cursor.Valid()
    modifies cursor
    ensures cursor.Valid()
    ensures cursor.inner == old(cursor.inner) + Encode(tags, I16(n))
    ensures cursor.capacity == Reserve(old(cursor.capacity), |cursor.inner|)
  {
    cursor.WriteU8(tags.code(Int16));
    cursor.WriteI16Le(n);
  }

  /** `ser` for `u16`. */
  method SerU16(tags: TagTable, n: uint16, cursor: Cursor)
    requires cursor.Valid()
    modifies cursor
    ensures cursor.Valid()
    ensures cursor.inner == old(cursor.inner) + Encode(tags, U16(n))
    ensures cursor.capacity == Reserve(old(cursor.capacity), |cursor.inner|)
  {
    cursor.WriteU8(tags.code(UInt16));
    cursor.WriteU16Le(n);
  }

  /** `ser` for `i32`. */
  method SerI32(tags: TagTable, n: int32, cursor: Cursor)
    requires cursor.Valid()
    modifies cursor
    ensures cursor.Valid()
    ensures cursor.inner == old(cursor.inner) + Encode(tags, I32(n))
    ensures cursor.capacity == Reserve(old(cursor.capacity), |cursor.inner|)
  {
    cursor.WriteU8(tags.code(Int32));
    cursor.WriteI32Le(n);
  }

  /** `ser` for `u32`. */
  method SerU32(tags: TagTable, n: uint32, cursor: Cursor)
    requires cursor.Valid()
    modifies cursor
    ensures cursor.Valid()
    ensures cursor.inner == old(cursor.inner) + Encode(tags, U32(n))
    ensures cursor.capacity == Reserve(old(cursor.capacity), |cursor.inner|)
  {
    cursor.WriteU8(tags.code(UInt32));
    cursor.WriteU32Le(n);
  }

  /** `ser` for `&str`: the tag, the byte length as `u32`, the address as
      `u32`; the text itself is not written. */
  method SerStr(tags: TagTable, len: nat, addr: uint32, cursor: Cursor)
    requires cursor.Valid()
    modifies cursor
    ensures cursor.Valid()
    ensures cursor.inner == old(cursor.inner) + Encode(tags, Str(len, addr))
    ensures cursor.capacity == Reserve(old(cursor.capacity), |cursor.inner|)
  {
    ghost var before := cursor.inner;
    cursor.WriteU8(tags.code(String));
    cursor.WriteU32Le(len % 0x1_0000_0000);
    cursor.WriteU32Le(addr);
    assert cursor.inner == before + ([tags.code(String)] + (Le(len % 0x1_0000_0000, 4) + Le(addr, 4)));
  }

  /** `ser` through the serialisable interface: appends the encoding of
      `a` at the cursor, leaving the bytes already written untouched, and
      grows the buffer only when the declared size does not fit. */
  method Ser(tags: TagTable, a: Arg, cursor: Cursor)
    requires cursor.Valid()
    modifies cursor
    ensures cursor.Valid()
    ensures cursor.inner == old(cursor.inner) + Encode(tags, a)
    ensures |cursor.inner| == |old(cursor.inner)| + Size(a)
    ensures cursor.capacity == Reserve(old(cursor.capacity), |cursor.inner|)
  {
    match a
    case Bool(b) => SerBool(tags, b, cursor);
    case I8(n) => SerI8(tags, n, cursor);
    case U8(n) => SerU8(tags, n, cursor);
    case I16(n) => SerI16(tags, n, cursor);
    case U16(n) => SerU16(tags, n, cursor);
    case I32(n) => SerI32(tags, n, cursor);
    case U32(n) => SerU32(tags, n, cursor);
    case Str(len, addr) => SerStr(tags, len, addr, cursor);
  }

  /** Sum of the declared sizes, left to right. */
  function SumSizes(args: seq<Arg>): (n: nat)
    ensures |args| <= n <= 9 * |args|
  {
    if args == [] then 0 else SumSizes(args[..|args| - 1]) + Size(args[|args| - 1])
  }

  /** `args.iter().fold(0_u32, |acc, val| acc + val.size())`, each addition
      wrapping at 2^32. It is the exact sum whenever that sum fits in 32 bits. */
  function FoldSizes(args: seq<Arg>): (n: uint32)
    ensures SumSizes(args) <= U32_MAX ==> n == SumSizes(args)
  {
    if args == [] then 0
    else (FoldSizes(args[..|args| - 1]) + Size(args[|args| - 1])) % 0x1_0000_0000
  }

  /** The encodings of `args`, in argument order, one after the other. */
  function EncodeAll(tags: TagTable, args: seq<Arg>): (r: seq<byte>)
    ensures |r| == SumSizes(args)
  {
    if args == [] then []
    else EncodeAll(tags, args[..|args| - 1]) + Encode(tags, args[|args| - 1])
  }

  /** The argument stream read from the front: the first encoding, then
      the rest. */
  lemma {:induction false} EncodeAllFront(tags: TagTable, args: seq<Arg>)
    requires args != []
    ensures EncodeAll(tags, args) == Encode(tags, args[0]) + EncodeAll(tags, args[1..])
  {
    if |args| > 1 {
      var init := args[..|args| - 1];
      EncodeAllFront(tags, init);
      assert init[1..] == args[1..][..|args[1..]| - 1];
      assert init[0] == args[0];
    } else {
      assert args[1..] == [];
      assert args[..0] == [];
    }
  }

  /* ---------- the reading side: how the host re-walks the stream ---------- */

  /** Payload bytes that follow tag `t`. */
  function PayloadLen(t: TypeTag): nat
  {
    match t
    case BoolFalse => 0
    case BoolTrue => 0
    case Int8 => 1
    case UInt8 => 1
    case Int16 => 2
    case UInt16 => 2
    case Int32 => 4
    case UInt32 => 4
    case String => 8
  }

  /** The value that tag `t` and payload `p` denote. */
  function ArgOf(t: TypeTag, p: seq<byte>): Arg
    requires |p| == PayloadLen(t)
  {
    Pow256Values();
    match t
    case BoolFalse => Bool(false)
    case BoolTrue => Bool(true)
    case Int8 => I8(AsSigned(p[0], 0x80))
    case UInt8 => U8(p[0])
    case Int16 => I16(AsSigned(FromLe(p), 0x8000))
    case UInt16 => U16(FromLe(p))
    case Int32 => I32(AsSigned(FromLe(p), 0x8000_0000))
    case UInt32 => U32(FromLe(p))
    case String => Str(FromLe(p[..4]), FromLe(p[4..]))
  }

  /** Reads one encoded value from the front of `s`: the value and the
      number of bytes it took, or `None` for an unknown tag or a short buffer. */
  function DecodeArg(tags: TagTable, s: seq<byte>): (r: Option<(Arg, nat)>)
    ensures r.Some? ==> 1 <= r.value.1 <= |s| && Size(r.value.0) == r.value.1
  {
    if s == [] then None
    else
      match Lookup(tags, s[0])
      case None => None
      case Some(t) =>
        var n := 1 + PayloadLen(t);
        if |s| < n then None else Some((ArgOf(t, s[1..n]), n))
  }

  /** Reads `argc` encoded values that fill `s` exactly. */
  function DecodeArgs(tags: TagTable, s: seq<byte>, argc: nat): (r: Option<seq<Arg>>)
    ensures r.Some? ==> |r.value| == argc
    decreases argc
  {
    if argc == 0 then
      if s == [] then Some([]) else None
    else
      match DecodeArg(tags, s)
      case None => None
      case Some((a, n)) =>
        match DecodeArgs(tags, s[n..], argc - 1)
        case None => None
        case Some(rest) => Some([a] + rest)
  }

  /** The payload read back under the value's own tag gives the value. */
  lemma PayloadRoundTrip(a: Arg)
    requires Representable(a)
    ensures |Payload(a)| == PayloadLen(Tag(a))
    ensures ArgOf(Tag(a), Payload(a)) == a
  {
    match a
    case Bool(_) =>
    case I8(n) => LeRoundTrip(AsUnsigned(n, 0x80), 1);
    case U8(n) => LeRoundTrip(n, 1);
    case I16(n) => LeRoundTrip(AsUnsigned(n, 0x8000), 2);
    case U16(n) => LeRoundTrip(n, 2);
    case I32(n) => LeRoundTrip(AsUnsigned(n, 0x8000_0000), 4);
    case U32(n) => LeRoundTrip(n, 4);
    case Str(len, addr) =>
      var p := Payload(a);
      assert p[..4] == Le(len, 4);
      assert p[4..] == Le(addr, 4);
      LeRoundTrip(len, 4);
      LeRoundTrip(addr, 4);
  }

  /** Reading an encoding back gives the value encoded and its declared
      size, whatever follows it: tag first, payload little-endian. */
  lemma DecodeEncode(tags: TagTable, a: Arg, rest: seq<byte>)
    requires tags.Distinct() && Representable(a)
    ensures DecodeArg(tags, Encode(tags, a) + rest) == Some((a, Size(a)))
  {
    var s := Encode(tags, a) + rest;
    LookupCode(tags, Tag(a));
    PayloadRoundTrip(a);
    assert s[0] == tags.code(Tag(a));
    assert s[1..Size(a)] == Payload(a);
  }

  /** The host, given the argument count, recovers every argument in order
      from a multi-argument buffer. */
  lemma {:induction false} DecodeEncodeAll(tags: TagTable, args: seq<Arg>)
    requires tags.Distinct()
    requires forall i :: 0 <= i < |args| ==> Representable(args[i])
    ensures DecodeArgs(tags, EncodeAll(tags, args), |args|) == Some(args)
  {
    if args == [] {
    } else {
      EncodeAllFront(tags, args);
      var e := Encode(tags, args[0]);
      var tail := EncodeAll(tags, args[1..]);
      DecodeEncode(tags, args[0], tail);
      assert (e + tail)[|e|..] == tail;
      DecodeEncodeAll(tags, args[1..]);
      assert [args[0]] + args[1..] == args;
    }
  }

  /** Different representable values never share an encoding; in particular
      `true` and `false` differ. */
  lemma EncodeInjective(tags: TagTable, a: Arg, b: Arg)
    requires tags.Distinct() && Representable(a) && Representable(b)
    requires Encode(tags, a) == Encode(tags, b)
    ensures a == b
  {
    DecodeEncode(tags, a, []);
    DecodeEncode(tags, b, []);
    assert Encode(tags, a) + [] == Encode(tags, a);
    assert Encode(tags, b) + [] == Encode(tags, b);
  }

  /** The layout of a string's encoding: bytes 1..5 read back the length
      written, as long as it fits the `as u32` cast, and bytes 5..9 the
      address. */
  lemma StrLayout(tags: TagTable, len: nat, addr: uint32)
    ensures len <= U32_MAX ==> FromLe(Encode(tags, Str(len, addr))[1..5]) == len
    ensures FromLe(Encode(tags, Str(len, addr))[5..9]) == addr
  {
    var e := Encode(tags, Str(len, addr));
    assert e[1..5] == Le(len % 0x1_0000_0000, 4);
    assert e[5..9] == Le(addr, 4);
    LeRoundTrip(len % 0x1_0000_0000, 4);
    LeRoundTrip(addr, 4);
  }

  /** Concrete encodings of the boundary values. */
  lemma Examples(tags: TagTable, addr: uint32)
    ensures Encode(tags, Bool(true)) == [tags.code(BoolTrue)]
    ensures Encode(tags, Bool(false)) == [tags.code(BoolFalse)]
    ensures Encode(tags, U8(200)) == [tags.code(UInt8), 0xC8]
    ensures Encode(tags, I8(-1)) == [tags.code(Int8), 0xFF]
    ensures Encode(tags, I16(-1)) == [tags.code(Int16), 0xFF, 0xFF]
    ensures Encode(tags, I16(-0x8000)) == [tags.code(Int16), 0x00, 0x80]
    ensures Encode(tags, U16(0xFFFF)) == [tags.code(UInt16), 0xFF, 0xFF]
    ensures Encode(tags, I32(-0x8000_0000)) == [tags.code(Int32), 0x00, 0x00, 0x00, 0x80]
    ensures Encode(tags, U32(0x0102_0304)) == [tags.code(UInt32), 0x04, 0x03, 0x02, 0x01]
    ensures |Encode(tags, Str(2, addr))| == 9
    ensures Encode(tags, Str(2, addr))[1..5] == [2, 0, 0, 0]
  {
  }
}

/** A `Cursor<Vec<u8>>` together with the `byteorder` writes the encoder
    uses. Every cursor in the modelled code starts on an empty vector and is
    only written through, so its position is always the end of the vector. */
module Cursors {
  import opened Bytes

  /** The capacity a vector has after it must hold `needed` bytes: unchanged
      while they fit, otherwise grown to at least `needed`. */
  function Reserve(capacity: nat, needed: nat): (r: nat)
    ensures needed <= r
    ensures needed <= capacity ==> r == capacity
  {
    if needed <= capacity then capacity else needed
  }

  class Cursor {
    var inner: seq<byte>
    var position: nat
    var capacity: nat

    ghost predicate Valid()
      reads this
    {
      position == |inner| && |inner| <= capacity
    }

    /** `Cursor::new(Vec::with_capacity(capacity))`. */
    constructor (capacity: nat)
      ensures Valid()
      ensures inner == [] && this.capacity == capacity
    {
      inner := [];
      position := 0;
      this.capacity := capacity;
    }

    /** `write_all`: the bytes go after the ones already written. */
    method WriteAll(bytes: seq<byte>)
      requires Valid()
      modifies this
      ensures Valid()
      ensures inner == old(inner) + bytes
      ensures capacity == Reserve(old(capacity), |inner|)
    {
      inner := inner + bytes;
      position := position + |bytes|;
      capacity := Reserve(capacity, |inner|);
    }

    method WriteU8(n: uint8)
      requires Valid()
      modifies this
      ensures Valid()
      ensures inner == old(inner) + [n]
      ensures capacity == Reserve(old(capacity), |inner|)
    {
      WriteAll([n]);
    }

    method WriteI8(n: int8)
      requires Valid()
      modifies this
      ensures Valid()
      ensures inner == old(inner) + Le(AsUnsigned(n, 0x80), 1)
      ensures capacity == Reserve(old(capacity), |inner|)
    {
      WriteAll(Le(AsUnsigned(n, 0x80), 1));
    }

    method WriteU16Le(n: uint16)
      requires Valid()
      modifies this
      ensures Valid()
      ensures inner == old(inner) + Le(n, 2)
      ensures capacity == Reserve(old(capacity), |inner|)
    {
      WriteAll(Le(n, 2));
    }

    method WriteI16Le(n: int16)
      requires Valid()
      modifies this
      ensures Valid()
      ensures inner == old(inner) + Le(AsUnsigned(n, 0x8000), 2)
      ensures capacity == Reserve(old(capacity), |inner|)
    {
      WriteAll(Le(AsUnsigned(n, 0x8000), 2));
    }

    method WriteU32Le(n: uint32)
      requires Valid()
      modifies this
      ensures Valid()
      ensures inner == old(inner) + Le(n, 4)
      ensures capacity == Reserve(old(capacity), |inner|)
    {
      WriteAll(Le(n, 4));
    }

    method WriteI32Le(n: int32)
      requires Valid()
      modifies this
      ensures Valid()
      ensures inner == old(inner) + Le(AsUnsigned(n, 0x8000_0000), 4)
      ensures capacity == Reserve(old(capacity), |inner|)
    {
      WriteAll(Le(AsUnsigned(n, 0x8000_0000), 4));
    }

    /** `into_inner`: the vector written so far. */
    function IntoInner(): (v: seq<byte>)
      reads this
      requires Valid()
      ensures |v| == position
    {
      inner
    }
  }
}

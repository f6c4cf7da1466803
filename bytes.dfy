/** Fixed-width integers as the Rust source declares them, and the two
    conversions the `byteorder` crate performs when it writes them:
    two's complement for signed values and little-endian byte order. */
module Bytes {

  type byte = x: int | 0 <= x < 0x100
  type uint8 = byte
  type int8 = x: int | -0x80 <= x < 0x80
  type uint16 = x: int | 0 <= x < 0x1_0000
  type int16 = x: int | -0x8000 <= x < 0x8000
  type uint32 = x: int | 0 <= x < 0x1_0000_0000
  type int32 = x: int | -0x8000_0000 <= x < 0x8000_0000

  const U32_MAX: int := 0xFFFF_FFFF

  function Pow256(k: nat): (r: nat)
    ensures r >= 1
  {
    if k == 0 then 1 else 256 * Pow256(k - 1)
  }

  lemma Pow256Values()
    ensures Pow256(1) == 0x100 && Pow256(2) == 0x1_0000 && Pow256(4) == 0x1_0000_0000
  {
  }

  /** The `k` low-order bytes of `n`, least significant first. */
  function Le(n: nat, k: nat): (r: seq<byte>)
    ensures |r| == k
  {
    if k == 0 then [] else [n % 256] + Le(n / 256, k - 1)
  }

  /** The number whose little-endian bytes are `s`. */
  function FromLe(s: seq<byte>): (n: nat)
    ensures n < Pow256(|s|)
  {
    if s == [] then 0
    else
      var rest := FromLe(s[1..]);
      assert s[0] + 256 * rest <= 255 + 256 * (Pow256(|s| - 1) - 1);
      s[0] + 256 * rest
  }

  /** Reading `k` little-endian bytes back gives the number written,
      whenever it fits in `k` bytes. */
  lemma {:induction false} LeRoundTrip(n: nat, k: nat)
    requires n < Pow256(k)
    ensures FromLe(Le(n, k)) == n
  {
    if k > 0 {
      assert n / 256 < Pow256(k - 1);
      LeRoundTrip(n / 256, k - 1);
      assert Le(n, k)[1..] == Le(n / 256, k - 1);
    }
  }

  /** Writing the number read from `s` gives `s` back: little-endian
      encoding is a bijection between `k`-byte strings and `[0, 256^k)`. */
  lemma {:induction false} FromLeRoundTrip(s: seq<byte>)
    ensures Le(FromLe(s), |s|) == s
  {
    if s != [] {
      FromLeRoundTrip(s[1..]);
      var n := FromLe(s);
      assert n % 256 == s[0] && n / 256 == FromLe(s[1..]);
    }
  }

  /** The bit pattern `as uN` gives to a signed value in `[-half, half)`:
      two's complement in a width whose modulus is `2 * half`. */
  function AsUnsigned(v: int, half: int): (u: nat)
    requires 0 < half && -half <= v < half
    ensures u < 2 * half
    ensures u == v || u == v + 2 * half  // congruent modulo 2 * half
  {
    if v < 0 then v + 2 * half else v
  }

  /** The signed value `as iN` reads from the bit pattern `u`. */
  function AsSigned(u: nat, half: int): (v: int)
    requires 0 < half && u < 2 * half
    ensures -half <= v < half
    ensures v == u || v == u - 2 * half  // congruent modulo 2 * half
  {
    if u < half then u else u - 2 * half
  }

  /** Two's complement round trip, both ways. */
  lemma SignedRoundTrip(v: int, u: nat, half: int)
    requires 0 < half && -half <= v < half && u < 2 * half
    ensures AsSigned(AsUnsigned(v, half), half) == v
    ensures AsUnsigned(AsSigned(u, half), half) == u
  {
  }
}

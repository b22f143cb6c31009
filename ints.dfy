/** Fixed-width integers of the C++ source and the conversions between them.
    Dafny integers are unbounded, so every cast and every wrap-around of the
    source is written out here. */
module Ints {

  const TWO_8: int := 0x100
  const TWO_16: int := 0x1_0000
  const TWO_31: int := 0x8000_0000
  const TWO_32: int := 0x1_0000_0000
  const TWO_63: int := 0x8000_0000_0000_0000
  const TWO_64: int := 0x1_0000_0000_0000_0000

  type byte = x: int | 0 <= x < 0x100
  type int16 = x: int | -0x8000 <= x < 0x8000
  type uint16 = x: int | 0 <= x < 0x1_0000
  type int32 = x: int | -0x8000_0000 <= x < 0x8000_0000
  type uint32 = x: int | 0 <= x < 0x1_0000_0000
  type int64 = x: int | -0x8000_0000_0000_0000 <= x < 0x8000_0000_0000_0000
  type uint64 = x: int | 0 <= x < 0x1_0000_0000_0000_0000

  /** 2 to the power n. */
  function Pow2(n: nat): (r: nat)
    ensures r >= 1
  {
    if n == 0 then 1 else 2 * Pow2(n - 1)
  }

  lemma {:induction false} Pow2Add(a: nat, b: nat)
    ensures Pow2(a + b) == Pow2(a) * Pow2(b)
  {
    if b > 0 {
      Pow2Add(a, b - 1);
      assert Pow2(a + b) == 2 * Pow2(a + b - 1);
    }
  }

  lemma Pow2Values()
    ensures Pow2(0) == 1 && Pow2(7) == 128 && Pow2(8) == 0x100
    ensures Pow2(16) == TWO_16 && Pow2(24) == 0x100_0000 && Pow2(32) == TWO_32
    ensures Pow2(40) == 0x100_0000_0000 && Pow2(48) == 0x1_0000_0000_0000
    ensures Pow2(56) == 0x100_0000_0000_0000 && Pow2(64) == TWO_64
  {
    assert Pow2(8) == 0x100;
    assert Pow2(16) == TWO_16 by { Pow2Add(8, 8); }
    assert Pow2(24) == 0x100_0000 by { Pow2Add(16, 8); }
    assert Pow2(32) == TWO_32 by { Pow2Add(16, 16); }
    assert Pow2(40) == 0x100_0000_0000 by { Pow2Add(32, 8); }
    assert Pow2(48) == 0x1_0000_0000_0000 by { Pow2Add(32, 16); }
    assert Pow2(56) == 0x100_0000_0000_0000 by { Pow2Add(32, 24); }
    assert Pow2(64) == TWO_64 by { Pow2Add(32, 32); }
  }

  lemma Pow2Monotone(a: nat, b: nat)
    requires a <= b
    ensures Pow2(a) <= Pow2(b)
  {
    Pow2Add(a, b - a);
  }

  // The C++ casts between signed and unsigned types of one width keep the
  // bit pattern (two's complement).

  function AsUnsigned16(v: int16): uint16 { if v < 0 then v + TWO_16 else v }
  function AsSigned16(u: uint16): int16 { if u < 0x8000 then u else u - TWO_16 }
  function AsUnsigned32(v: int32): uint32 { if v < 0 then v + TWO_32 else v }
  function AsSigned32(u: uint32): int32 { if u < TWO_31 then u else u - TWO_32 }
  function AsUnsigned64(v: int64): uint64 { if v < 0 then v + TWO_64 else v }
  function AsSigned64(u: uint64): int64 { if u < TWO_63 then u else u - TWO_64 }

  /** The signed reading of the unsigned bit pattern of `v` is `v`. */
  lemma Signed32RoundTrip(v: int32)
    ensures AsUnsigned32(v) % TWO_32 == AsUnsigned32(v)
    ensures AsSigned32(AsUnsigned32(v) % TWO_32) == v
  {
  }

  lemma Signed64RoundTrip(v: int64)
    ensures AsUnsigned64(v) % TWO_64 == AsUnsigned64(v)
    ensures AsSigned64(AsUnsigned64(v) % TWO_64) == v
  {
  }

  /** `(int32_t)x` for an integer of any width (a `size_t`, say): the low 32
      bits, read as two's complement. */
  function WrapInt32(x: int): int32 { AsSigned32(x % TWO_32) }

  /** Subtraction of two `uint64_t` values, which wraps modulo 2^64. */
  function SubU64(a: uint64, b: uint64): (r: uint64)
    ensures a >= b ==> r == a - b
    ensures a < b ==> r == a - b + TWO_64
  {
    (a - b) % TWO_64
  }
}

/** The Minecraft packet tool: VarInt/VarLong (7-bit groups, least
    significant first, high bit = "more follows") and big-endian fixed-width
    fields. A `std::vector<uint8_t>&` that the C++ writers append to is an
    in/out sequence here; a raw read cursor is an index into the received
    bytes, and a read past the end is reported as `PastEnd`.

    The bit operations of the source are written arithmetically on bytes:
    `x & 0x7F` is `x % 128`, `x >> 7` is `x / 128`, `x | 0x80` on a value
    below 128 is `x + 128`, and OR-ing the disjoint 7-bit groups into the
    accumulator is adding them. */
module MCPacket {
  import opened Ints
  import opened Wrappers

  const SEGMENT_BITS: int := 0x7F
  const CONTINUE_BIT: int := 0x80

  /** Result of a read at a cursor: the value and the cursor after it. */
  datatype Read<T> = Ok(value: T, next: nat) | PastEnd

  // ---------------------------------------------------------------------
  // Writing VarInt / VarLong

  /** The 7-bit groups of an unsigned value, least significant first; every
      group but the last carries the continuation bit. */
  function Groups(u: nat): seq<byte>
    decreases u
  {
    if u < 128 then [u] else [u % 128 + CONTINUE_BIT] + Groups(u / 128)
  }

  /** Every byte except the last has 0x80 set; the last does not. */
  ghost predicate ContinuationShaped(s: seq<byte>)
  {
    && |s| >= 1
    && (forall j :: 0 <= j < |s| - 1 ==> s[j] >= CONTINUE_BIT)
    && s[|s| - 1] < CONTINUE_BIT
  }

  lemma {:induction false} GroupsShape(u: nat)
    ensures ContinuationShaped(Groups(u))
    decreases u
  {
    if u >= 128 {
      GroupsShape(u / 128);
      var s := Groups(u);
      assert s == [u % 128 + CONTINUE_BIT] + Groups(u / 128);
      forall j | 0 <= j < |s| - 1 ensures s[j] >= CONTINUE_BIT {
        if j > 0 { assert s[j] == Groups(u / 128)[j - 1]; }
      }
    }
  }

  /** A value below 128^n takes at most n groups. */
  lemma {:induction false} GroupsAtMost(u: nat, n: nat)
    requires n >= 1 && u < Pow2(7 * n)
    ensures |Groups(u)| <= n
    decreases u
  {
    if u >= 128 {
      assert Pow2(7) == 128;
      if n == 1 {
        assert false;
      } else {
        Pow2Add(7 * (n - 1), 7);
        GroupsAtMost(u / 128, n - 1);
      }
    }
  }

  /** A value of at least 128^(n-1) takes at least n groups. */
  lemma {:induction false} GroupsAtLeast(u: nat, n: nat)
    requires n >= 1 && u >= Pow2(7 * (n - 1))
    ensures |Groups(u)| >= n
    decreases u
  {
    if n > 1 {
      assert Pow2(7) == 128;
      Pow2Add(7 * (n - 2), 7);
      Pow2Monotone(7, 7 * (n - 1));
      GroupsAtLeast(u / 128, n - 1);
    }
  }

  /** Bytes of `WriteVarInt(val)`: the groups of the unsigned bit pattern. */
  function VarIntBytes(v: int32): (r: seq<byte>)
    ensures ContinuationShaped(r)
    ensures 1 <= |r| <= 5
    ensures 0 <= v < 128 <==> r == [v]
    ensures v < 0 ==> |r| == 5
  {
    var u := AsUnsigned32(v);
    Pow2Values();
    Pow2Add(32, 3);
    GroupsShape(u);
    GroupsAtMost(u, 5);
    if v < 0 then (Pow2Add(28, 4); GroupsAtLeast(u, 5); Groups(u)) else Groups(u)
  }

  /** Bytes of `WriteVarLong(val)`. */
  function VarLongBytes(v: int64): (r: seq<byte>)
    ensures ContinuationShaped(r)
    ensures 1 <= |r| <= 10
    ensures 0 <= v < 128 <==> r == [v]
    ensures v < 0 ==> |r| == 10
  {
    var u := AsUnsigned64(v);
    Pow2Values();
    Pow2Add(64, 6);
    GroupsShape(u);
    GroupsAtMost(u, 10);
    if v < 0 then (Pow2Add(63, 1); GroupsAtLeast(u, 10); Groups(u)) else Groups(u)
  }

  /** The loop shared by both writers: split `cast` into groups. */
  method Septets(cast: nat) returns (inserting: seq<byte>)
    ensures inserting == Groups(cast)
  {
    inserting := [];
    var c: nat := cast;
    while true
      invariant inserting + Groups(c) == Groups(cast)
      decreases c
    {
      if c < 128 {
        inserting := inserting + [c];
        break;
      }
      inserting := inserting + [c % 128 + CONTINUE_BIT];
      c := c / 128;
    }
  }

  /** `WriteVarInt(data, it, val)`: insert the encoding at position `it`;
      the bytes before and after `it` keep their order. */
  method WriteVarIntAt(data: seq<byte>, it: nat, val: int32) returns (data': seq<byte>)
    requires it <= |data|
    ensures data' == data[..it] + VarIntBytes(val) + data[it..]
  {
    var inserting := Septets(AsUnsigned32(val));
    data' := data[..it] + inserting + data[it..];
  }

  /** `WriteVarInt(data, val)`: append the encoding. */
  method WriteVarInt(data: seq<byte>, val: int32) returns (data': seq<byte>)
    ensures data' == data + VarIntBytes(val)
  {
    data' := WriteVarIntAt(data, |data|, val);
    assert data[..|data|] == data;
  }

  method WriteVarLongAt(data: seq<byte>, it: nat, val: int64) returns (data': seq<byte>)
    requires it <= |data|
    ensures data' == data[..it] + VarLongBytes(val) + data[it..]
  {
    var inserting := Septets(AsUnsigned64(val));
    data' := data[..it] + inserting + data[it..];
  }

  method WriteVarLong(data: seq<byte>, val: int64) returns (data': seq<byte>)
    ensures data' == data + VarLongBytes(val)
  {
    data' := WriteVarLongAt(data, |data|, val);
    assert data[..|data|] == data;
  }

  // ---------------------------------------------------------------------
  // Reading VarInt / VarLong

  /** The groups starting at cursor `i`, read at bit offset `position` of a
      `width`-bit accumulator, as a value relative to that offset. Reading
      stops at a byte without the continuation bit, or once the next offset
      would reach the width, whatever that byte's continuation bit says. */
  function Gather(data: seq<byte>, i: nat, position: nat, width: nat): Read<nat>
    decreases width - position, 0
  {
    if i >= |data| then PastEnd
    else if data[i] < CONTINUE_BIT || position + 7 >= width then Ok(data[i] % 128, i + 1)
    else Shifted(data[i] % 128, 128, Gather(data, i + 1, position + 7, width))
  }

  /** `acc` plus the value of `r` scaled by `scale` (a shift left). */
  function Shifted(acc: nat, scale: nat, r: Read<nat>): Read<nat>
  {
    match r
    case PastEnd => PastEnd
    case Ok(v, e) => Ok(acc + scale * v, e)
  }

  /** `ReadVarInt`: up to 5 bytes; the accumulator is `uint32_t`, so only the
      low 32 bits survive, and the result is their signed reading. */
  function DecodeVarInt(data: seq<byte>, cursor: nat): Read<int32>
  {
    match Gather(data, cursor, 0, 32)
    case PastEnd => PastEnd
    case Ok(v, e) => Ok(AsSigned32(v % TWO_32), e)
  }

  /** `ReadVarLong`: up to 10 bytes into a `uint64_t` accumulator. */
  function DecodeVarLong(data: seq<byte>, cursor: nat): Read<int64>
  {
    match Gather(data, cursor, 0, 64)
    case PastEnd => PastEnd
    case Ok(v, e) => Ok(AsSigned64(v % TWO_64), e)
  }

  /** One more group folded into the accumulator. */
  lemma ShiftedStep(value: nat, scale: nat, d: nat, r: Read<nat>)
    ensures Shifted(value, scale, Shifted(d, 128, r)) == Shifted(value + scale * d, scale * 128, r)
  {
    if r.Ok? {
      Distribute(value, scale, d, r.value);
    }
  }

  lemma Pow2Shift7(n: nat)
    ensures Pow2(n + 7) == Pow2(n) * 128
  {
    Pow2Add(n, 7);
    assert Pow2(7) == 128;
  }

  lemma Distribute(value: nat, p: nat, d: nat, v: nat)
    ensures value + p * (d + 128 * v) == (value + p * d) + (p * 128) * v
  {
    assert p * (d + 128 * v) == p * d + p * (128 * v);
  }

  /** The loop shared by both readers. */
  method ReadGroups(data: seq<byte>, cursor: nat, width: nat) returns (r: Read<nat>)
    requires width > 0
    ensures r == Gather(data, cursor, 0, width)
  {
    var value: nat := 0;
    var position: nat := 0;
    var i: nat := cursor;
    while true
      invariant position < width
      invariant Gather(data, cursor, 0, width) == Shifted(value, Pow2(position), Gather(data, i, position, width))
      decreases width - position
    {
      if i >= |data| {
        return PastEnd;
      }
      var currentByte := data[i];
      i := i + 1;
      ShiftedStep(value, Pow2(position), currentByte % 128, Gather(data, i, position + 7, width));
      Pow2Shift7(position);
      value := value + Pow2(position) * (currentByte % 128);
      if currentByte < CONTINUE_BIT {
        break;
      }
      if position + 7 >= width {
        break;
      }
      position := position + 7;
    }
    r := Ok(value, i);
  }

  method ReadVarInt(data: seq<byte>, cursor: nat) returns (r: Read<int32>)
    ensures r == DecodeVarInt(data, cursor)
    ensures r.Ok? ==> cursor < r.next <= cursor + 5
  {
    var g := ReadGroups(data, cursor, 32);
    GatherConsumes(data, cursor, 0, 32);
    if g.PastEnd? {
      return PastEnd;
    }
    r := Ok(AsSigned32(g.value % TWO_32), g.next);
  }

  method ReadVarLong(data: seq<byte>, cursor: nat) returns (r: Read<int64>)
    ensures r == DecodeVarLong(data, cursor)
    ensures r.Ok? ==> cursor < r.next <= cursor + 10
  {
    var g := ReadGroups(data, cursor, 64);
    GatherConsumes(data, cursor, 0, 64);
    if g.PastEnd? {
      return PastEnd;
    }
    r := Ok(AsSigned64(g.value % TWO_64), g.next);
  }

  /** A read consumes at least one byte and at most one byte per 7 bits of
      width still free, rounded up: 5 for VarInt, 10 for VarLong. */
  lemma {:induction false} GatherConsumes(data: seq<byte>, i: nat, position: nat, width: nat)
    requires position < width
    ensures match Gather(data, i, position, width)
            case PastEnd => true
            case Ok(_, e) => i < e <= |data| && e - i <= (width - position + 6) / 7
    decreases width - position
  {
    if i < |data| && data[i] >= CONTINUE_BIT && position + 7 < width {
      GatherConsumes(data, i + 1, position + 7, width);
    }
  }

  /** Decoding the groups of `u`, wherever they sit in the buffer, gives `u`
      back and moves the cursor past them, provided `u` fits in the bits
      still free. */
  lemma {:induction false} GatherGroups(data: seq<byte>, c: nat, u: nat, position: nat, width: nat)
    requires position < width && u < Pow2(width - position)
    requires c + |Groups(u)| <= |data| && data[c..c + |Groups(u)|] == Groups(u)
    ensures Gather(data, c, position, width) == Ok(u, c + |Groups(u)|)
    decreases u
  {
    var g := Groups(u);
    assert data[c] == g[0];
    if u >= 128 {
      assert Pow2(7) == 128;
      if position + 7 >= width {
        Pow2Monotone(width - position, 7);
        assert false;
      }
      Pow2Add(width - position - 7, 7);
      var rest := Groups(u / 128);
      assert g == [u % 128 + CONTINUE_BIT] + rest;
      assert data[c + 1..c + 1 + |rest|] == g[1..];
      GatherGroups(data, c + 1, u / 128, position + 7, width);
    }
  }

  /** `ReadVarInt` inverts `WriteVarInt` for every int32, and the cursor
      advances by exactly the encoded length. */
  lemma VarIntRoundTrip(prefix: seq<byte>, v: int32, suffix: seq<byte>)
    ensures DecodeVarInt(prefix + VarIntBytes(v) + suffix, |prefix|)
         == Ok(v, |prefix| + |VarIntBytes(v)|)
  {
    var u := AsUnsigned32(v);
    var g := VarIntBytes(v);
    var data := prefix + g + suffix;
    assert data[|prefix|..|prefix| + |g|] == g;
    assert u < Pow2(32) by { Pow2Values(); }
    assert g == Groups(u);
    GatherGroups(data, |prefix|, u, 0, 32);
    Signed32RoundTrip(v);
  }

  /** `ReadVarLong` inverts `WriteVarLong` for every int64. */
  lemma VarLongRoundTrip(prefix: seq<byte>, v: int64, suffix: seq<byte>)
    ensures DecodeVarLong(prefix + VarLongBytes(v) + suffix, |prefix|)
         == Ok(v, |prefix| + |VarLongBytes(v)|)
  {
    var u := AsUnsigned64(v);
    var g := VarLongBytes(v);
    var data := prefix + g + suffix;
    assert data[|prefix|..|prefix| + |g|] == g;
    assert u < Pow2(64) by { Pow2Values(); }
    assert g == Groups(u);
    GatherGroups(data, |prefix|, u, 0, 64);
    Signed64RoundTrip(v);
  }

  /** Five bytes all carrying the continuation bit still end the VarInt read
      after the fifth: the decoder never consumes a sixth byte. */
  lemma VarIntStopsAtFive(data: seq<byte>, c: nat)
    requires c + 5 <= |data|
    requires forall j :: c <= j < c + 5 ==> data[j] >= CONTINUE_BIT
    ensures DecodeVarInt(data, c).Ok? && DecodeVarInt(data, c).next == c + 5
  {
  }

  // ---------------------------------------------------------------------
  // Big-endian fixed-width fields

  /** The n low bytes of `u`, most significant first. */
  function BigEndian(u: nat, n: nat): (r: seq<byte>)
    ensures |r| == n
  {
    if n == 0 then [] else BigEndian(u / 256, n - 1) + [u % 256]
  }

  /** The value of a big-endian byte string. */
  function FromBigEndian(s: seq<byte>): nat
  {
    if s == [] then 0 else FromBigEndian(s[..|s| - 1]) * 256 + s[|s| - 1]
  }

  lemma {:induction false} BigEndianRoundTrip(u: nat, n: nat)
    requires u < Pow2(8 * n)
    ensures FromBigEndian(BigEndian(u, n)) == u
  {
    if n > 0 {
      assert Pow2(8) == 256;
      Pow2Add(8 * (n - 1), 8);
      var s := BigEndian(u, n);
      assert s[..n - 1] == BigEndian(u / 256, n - 1);
      BigEndianRoundTrip(u / 256, n - 1);
    }
  }

  /** The quotient and remainder of a division are unique. */
  lemma DivUnique(x: int, d: int, q: int, r: int)
    requires d > 0 && 0 <= r < d && x == q * d + r
    ensures x / d == q && x % d == r
  {
    var k := x / d - q;
    assert k * d == r - x % d;
  }
  /** Dividing twice is dividing by the product. */
  lemma DivDiv(u: nat, a: nat, b: nat)
    requires a > 0 && b > 0
    ensures u / a / b == u / (a * b)
  {
    var ab := a * b;
    var q, r := u / ab, u % ab;
    var r1, r2 := r / a, r % a;
    assert r1 < b by {
      assert r1 * a <= r < b * a;
    }
    assert u == (q * b + r1) * a + r2 by {
      assert u == q * ab + r;
      assert r == r1 * a + r2;
      assert q * ab == q * b * a;
    }
    DivUnique(u, a, q * b + r1, r2);
    DivUnique(q * b + r1, b, q, r1);
  }

  /** Byte k of the big-endian form is `(u >> 8(n-1-k)) & 0xFF`. */
  lemma {:induction false} BigEndianAt(u: nat, n: nat, k: nat)
    requires k < n
    ensures BigEndian(u, n)[k] == (u / Pow2(8 * (n - 1 - k))) % 256
  {
    if k < n - 1 {
      BigEndianAt(u / 256, n - 1, k);
      assert Pow2(8) == 256;
      DivDiv(u, 256, Pow2(8 * (n - 2 - k)));
      Pow2Add(8, 8 * (n - 2 - k));
    }
  }

  method WriteShort(data: seq<byte>, val: int16) returns (data': seq<byte>)
    ensures data' == data + BigEndian(AsUnsigned16(val), 2)
  {
    var cast := AsUnsigned16(val);
    data' := data + [(cast / 0x100) % 256];
    data' := data' + [cast % 256];
  }

  method WriteInt(data: seq<byte>, val: int32) returns (data': seq<byte>)
    ensures data' == data + BigEndian(AsUnsigned32(val), 4)
  {
    var cast := AsUnsigned32(val);
    // the four push_backs, most significant byte first
    var bytes := [(cast / 0x100_0000) % 256, (cast / 0x1_0000) % 256, (cast / 0x100) % 256, cast % 256];
    data' := data + bytes;
    forall k | 0 <= k < 4 ensures bytes[k] == BigEndian(cast, 4)[k] {
      BigEndianAt(cast, 4, k);
      Pow2Values();
    }
  }

  method WriteLong(data: seq<byte>, val: int64) returns (data': seq<byte>)
    ensures data' == data + BigEndian(AsUnsigned64(val), 8)
  {
    var cast := AsUnsigned64(val);
    // the eight push_backs, most significant byte first
    var bytes := [(cast / 0x100_0000_0000_0000) % 256, (cast / 0x1_0000_0000_0000) % 256,
                  (cast / 0x100_0000_0000) % 256, (cast / 0x1_0000_0000) % 256,
                  (cast / 0x100_0000) % 256, (cast / 0x1_0000) % 256,
                  (cast / 0x100) % 256, cast % 256];
    data' := data + bytes;
    forall k | 0 <= k < 8 ensures bytes[k] == BigEndian(cast, 8)[k] {
      BigEndianAt(cast, 8, k);
      Pow2Values();
    }
  }

  lemma {:induction false} FromBigEndianBound(s: seq<byte>)
    ensures FromBigEndian(s) < Pow2(8 * |s|)
  {
    if s != [] {
      FromBigEndianBound(s[..|s| - 1]);
      assert Pow2(8) == 256;
      Pow2Add(8 * (|s| - 1), 8);
    }
  }

  /** Extending a big-endian prefix by one byte. */
  lemma FromBigEndianSnoc(s: seq<byte>, k: nat)
    requires k < |s|
    ensures FromBigEndian(s[..k + 1]) == FromBigEndian(s[..k]) * 256 + s[k]
  {
    assert s[..k + 1][..k] == s[..k];
  }

  /** `ReadShort`: two bytes at the cursor, or nothing if fewer remain. */
  function ReadShort(data: seq<byte>, c: nat): (r: Option<int16>)
    ensures r.Some? <==> c + 2 <= |data|
    ensures r.Some? ==> AsUnsigned16(r.value) == FromBigEndian(data[c..c + 2])
  {
    if c + 2 > |data| then None
    else
      var s := data[c..c + 2];
      FromBigEndianBound(s);
      assert Pow2(8 * 2) == TWO_16 by { Pow2Values(); }
      FromBigEndianSnoc(s, 0);
      FromBigEndianSnoc(s, 1);
      assert s[..2] == s;
      Some(AsSigned16((data[c] as int) * 0x100 + data[c + 1]))
  }

  function ReadInt(data: seq<byte>, c: nat): (r: Option<int32>)
    ensures r.Some? <==> c + 4 <= |data|
    ensures r.Some? ==> AsUnsigned32(r.value) == FromBigEndian(data[c..c + 4])
  {
    if c + 4 > |data| then None
    else
      var s := data[c..c + 4];
      assert FromBigEndian(s) < TWO_32 by {
        FromBigEndianBound(s);
        assert Pow2(8 * 4) == TWO_32 by { Pow2Values(); }
      }
      HighBytes(s);
      assert s[..4] == s;
      Some(AsSigned32((data[c] as int) * 0x100_0000 + (data[c + 1] as int) * 0x1_0000
                      + (data[c + 2] as int) * 0x100 + data[c + 3]))
  }

  function ReadLong(data: seq<byte>, c: nat): (r: Option<int64>)
    ensures r.Some? <==> c + 8 <= |data|
    ensures r.Some? ==> AsUnsigned64(r.value) == FromBigEndian(data[c..c + 8])
  {
    if c + 8 > |data| then None
    else
      LongBytes(data[c..c + 8]);
      Some(AsSigned64((data[c] as int) * 0x100_0000_0000_0000 + (data[c + 1] as int) * 0x1_0000_0000_0000
                      + (data[c + 2] as int) * 0x100_0000_0000 + (data[c + 3] as int) * 0x1_0000_0000
                      + (data[c + 4] as int) * 0x100_0000 + (data[c + 5] as int) * 0x1_0000
                      + (data[c + 6] as int) * 0x100 + data[c + 7]))
  }

  /** The eight shifted bytes that `ReadLong` ors together add up to the
      big-endian value, which fits in 64 bits. */
  lemma LongBytes(s: seq<byte>)
    requires |s| == 8
    ensures FromBigEndian(s) < TWO_64
    ensures FromBigEndian(s)
         == (s[0] as int) * 0x100_0000_0000_0000 + (s[1] as int) * 0x1_0000_0000_0000 + (s[2] as int) * 0x100_0000_0000
            + (s[3] as int) * 0x1_0000_0000 + (s[4] as int) * 0x100_0000 + (s[5] as int) * 0x1_0000 + (s[6] as int) * 0x100 + s[7]
  {
    assert FromBigEndian(s) < TWO_64 by {
      FromBigEndianBound(s);
      assert Pow2(8 * 8) == TWO_64 by { Pow2Values(); }
    }
    var high := FromBigEndian(s[..4]);
    HighBytes(s);
    assert FromBigEndian(s[..5]) == high * 0x100 + s[4] by { FromBigEndianSnoc(s, 4); }
    assert FromBigEndian(s[..6]) == high * 0x1_0000 + (s[4] as int) * 0x100 + s[5] by { FromBigEndianSnoc(s, 5); }
    assert FromBigEndian(s[..7]) == high * 0x100_0000 + (s[4] as int) * 0x1_0000 + (s[5] as int) * 0x100 + s[6]
      by { FromBigEndianSnoc(s, 6); }
    assert FromBigEndian(s[..8]) == high * 0x1_0000_0000 + (s[4] as int) * 0x100_0000 + (s[5] as int) * 0x1_0000
                                    + (s[6] as int) * 0x100 + s[7]
      by { FromBigEndianSnoc(s, 7); }
    assert s[..8] == s;
  }

  /** The value of the first four bytes. */
  lemma HighBytes(s: seq<byte>)
    requires |s| >= 4
    ensures FromBigEndian(s[..4]) == (s[0] as int) * 0x100_0000 + (s[1] as int) * 0x1_0000 + (s[2] as int) * 0x100 + s[3]
  {
    assert FromBigEndian(s[..1]) == s[0] by { FromBigEndianSnoc(s, 0); }
    assert FromBigEndian(s[..2]) == (s[0] as int) * 0x100 + s[1] by { FromBigEndianSnoc(s, 1); }
    assert FromBigEndian(s[..3]) == (s[0] as int) * 0x1_0000 + (s[1] as int) * 0x100 + s[2] by { FromBigEndianSnoc(s, 2); }
    FromBigEndianSnoc(s, 3);
  }

  /** `ReadShort` inverts `WriteShort`, whatever precedes the field. */
  lemma ShortRoundTrip(data: seq<byte>, v: int16, rest: seq<byte>)
    ensures ReadShort(data + BigEndian(AsUnsigned16(v), 2) + rest, |data|) == Some(v)
  {
    var all := data + BigEndian(AsUnsigned16(v), 2) + rest;
    assert all[|data|..|data| + 2] == BigEndian(AsUnsigned16(v), 2);
    assert Pow2(8 * 2) == TWO_16 by { Pow2Values(); }
    BigEndianRoundTrip(AsUnsigned16(v), 2);
  }

  lemma IntRoundTrip(data: seq<byte>, v: int32, rest: seq<byte>)
    ensures ReadInt(data + BigEndian(AsUnsigned32(v), 4) + rest, |data|) == Some(v)
  {
    var all := data + BigEndian(AsUnsigned32(v), 4) + rest;
    assert all[|data|..|data| + 4] == BigEndian(AsUnsigned32(v), 4);
    assert Pow2(8 * 4) == TWO_32 by { Pow2Values(); }
    BigEndianRoundTrip(AsUnsigned32(v), 4);
  }

  lemma LongRoundTrip(data: seq<byte>, v: int64, rest: seq<byte>)
    ensures ReadLong(data + BigEndian(AsUnsigned64(v), 8) + rest, |data|) == Some(v)
  {
    var all := data + BigEndian(AsUnsigned64(v), 8) + rest;
    assert all[|data|..|data| + 8] == BigEndian(AsUnsigned64(v), 8);
    assert Pow2(8 * 8) == TWO_64 by { Pow2Values(); }
    BigEndianRoundTrip(AsUnsigned64(v), 8);
  }
}

/** HTTP/2 frame headers: http2_frames.cpp FrameCodec. */
module Frames {
  import opened Bytes

  const HEADER_SIZE := 9

  /** `kind` and `flags` are octets; the 32-bit fields are as wide as the source's. */
  datatype FrameHeader = FrameHeader(length: nat, kind: Byte, flags: Byte, id: nat)

  /** The octets of a 32-bit number, `Octet0` the lowest. */
  function Octet0(x: nat): Byte { x % 256 }
  function Octet1(x: nat): Byte { x / 256 % 256 }
  function Octet2(x: nat): Byte { x / 256 / 256 % 256 }
  function Octet3(x: nat): Byte { x / 256 / 256 / 256 % 256 }

  function U32(b3: Byte, b2: Byte, b1: Byte, b0: Byte): (r: nat)
    ensures r < UINT32
  {
    b3 * 0x100_0000 + b2 * 0x1_0000 + b1 * 0x100 + b0
  }

  /** Bitwise or, of numbers of n bits and of octets. */
  function OrBits(a: nat, b: nat, n: nat): (r: nat)
    requires a < Pow2(n) && b < Pow2(n)
    ensures r < Pow2(n)
  {
    if n == 0 then 0
    else 2 * OrBits(a / 2, b / 2, n - 1) + if a % 2 == 1 || b % 2 == 1 then 1 else 0
  }

  function Or(a: Byte, b: Byte): Byte {
    assert Pow2(8) == 256;
    OrBits(a, b, 8)
  }

  /** EncodeHeader: 24-bit length, type, flags, then the identifier with its top bit cleared. */
  function EncodeHeader(h: FrameHeader): (r: seq<Byte>)
    ensures |r| == HEADER_SIZE
  {
    [Octet2(h.length), Octet1(h.length), Octet0(h.length), h.kind, h.flags,
     Octet3(h.id) % 128, Octet2(h.id), Octet1(h.id), Octet0(h.id)]
  }

  /** DecodeHeader. The identifier's two high octets are merged into the two low ones, as in the source. */
  function DecodeHeader(d: seq<Byte>): (r: FrameHeader)
    requires |d| >= HEADER_SIZE
    ensures r.length < 0x100_0000 && r.id < 0x1_0000
  {
    FrameHeader(U32(0, d[0], d[1], d[2]), d[3], d[4], Or(d[5] % 128, d[7]) * 256 + Or(d[6], d[8]))
  }

  /** The identifier that section 4.1 of RFC 9113 puts in these octets. */
  function WireId(d: seq<Byte>): nat
    requires |d| >= HEADER_SIZE
  {
    U32(d[5] % 128, d[6], d[7], d[8])
  }

  lemma {:induction false} OrBitsZero(b: nat, n: nat)
    requires b < Pow2(n)
    ensures OrBits(0, b, n) == b
  {
    if n > 0 {
      OrBitsZero(b / 2, n - 1);
    }
  }

  lemma OrZero(b: Byte)
    ensures Or(0, b) == b
  {
    assert Pow2(8) == 256;
    OrBitsZero(b, 8);
  }

  /** DecodeHeader reads the identifier on the wire exactly when it is below 65536. */
  lemma DecodedIdIff(d: seq<Byte>)
    requires |d| >= HEADER_SIZE
    ensures DecodeHeader(d).id == WireId(d) <==> WireId(d) < 0x1_0000
  {
    if WireId(d) < 0x1_0000 {
      assert d[5] % 128 == 0 && d[6] == 0;
      OrZero(d[7]);
      OrZero(d[8]);
    }
  }

  /** `a << k`. */
  function Raise(a: nat, k: nat): nat {
    if k == 0 then a else 2 * Raise(a, k - 1)
  }

  lemma {:induction false} RaisedBelow(a: nat, b: nat, n: nat, k: nat)
    requires a < Pow2(n) && b < Pow2(k)
    ensures Raise(a, k) + b < Pow2(n + k)
    decreases k
  {
    if k > 0 {
      RaisedBelow(a, b / 2, n, k - 1);
      assert Pow2(n + k) == 2 * Pow2(n + k - 1);
    }
  }

  lemma OrTurn(x: nat, y: nat, n: nat)
    requires n > 0 && x < Pow2(n) && y < Pow2(n)
    ensures x / 2 < Pow2(n - 1) && y / 2 < Pow2(n - 1)
    ensures OrBits(x, y, n) == 2 * OrBits(x / 2, y / 2, n - 1) + if x % 2 == 1 || y % 2 == 1 then 1 else 0
  {
  }

  lemma Halved(x: nat, b: nat)
    ensures (2 * x + b) / 2 == x + b / 2 && (2 * x + b) % 2 == b % 2
  {
  }

  /** The or of two numbers, part by part. */
  lemma {:induction false} OrParts(a: nat, b: nat, c: nat, d: nat, n: nat, k: nat)
    requires a < Pow2(n) && c < Pow2(n) && b < Pow2(k) && d < Pow2(k)
    requires Raise(a, k) + b < Pow2(n + k) && Raise(c, k) + d < Pow2(n + k)
    ensures OrBits(Raise(a, k) + b, Raise(c, k) + d, n + k) == Raise(OrBits(a, c, n), k) + OrBits(b, d, k)
    decreases k
  {
    hide Pow2;
    if k == 0 {
      PowZero();
    } else {
      hide OrBits;
      OrTurn(Raise(a, k) + b, Raise(c, k) + d, n + k);
      OrTurn(b, d, k);
      Halved(Raise(a, k - 1), b);
      Halved(Raise(c, k - 1), d);
      RaisedBelow(a, b / 2, n, k - 1);
      RaisedBelow(c, d / 2, n, k - 1);
      OrParts(a, b / 2, c, d / 2, n, k - 1);
    }
  }

  lemma PowZero()
    ensures Pow2(0) == 1
  {
  }

  lemma RaiseEight(a: nat)
    ensures Raise(a, 8) == a * 256
  {
    assert Raise(a, 1) == 2 * a;
    assert Raise(a, 3) == 4 * Raise(a, 1);
    assert Raise(a, 5) == 4 * Raise(a, 3);
    assert Raise(a, 7) == 4 * Raise(a, 5);
  }

  lemma HalvesOver(a: Byte, b: Byte, c: Byte, d: Byte)
    ensures var high: nat, low: nat := a * 256 + b, c * 256 + d;
            high < Pow2(16) && low < Pow2(16) && OrBits(high, low, 16) == Or(a, c) * 256 + Or(b, d)
  {
    hide OrBits, Raise;
    assert Pow2(8) == 256;
    RaiseEight(a);
    RaiseEight(c);
    RaiseEight(OrBits(a, c, 8));
    RaisedBelow(a, b, 8, 8);
    RaisedBelow(c, d, 8, 8);
    OrParts(a, b, c, d, 8, 8);
  }

  /** The header in the octets of section 4.1 of RFC 9113: length, type and flags are read as they stand, and of the
      identifier the two halves, one laid over the other. */
  lemma DecodedHeaderIs(d: seq<Byte>)
    requires |d| >= HEADER_SIZE
    ensures var r := DecodeHeader(d);
            var high, low := WireId(d) / 0x1_0000, WireId(d) % 0x1_0000;
            && r.length == U32(0, d[0], d[1], d[2]) && r.kind == d[3] && r.flags == d[4]
            && high < Pow2(16) && low < Pow2(16) && r.id == OrBits(high, low, 16)
  {
    hide OrBits, Pow2, Or, U32;
    HalvesOver(d[5] % 128, d[6], d[7], d[8]);
    HalvesOf(d[5] % 128, d[6], d[7], d[8]);
  }

  lemma HalvesOf(a: Byte, b: Byte, c: Byte, d: Byte)
    ensures var high: nat, low: nat := a * 256 + b, c * 256 + d;
            U32(a, b, c, d) / 0x1_0000 == high && U32(a, b, c, d) % 0x1_0000 == low
  {
    var high: nat, low: nat := a * 256 + b, c * 256 + d;
    Parted(U32(a, b, c, d), high, low);
  }

  lemma Parted(x: nat, high: nat, low: nat)
    requires x == high * 0x1_0000 + low && low < 0x1_0000
    ensures x / 0x1_0000 == high && x % 0x1_0000 == low
  {
  }

  /** The header that is written: 24 bits of length, type, flags, a clear bit and 31 of the identifier. */
  lemma EncodedHeaderIs(h: FrameHeader)
    requires h.length < 0x100_0000 && h.id < 0x8000_0000
    ensures var r := EncodeHeader(h);
            && U32(0, r[0], r[1], r[2]) == h.length && r[3] == h.kind && r[4] == h.flags
            && r[5] < 128 && WireId(r) == h.id
  {
    hide Octet0, Octet1, Octet2, Octet3, U32;
    SplitU24(h.length);
    SplitId(h.id);
    ClearTop(Octet3(h.id));
  }

  lemma Split(x: nat)
    requires x < UINT32
    ensures U32(Octet3(x), Octet2(x), Octet1(x), Octet0(x)) == x
  {
    var y := x / 256;
    var z := y / 256;
    assert x == 256 * y + Octet0(x) && y == 256 * z + Octet1(x);
    assert z == 256 * (z / 256) + Octet2(x) && z / 256 == Octet3(x);
  }

  lemma SplitU24(x: nat)
    requires x < UINT32
    ensures U32(0, Octet2(x), Octet1(x), Octet0(x)) == x <==> x < 0x100_0000
  {
    hide Octet0, Octet1, Octet2, Octet3;
    Split(x);
  }

  lemma SplitId(x: nat)
    requires x < UINT32
    ensures U32(Octet3(x) % 128, Octet2(x), Octet1(x), Octet0(x)) == if x < 0x8000_0000 then x else x - 0x8000_0000
  {
    hide Octet0, Octet1, Octet2, Octet3;
    Split(x);
    var top := Octet3(x);
    ClearTop(top);
    if x < 0x8000_0000 {
      assert top < 128;
    } else {
      assert top >= 128;
    }
  }

  lemma ClearTop(b: Byte)
    ensures b % 128 == if b < 128 then b else b - 128
  {
  }

  /** Decoding inverts encoding exactly for lengths below 2^24 and identifiers below 65536. */
  lemma HeaderRoundTripIff(h: FrameHeader, rest: seq<Byte>)
    requires h.length < UINT32 && h.id < UINT32
    ensures DecodeHeader(EncodeHeader(h) + rest) == h <==> h.length < 0x100_0000 && h.id < 0x1_0000
  {
    hide Octet0, Octet1, Octet2, Octet3, U32, Or;
    var d := EncodeHeader(h) + rest;
    SplitU24(h.length);
    SplitId(h.id);
    DecodedIdIff(d);
    assert WireId(d) == U32(Octet3(h.id) % 128, Octet2(h.id), Octet1(h.id), Octet0(h.id));
  }

  // ---- WINDOW_UPDATE payloads ----

  function EncodeIncrement(increment: nat): (r: seq<Byte>)
    ensures |r| == 4
  {
    [Octet3(increment) % 128, Octet2(increment), Octet1(increment), Octet0(increment)]
  }

  /** The increment HandleWindowUpdate reads: 31 bits. */
  function ReadIncrement(p: seq<Byte>): (r: nat)
    requires |p| == 4
    ensures r < 0x8000_0000
  {
    U32(p[0] % 128, p[1], p[2], p[3])
  }

  lemma IncrementRoundTrip(increment: nat)
    requires increment < 0x8000_0000
    ensures ReadIncrement(EncodeIncrement(increment)) == increment
  {
    hide Octet0, Octet1, Octet2, Octet3, U32;
    SplitId(increment);
  }
}

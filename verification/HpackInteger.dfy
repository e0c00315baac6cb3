/** HPACK prefix integers: http2_hpack.cpp ReadDecodedInteger and EncodeInteger. */
module HpackInteger {
  import opened Bytes

  datatype IntRead =
    | IntOk(value: nat, next: nat)
    | IntErr

  /** Largest value that fits in a prefix of the given width; doubles as the bit mask. */
  function Mask(prefix: nat): (r: nat)
    requires 1 <= prefix <= 7
    ensures 1 <= r <= 127
  {
    match prefix
    case 1 => 1 case 2 => 3 case 3 => 7 case 4 => 15 case 5 => 31 case 6 => 63 case 7 => 127
  }

  /** `octet & Mask(prefix)`: whole multiples of the prefix field are dropped. */
  function Low(octet: nat, prefix: nat): (r: nat)
    requires 1 <= prefix <= 7
    ensures r <= Mask(prefix)
    decreases octet
  {
    if octet <= Mask(prefix) then octet else Low(octet - Mask(prefix) - 1, prefix)
  }

  /** Reduction to 32 bits. */
  function Wrap32(value: nat): (r: nat)
    ensures r < UINT32
  {
    if value < UINT32 then value else Wrap32(value - UINT32)
  }

  /** `group << shift` at the five bit positions that the reader reaches. */
  function Shl(group: nat, shift: nat): (r: nat)
    requires shift in {0, 7, 14, 21, 28}
    ensures r >= group
  {
    match shift
    case 0 => group case 7 => group * 0x80 case 14 => group * 0x4000
    case 21 => group * 0x20_0000 case 28 => group * 0x1000_0000
  }

  /** The continuation octets of an integer, low group first (section 5.1 of RFC 7541). */
  function Continuation(rest: nat): (r: seq<Byte>)
    ensures |r| > 0
  {
    if rest < 128 then [rest] else [rest % 128 + 128] + Continuation(rest / 128)
  }

  /** The encoding of `value` whose first octet carries the representation pattern `pattern`. */
  function EncodeInt(pattern: Byte, value: nat, prefix: nat): (r: seq<Byte>)
    requires 1 <= prefix <= 7
    requires pattern + Mask(prefix) < 256
    ensures |r| > 0
    ensures pattern <= r[0] <= pattern + Mask(prefix)
  {
    if value < Mask(prefix) then [pattern + value]
    else [pattern + Mask(prefix)] + Continuation(value - Mask(prefix))
  }

  /** Continuation reader; `shift` is the bit position of the next group and every sum is 32-bit. */
  function ReadContinuation(data: seq<Byte>, offset: nat, value: nat, shift: nat): (r: IntRead)
    requires shift in {0, 7, 14, 21, 28}
    ensures r.IntOk? ==> offset < r.next <= |data| && r.value < UINT32
    decreases |data| - offset
  {
    if offset >= |data| then IntErr
    else
      var octet := data[offset];
      var sum := Wrap32(value + Shl(Low(octet, 7), shift));
      if octet < 128 then IntOk(sum, offset + 1)
      else if shift + 7 > 28 then IntErr
      else ReadContinuation(data, offset + 1, sum, shift + 7)
  }

  function ReadInt(data: seq<Byte>, offset: nat, prefix: nat): (r: IntRead)
    requires 1 <= prefix <= 7
    ensures r.IntOk? ==> offset < r.next <= |data| && r.value < UINT32
  {
    if offset >= |data| then IntErr
    else
      var value := Low(data[offset], prefix);
      if value < Mask(prefix) then IntOk(value, offset + 1)
      else ReadContinuation(data, offset + 1, value, 0)
  }

  /** The loop of EncodeInteger over the groups that do not fit in the prefix. */
  method WriteContinuation(value: nat) returns (tail: seq<Byte>)
    ensures tail == Continuation(value)
  {
    var rest := value;
    tail := [];
    while rest >= 128
      invariant rest >= 0 && Continuation(value) == tail + Continuation(rest)
    {
      tail := tail + [rest % 128 + 128];
      rest := rest / 128;
    }
    tail := tail + [rest];
  }

  /** EncodeInteger: merges the value into the last octet and appends the continuation. */
  method WriteInteger(output: seq<Byte>, value: nat, prefix: nat) returns (r: seq<Byte>)
    requires 1 <= prefix <= 7
    requires output != [] && output[|output| - 1] + Mask(prefix) < 256
    ensures r == output[..|output| - 1] + EncodeInt(output[|output| - 1], value, prefix)
  {
    var mask := Mask(prefix);
    var last := |output| - 1;
    if value < mask {
      r := output[..last] + [output[last] + value];
    } else {
      var tail := WriteContinuation(value - mask);
      r := output[..last] + ([output[last] + mask] + tail);
    }
  }

  /** ReadDecodedInteger as the source writes it: one loop over the continuation octets. */
  method ReadInteger(data: seq<Byte>, offset: nat, prefix: nat) returns (r: IntRead)
    requires 1 <= prefix <= 7
    ensures r == ReadInt(data, offset, prefix)
  {
    if offset >= |data| {
      return IntErr;
    }
    var value := Low(data[offset], prefix);
    var at := offset + 1;
    if value < Mask(prefix) {
      return IntOk(value, at);
    }
    var shift: nat := 0;
    while true
      invariant value >= 0 && shift in {0, 7, 14, 21, 28}
      invariant ReadInt(data, offset, prefix) == ReadContinuation(data, at, value, shift)
      decreases |data| - at
    {
      if at >= |data| {
        return IntErr;
      }
      var octet := data[at];
      at := at + 1;
      value := Wrap32(value + Shl(Low(octet, 7), shift));
      shift := shift + 7;
      if octet < 128 {
        return IntOk(value, at);
      }
      if shift > 28 {
        return IntErr;
      }
    }
  }

  lemma GroupSum(rest: nat, shift: nat)
    requires shift in {0, 7, 14, 21}
    ensures Shl(rest % 128, shift) + Shl(rest / 128, shift + 7) == Shl(rest, shift)
  {
    assert rest == rest / 128 * 128 + rest % 128;
  }

  lemma {:induction false} MergedLow(pattern: nat, low: nat, prefix: nat)
    requires 1 <= prefix <= 7
    requires Low(pattern, prefix) == 0 && low <= Mask(prefix)
    ensures Low(pattern + low, prefix) == low
    decreases pattern
  {
    if pattern > Mask(prefix) {
      MergedLow(pattern - Mask(prefix) - 1, low, prefix);
    }
  }

  /** One octet of a continuation, when the sum so far stays below 2^32. */
  lemma ReadOneGroup(data: seq<Byte>, offset: nat, value: nat, shift: nat, group: nat)
    requires shift in {0, 7, 14, 21, 28} && offset < |data| && group < 128
    requires value + Shl(group, shift) < UINT32
    requires data[offset] == group || data[offset] == group + 128
    ensures ReadContinuation(data, offset, value, shift) ==
            if data[offset] < 128 then IntOk(value + Shl(group, shift), offset + 1)
            else if shift == 28 then IntErr
            else ReadContinuation(data, offset + 1, value + Shl(group, shift), shift + 7)
  {
    assert Low(data[offset], 7) == group;
  }

  /** A value of more than seven bits does not fit after four groups. */
  lemma RoomLeft(value: nat, rest: nat, shift: nat)
    requires shift in {0, 7, 14, 21, 28} && value + Shl(rest, shift) < UINT32 && rest >= 128
    ensures shift < 28
  {
  }

  lemma {:induction false} ContinuationRoundTrip(
      data: seq<Byte>, offset: nat, value: nat, rest: nat, shift: nat)
    requires shift in {0, 7, 14, 21, 28}
    requires value + Shl(rest, shift) < UINT32
    requires At(data, offset, Continuation(rest))
    ensures ReadContinuation(data, offset, value, shift)
            == IntOk(value + Shl(rest, shift), offset + |Continuation(rest)|)
    ensures |Continuation(rest)| * 7 <= 35 - shift
    decreases rest
  {
    hide ReadContinuation, Shl;
    assert data[offset] == data[offset..offset + |Continuation(rest)|][0];
    if rest < 128 {
      ReadOneGroup(data, offset, value, shift, rest);
    } else {
      RoomLeft(value, rest, shift);
      GroupSum(rest, shift);
      ReadOneGroup(data, offset, value, shift, rest % 128);
      AtSplit(data, offset, [rest % 128 + 128], Continuation(rest / 128));
      ContinuationRoundTrip(data, offset + 1, value + Shl(rest % 128, shift), rest / 128, shift + 7);
    }
  }

  /** Every 32-bit value survives encoding and decoding, whatever precedes and follows it: the
      reader stops exactly at the end of the encoding and never trips its overflow guard. */
  lemma IntegerRoundTrip(data: seq<Byte>, offset: nat, pattern: Byte, value: nat, prefix: nat)
    requires 1 <= prefix <= 7
    requires Low(pattern, prefix) == 0 && pattern + Mask(prefix) < 256
    requires value < UINT32
    requires At(data, offset, EncodeInt(pattern, value, prefix))
    ensures ReadInt(data, offset, prefix) == IntOk(value, offset + |EncodeInt(pattern, value, prefix)|)
    ensures data[offset] == EncodeInt(pattern, value, prefix)[0]
    ensures |EncodeInt(pattern, value, prefix)| <= 6
  {
    hide Low, Continuation, ReadContinuation, Mask;
    var code := EncodeInt(pattern, value, prefix);
    assert data[offset] == data[offset..offset + |code|][0];
    MergedLow(pattern, Min(value, Mask(prefix)), prefix);
    if value >= Mask(prefix) {
      var rest := value - Mask(prefix);
      AtSplit(data, offset, [pattern + Mask(prefix)], Continuation(rest));
      ContinuationRoundTrip(data, offset + 1, Mask(prefix), rest, 0);
    }
  }
}

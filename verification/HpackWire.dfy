/** Header blocks as RFC 7541 defines them, from any encoder: the octets of each representation, what they
    stand for, and that the codec of http2_hpack.cpp reads and writes exactly that. */
module HpackWire {
  import opened Bytes
  import opened HpackInteger
  import opened Hpack

  // ---- integers (section 5.1 of RFC 7541) ----

  /** Groups of seven bits, the lowest first; all but the last are marked with 128. */
  predicate Marked(s: seq<Byte>) {
    s != [] && s[|s| - 1] < 128 && forall i :: 0 <= i < |s| - 1 ==> s[i] >= 128
  }

  function Sum(s: seq<Byte>): nat {
    if s == [] then 0 else s[0] % 128 + 128 * Sum(s[1..])
  }

  /** An integer whose first octet holds `pattern` above a prefix of that many bits. A full prefix announces groups;
      they need not be as few as possible. */
  predicate Number(octets: seq<Byte>, pattern: nat, prefix: nat)
    requires 1 <= prefix <= 7
  {
    var mask := Pow2(prefix) - 1;
    && octets != [] && pattern <= octets[0] <= pattern + mask
    && (octets[0] == pattern + mask <==> |octets| > 1) && (|octets| > 1 ==> Marked(octets[1..]))
  }

  /** The codec reads up to five groups and keeps 32 bits. */
  predicate Writes(octets: seq<Byte>, pattern: nat, prefix: nat, value: nat)
    requires 1 <= prefix <= 7
  {
    Number(octets, pattern, prefix) && |octets| <= 6 && value == (octets[0] - pattern + Sum(octets[1..])) % UINT32
  }

  lemma MaskIs(prefix: nat)
    requires 1 <= prefix <= 7
    ensures Mask(prefix) == Pow2(prefix) - 1
  {
    assert Pow2(1) == 2 && Pow2(2) == 4 && Pow2(3) == 8;
    assert Pow2(4) == 16 && Pow2(5) == 32;
    assert Pow2(6) == 2 * Pow2(5) && Pow2(7) == 2 * Pow2(6);
  }

  lemma {:induction false} Wrap32Is(value: nat)
    ensures Wrap32(value) == value % UINT32
  {
    if value >= UINT32 {
      Wrap32Is(value - UINT32);
    }
  }

  lemma {:induction false} ContinuationMarked(rest: nat)
    ensures Marked(Continuation(rest)) && Sum(Continuation(rest)) == rest
  {
    var s := Continuation(rest);
    if rest < 128 {
      assert s[1..] == [];
    } else {
      var next := Continuation(rest / 128);
      ContinuationMarked(rest / 128);
      assert s[1..] == next && s[0] % 128 == rest % 128;
      assert forall i :: 0 < i < |s| ==> s[i] == next[i - 1];
      assert Sum(s) == rest % 128 + 128 * (rest / 128);
    }
  }

  lemma ContinuationNext(rest: nat)
    ensures |Continuation(rest)| <= 1 + if rest < 128 then 0 else |Continuation(rest / 128)|
  {
  }

  lemma FiveGroups(rest: nat)
    requires rest < UINT32
    ensures |Continuation(rest)| <= 5
  {
    hide Continuation;
    var a := rest / 128;
    var b := a / 128;
    var c := b / 128;
    var d := c / 128;
    assert a < 0x200_0000 && b < 0x4_0000 && c < 0x800 && d < 16;
    ContinuationNext(rest);
    ContinuationNext(a);
    ContinuationNext(b);
    ContinuationNext(c);
    ContinuationNext(d);
  }

  /** EncodeInteger writes the value it is given, if 32 bits hold it. */
  lemma EncodeWrites(pattern: Byte, value: nat, prefix: nat)
    requires 1 <= prefix <= 7 && pattern + Mask(prefix) < 256 && value < UINT32
    ensures Writes(EncodeInt(pattern, value, prefix), pattern, prefix, value)
  {
    hide Pow2, Continuation, Marked, Mask;
    MaskIs(prefix);
    if value >= Mask(prefix) {
      var rest := value - Mask(prefix);
      ContinuationMarked(rest);
      FiveGroups(rest);
      assert EncodeInt(pattern, value, prefix)[1..] == Continuation(rest);
    }
  }

  /** One octet of the reader's loop. */
  lemma GroupRead(data: seq<Byte>, offset: nat, value: nat, shift: nat)
    requires shift in {0, 7, 14, 21, 28} && offset < |data|
    ensures var sum := (value + Shl(data[offset] % 128, shift)) % UINT32;
            ReadContinuation(data, offset, value, shift)
            == if data[offset] < 128 then IntOk(sum, offset + 1) else if shift == 28 then IntErr
               else ReadContinuation(data, offset + 1, sum, shift + 7)
  {
    hide Shl, Wrap32, ReadContinuation, Low;
    LowIs(data[offset]);
    Wrap32Is(value + Shl(data[offset] % 128, shift));
    ReadTurn(data, offset, value, shift);
  }

  lemma ReadTurn(data: seq<Byte>, offset: nat, value: nat, shift: nat)
    requires shift in {0, 7, 14, 21, 28} && offset < |data|
    ensures var sum := Wrap32(value + Shl(Low(data[offset], 7), shift));
            ReadContinuation(data, offset, value, shift)
            == if data[offset] < 128 then IntOk(sum, offset + 1) else if shift == 28 then IntErr
               else ReadContinuation(data, offset + 1, sum, shift + 7)
  {
    hide Shl, Wrap32, Low;
  }

  lemma LowIs(octet: Byte)
    ensures Low(octet, 7) == octet % 128
  {
  }

  lemma ShlSum(group: nat, high: nat, shift: nat)
    requires shift in {0, 7, 14, 21}
    ensures Shl(group + 128 * high, shift) == Shl(group, shift) + Shl(high, shift + 7)
  {
  }

  lemma ModSum(a: nat, b: nat)
    ensures (a % UINT32 + b) % UINT32 == (a + b) % UINT32
  {
    var q := a / UINT32;
    assert a + b == a % UINT32 + b + q * UINT32;
  }

  lemma {:induction false} GroupsRead(data: seq<Byte>, offset: nat, s: seq<Byte>, value: nat, shift: nat)
    requires shift in {0, 7, 14, 21, 28} && Marked(s) && At(data, offset, s) && 7 * |s| <= 35 - shift
    ensures ReadContinuation(data, offset, value, shift) == IntOk((value + Shl(Sum(s), shift)) % UINT32, offset + |s|)
    decreases |s|
  {
    hide ReadContinuation, Shl;
    assert data[offset] == data[offset..offset + |s|][0];
    GroupRead(data, offset, value, shift);
    var group := s[0] % 128;
    if |s| == 1 {
      assert s[1..] == [];
    } else {
      AtSplit(data, offset, [s[0]], s[1..]);
      assert [s[0]] + s[1..] == s;
      var sum := (value + Shl(group, shift)) % UINT32;
      GroupsRead(data, offset + 1, s[1..], sum, shift + 7);
      ShlSum(group, Sum(s[1..]), shift);
      ModSum(value + Shl(group, shift), Shl(Sum(s[1..]), shift + 7));
    }
  }

  lemma {:induction false} GroupsFound(data: seq<Byte>, offset: nat, value: nat, shift: nat)
    requires shift in {0, 7, 14, 21, 28} && ReadContinuation(data, offset, value, shift).IntOk?
    ensures var next := ReadContinuation(data, offset, value, shift).next;
            Marked(data[offset..next]) && 7 * (next - offset) <= 35 - shift
    decreases |data| - offset
  {
    var next := ReadContinuation(data, offset, value, shift).next;
    if offset < |data| {
      GroupRead(data, offset, value, shift);
      var s := data[offset..next];
      if data[offset] >= 128 {
        var sum := (value + Shl(data[offset] % 128, shift)) % UINT32;
        GroupsFound(data, offset + 1, sum, shift + 7);
        assert s == [data[offset]] + data[offset + 1..next];
      }
    }
  }

  /** ReadDecodedInteger reads such octets wherever they stand. */
  lemma NumberRead(data: seq<Byte>, offset: nat, octets: seq<Byte>, pattern: nat, prefix: nat, value: nat)
    requires 1 <= prefix <= 7 && Writes(octets, pattern, prefix, value) && Low(pattern, prefix) == 0
    requires At(data, offset, octets)
    ensures ReadInt(data, offset, prefix) == IntOk(value, offset + |octets|)
    ensures pattern <= data[offset] <= pattern + Mask(prefix)
  {
    hide Low, ReadContinuation, Mask, Marked;
    MaskIs(prefix);
    var mask := Mask(prefix);
    assert data[offset] == data[offset..offset + |octets|][0];
    MergedLow(pattern, octets[0] - pattern, prefix);
    if |octets| > 1 {
      AtSplit(data, offset, [octets[0]], octets[1..]);
      assert [octets[0]] + octets[1..] == octets;
      GroupsRead(data, offset + 1, octets[1..], mask, 0);
    }
  }

  /** What ReadDecodedInteger has read was written so. */
  lemma NumberFound(data: seq<Byte>, offset: nat, pattern: nat, prefix: nat)
    requires 1 <= prefix <= 7 && offset < |data| && pattern + Low(data[offset], prefix) == data[offset]
    requires ReadInt(data, offset, prefix).IntOk?
    ensures var IntOk(value, next) := ReadInt(data, offset, prefix);
            Writes(data[offset..next], pattern, prefix, value)
  {
    hide Low, ReadContinuation, Mask, Marked;
    MaskIs(prefix);
    var mask := Mask(prefix);
    var next := ReadInt(data, offset, prefix).next;
    var octets := data[offset..next];
    if Low(data[offset], prefix) == mask {
      GroupsFound(data, offset + 1, mask, 0);
      assert octets[1..] == data[offset + 1..next];
      GroupsRead(data, offset + 1, octets[1..], mask, 0);
    }
  }

  // ---- representations (sections 5.2 and 6 of RFC 7541) ----

  /** A string literal with the octets of its length: as it stands, or packed. */
  datatype Literal = Raw(length: seq<Byte>, text: seq<Byte>) | Packed(length: seq<Byte>, packed: seq<Byte>, text: seq<Byte>)

  datatype Name = ByIndex(index: nat) | Spelled(literal: Literal)

  /** `number` are the octets of the index or of the size. */
  datatype Representation =
    | Indexed(number: seq<Byte>, index: nat)
    | Field(number: seq<Byte>, name: Name, value: Literal, store: bool)
    | SizeUpdate(number: seq<Byte>, size: nat)

  function TextOctets(t: Literal): seq<Byte> {
    t.length + if t.Raw? then t.text else t.packed
  }

  function Octets(r: Representation): seq<Byte> {
    match r
    case Indexed(number, _) => number
    case SizeUpdate(number, _) => number
    case Field(number, ByIndex(_), value, _) => number + TextOctets(value)
    case Field(number, Spelled(name), value, _) => number + TextOctets(name) + TextOctets(value)
  }

  function Block(rs: seq<Representation>): seq<Byte> {
    if rs == [] then [] else Octets(rs[0]) + Block(rs[1..])
  }

  /** A string has its length in front, marked 128 if it is packed. */
  predicate GoodText(code: TextCode, t: Literal) {
    match t
    case Raw(length, text) => Writes(length, 0, 7, |text|)
    case Packed(length, packed, text) => Writes(length, 128, 7, |packed|) && code.unpack(packed) == Some(text)
  }

  /** The first octet is 1xxxxxxx for an indexed field, 01xxxxxx and 0000xxxx for a literal one with and without
      indexing, 001xxxxx for a size update. */
  predicate GoodOctets(code: TextCode, r: Representation) {
    match r
    case Indexed(number, index) => Writes(number, 128, 7, index)
    case SizeUpdate(number, size) => Writes(number, 32, 5, size)
    case Field(number, name, value, store) =>
      && GoodText(code, value)
      && (if store then Writes(number, 64, 6, if name.ByIndex? then name.index else 0)
          else Writes(number, 0, 4, if name.ByIndex? then name.index else 0))
      && (name.ByIndex? ==> name.index > 0) && (name.Spelled? ==> GoodText(code, name.literal))
  }

  // ---- what they stand for (sections 2.3 and 4 of RFC 7541) ----

  datatype Table = Table(entries: seq<Entry>, limit: nat)

  /** The size of entries: 32 octets more than name and value together. */
  function Weight(entries: seq<Entry>): nat {
    if entries == [] then 0 else |entries[0].name| + |entries[0].value| + 32 + Weight(entries[1..])
  }

  /** The newest entries that fit, as many as possible. */
  predicate Fitting(kept: seq<Entry>, entries: seq<Entry>, limit: nat) {
    kept <= entries && Weight(kept) <= limit && (|kept| < |entries| ==> Weight(entries[..|kept| + 1]) > limit)
  }

  /** The entry at an index: the static table first, from one on, then the dynamic one, newest first. */
  predicate Addresses(statics: seq<Entry>, entries: seq<Entry>, index: nat, e: Entry) {
    && index > 0
    && if index < |statics| then e == statics[index]
       else index - |statics| < |entries| && e == entries[index - |statics|]
  }

  /** What a representation yields from a table, and the table it leaves. */
  ghost predicate Stands(statics: seq<Entry>, maxTable: nat, t: Table, r: Representation, got: seq<Entry>, u: Table) {
    match r
    case Indexed(_, index) => |got| == 1 && Addresses(statics, t.entries, index, got[0]) && u == t
    case SizeUpdate(_, size) =>
      got == [] && size <= maxTable && u.limit == size && Fitting(u.entries, t.entries, size)
    case Field(_, name, value, store) =>
      && |got| == 1 && got[0].value == value.text
      && (match name
          case ByIndex(index) => exists v :: Addresses(statics, t.entries, index, Entry(got[0].name, v))
          case Spelled(literal) => got[0].name == literal.text)
      && (if store then u.limit == t.limit && Fitting(u.entries, got + t.entries, t.limit) else u == t)
  }

  // ---- the codec agrees ----

  lemma {:induction false} WeightIsTotal(entries: seq<Entry>)
    ensures Weight(entries) == Total(entries)
  {
    if entries != [] {
      WeightIsTotal(entries[1..]);
      PushTotal(entries[0], entries[1..]);
      assert [entries[0]] + entries[1..] == entries;
    }
  }

  /** Eviction keeps as many of the newest entries as fit. */
  lemma {:induction false} EvictedFits(entries: seq<Entry>, limit: nat)
    ensures Fitting(Evicted(entries, limit), entries, limit)
    decreases |entries|
  {
    hide Total;
    WeightIsTotal(entries);
    WeightIsTotal(Evicted(entries, limit));
    if entries != [] && Total(entries) > limit {
      var front := entries[..|entries| - 1];
      EvictedFits(front, limit);
      var kept := Evicted(entries, limit);
      if |kept| < |front| {
        assert front[..|kept| + 1] == entries[..|kept| + 1];
      } else {
        assert entries[..|kept| + 1] == entries;
      }
    }
  }

  lemma {:induction false} WeightPrefix(a: seq<Entry>, b: seq<Entry>)
    requires a <= b
    ensures Weight(a) <= Weight(b)
  {
    hide Total;
    WeightIsTotal(a);
    WeightIsTotal(b);
    PrefixTotal(a, b);
  }

  /** There is only one way to keep as many as fit. */
  lemma FittingUnique(a: seq<Entry>, b: seq<Entry>, entries: seq<Entry>, limit: nat)
    requires Fitting(a, entries, limit) && Fitting(b, entries, limit)
    ensures a == b
  {
    hide Weight;
    assert a == entries[..|a|] && b == entries[..|b|];
    if |a| < |b| {
      assert entries[..|a| + 1] <= b;
      WeightPrefix(entries[..|a| + 1], b);
    } else if |b| < |a| {
      assert entries[..|b| + 1] <= a;
      WeightPrefix(entries[..|b| + 1], a);
    }
  }

  lemma AddFits(c: Codec, e: Entry)
    ensures Fitting(Add(c, e).dynamic, [e] + c.dynamic, c.limit)
  {
    hide Total;
    if e.Size() > c.limit {
      assert ([e] + c.dynamic)[..1] == [e];
      assert Weight([e]) == e.Size() by {
        var one := [e];
        assert one[1..] == [];
      }
    } else {
      EvictedFits([e] + c.dynamic, c.limit);
    }
  }

  lemma LookupIff(c: Codec, index: nat, e: Entry)
    ensures Lookup(c, index) == Some(e) <==> Addresses(c.statics, c.dynamic, index, e)
  {
  }

  lemma Patterns()
    ensures Low(0, 7) == 0 && Low(128, 7) == 0 && Low(32, 5) == 0 && Low(64, 6) == 0 && Low(0, 4) == 0
    ensures Mask(7) == 127 && Mask(5) == 31 && Mask(6) == 63 && Mask(4) == 15
  {
  }

  /** A string is returned as it stands, or unpacked. */
  lemma LiteralRead(code: TextCode, data: seq<Byte>, offset: nat, t: Literal)
    requires GoodText(code, t) && At(data, offset, TextOctets(t))
    ensures ReadText(code, data, offset) == TextOk(t.text, offset + |TextOctets(t)|)
  {
    hide Number, ReadInt, Low, Mask;
    Patterns();
    var rest := if t.Raw? then t.text else t.packed;
    AtSplit(data, offset, t.length, rest);
    NumberRead(data, offset, t.length, if t.Raw? then 0 else 128, 7, |rest|);
  }

  /** The table a codec holds. */
  ghost function TableOf(c: Codec): Table {
    Table(c.dynamic, c.limit)
  }

  /** One representation is read as what it stands for. */
  lemma RepresentationRead(c: Codec, data: seq<Byte>, offset: nat, t: Table, r: Representation, got: seq<Entry>, u: Table)
      returns (d: Codec)
    requires GoodOctets(c.code, r) && TableOf(c) == t && Stands(c.statics, c.maxTable, t, r, got, u)
    requires At(data, offset, Octets(r))
    ensures offset < |data| && TableOf(d) == u
    ensures d == c.(dynamic := d.dynamic, limit := d.limit, pending := d.pending)
    ensures var next := offset + |Octets(r)|;
            ReadField(c, data, offset) == if got == [] then Resized(d, next) else Got(got[0], d, next)
  {
    hide GoodText, Number, ReadInt, ReadLiteral, Fitting, Low, Mask, Addresses;
    Patterns();
    match r
    case Indexed(number, index) =>
      NumberRead(data, offset, number, 128, 7, index);
      LookupIff(c, index, got[0]);
      d := c;
    case SizeUpdate(number, size) =>
      NumberRead(data, offset, number, 32, 5, size);
      EvictedFits(c.dynamic, size);
      FittingUnique(Evicted(c.dynamic, size), u.entries, c.dynamic, size);
      d := Resize(c, size).value;
    case Field(number, name, value, store) =>
      FieldRead(c, data, offset, t, r, got, u);
      if store {
        AddFits(c, got[0]);
        assert got == [got[0]];
        FittingUnique(Add(c, got[0]).dynamic, u.entries, got + t.entries, t.limit);
        d := Add(c, got[0]);
      } else {
        d := c;
      }
  }

  /** The part of a field before its value. */
  function NameOctets(r: Representation): seq<Byte>
    requires r.Field?
  {
    if r.name.Spelled? then r.number + TextOctets(r.name.literal) else r.number
  }

  lemma NameRead(c: Codec, data: seq<Byte>, offset: nat, r: Representation, name: seq<Byte>)
    requires r.Field? && GoodOctets(c.code, r) && At(data, offset, NameOctets(r))
    requires match r.name
             case ByIndex(index) => exists v :: Addresses(c.statics, c.dynamic, index, Entry(name, v))
             case Spelled(literal) => name == literal.text
    ensures var prefix := if r.store then 6 else 4;
            var index := if r.name.ByIndex? then r.name.index else 0;
            && ReadInt(data, offset, prefix) == IntOk(index, offset + |r.number|)
            && offset + |r.number| <= |data| && ReadName(c, data, index, offset + |r.number|) == TextOk(name, offset + |NameOctets(r)|)
    ensures offset < |data| && if r.store then 64 <= data[offset] < 128 else data[offset] < 16
  {
    hide GoodText, Number, ReadInt, Low, Mask, Addresses, ReadText;
    Patterns();
    var index := if r.name.ByIndex? then r.name.index else 0;
    match r.name
    case ByIndex(_) =>
      NumberRead(data, offset, r.number, if r.store then 64 else 0, if r.store then 6 else 4, index);
      var v :| Addresses(c.statics, c.dynamic, index, Entry(name, v));
      LookupIff(c, index, Entry(name, v));
    case Spelled(literal) =>
      AtSplit(data, offset, r.number, TextOctets(literal));
      NumberRead(data, offset, r.number, if r.store then 64 else 0, if r.store then 6 else 4, 0);
      LiteralRead(c.code, data, offset + |r.number|, literal);
  }

  lemma FieldRead(c: Codec, data: seq<Byte>, offset: nat, t: Table, r: Representation, got: seq<Entry>, u: Table)
    requires r.Field? && GoodOctets(c.code, r) && TableOf(c) == t && Stands(c.statics, c.maxTable, t, r, got, u)
    requires At(data, offset, Octets(r))
    ensures offset < |data| && if r.store then 64 <= data[offset] < 128 else data[offset] < 16
    ensures ReadLiteral(c, data, offset, if r.store then 6 else 4) == LiteralOk(got[0], offset + |Octets(r)|)
  {
    hide GoodText, Writes, ReadInt, Fitting, Addresses, ReadText, ReadName, At;
    AtSplit(data, offset, NameOctets(r), TextOctets(r.value));
    NameRead(c, data, offset, r, got[0].name);
    LiteralRead(c.code, data, offset + |NameOctets(r)|, r.value);
  }

  // ---- whole blocks ----

  /** A run of representations through tables `ts`, the i-th yielding `gots[i]`. */
  ghost predicate Chain(statics: seq<Entry>, maxTable: nat, ts: seq<Table>, rs: seq<Representation>, gots: seq<seq<Entry>>) {
    && |ts| == |rs| + 1 && |gots| == |rs|
    && forall i :: 0 <= i < |rs| ==> Stands(statics, maxTable, ts[i], rs[i], gots[i], ts[i + 1])
  }

  predicate AllGood(code: TextCode, rs: seq<Representation>) {
    forall i :: 0 <= i < |rs| ==> GoodOctets(code, rs[i])
  }

  lemma ChainRest(statics: seq<Entry>, maxTable: nat, ts: seq<Table>, rs: seq<Representation>, gots: seq<seq<Entry>>)
    requires Chain(statics, maxTable, ts, rs, gots) && rs != []
    ensures Chain(statics, maxTable, ts[1..], rs[1..], gots[1..])
    ensures ts[1..][0] == ts[1] && Stands(statics, maxTable, ts[0], rs[0], gots[0], ts[1])
  {
    hide Stands;
    var us, qs, hs := ts[1..], rs[1..], gots[1..];
    forall i | 0 <= i < |qs| ensures Stands(statics, maxTable, us[i], qs[i], hs[i], us[i + 1]) {
      assert us[i] == ts[i + 1] && us[i + 1] == ts[i + 2] && qs[i] == rs[i + 1] && hs[i] == gots[i + 1];
    }
  }

  lemma {:induction false} ChainRead(c: Codec, data: seq<Byte>, offset: nat, ts: seq<Table>, rs: seq<Representation>,
                                     gots: seq<seq<Entry>>, before: seq<Entry>, size: nat) returns (d: Codec)
    requires AllGood(c.code, rs) && Chain(c.statics, c.maxTable, ts, rs, gots) && TableOf(c) == ts[0] && size <= c.maxList
    requires At(data, offset, Block(rs)) && |data| == offset + |Block(rs)|
    ensures var out := DecodeFrom(c, data, offset, before, size);
            && (out.ok <==> size + Weight(Flatten(gots)) <= c.maxList)
            && (out.ok ==> out.headers == before + Flatten(gots) && out.codec == d && TableOf(d) == ts[|rs|])
    decreases |rs|
  {
    hide GoodOctets, Stands, ReadField, Weight, At;
    if rs == [] {
      d := c;
      assert before + Flatten(gots) == before;
      assert Weight(Flatten(gots)) == 0 by { NoWeight(); }
    } else {
      var next := offset + |Octets(rs[0])|;
      AtSplit(data, offset, Octets(rs[0]), Block(rs[1..]));
      ChainRest(c.statics, c.maxTable, ts, rs, gots);
      d := RepresentationRead(c, data, offset, ts[0], rs[0], gots[0], ts[1]);
      AtMostOne(c.statics, c.maxTable, ts[0], rs[0], gots[0], ts[1]);
      FirstWeight(gots);
      FirstDecoded(c, data, offset, gots[0], d, next, before, size);
      Assoc(before, gots[0], Flatten(gots[1..]));
      if size + Weight(gots[0]) <= c.maxList {
        d := ChainRead(d, data, next, ts[1..], rs[1..], gots[1..], before + gots[0], size + Weight(gots[0]));
        assert ts[1..][|rs| - 1] == ts[|rs|];
      }
    }
  }

  /** One turn of the loop. */
  lemma FirstDecoded(c: Codec, data: seq<Byte>, offset: nat, got: seq<Entry>, d: Codec, next: nat, before: seq<Entry>, size: nat)
    requires offset < |data| && |got| <= 1 && size <= c.maxList
    requires ReadField(c, data, offset) == if got == [] then Resized(d, next) else Got(got[0], d, next)
    ensures DecodeFrom(c, data, offset, before, size)
            == if size + Weight(got) <= c.maxList then DecodeFrom(d, data, next, before + got, size + Weight(got))
               else Outcome(false, before + got, d)
  {
    hide ReadField, Weight;
    OneWeight(got);
    if got == [] {
      assert before + got == before;
    } else {
      assert got == [got[0]];
    }
  }

  lemma NoWeight()
    ensures Weight([]) == 0
  {
  }

  lemma AtMostOne(statics: seq<Entry>, maxTable: nat, t: Table, r: Representation, got: seq<Entry>, u: Table)
    requires Stands(statics, maxTable, t, r, got, u)
    ensures |got| <= 1 && (got == [] ==> r.SizeUpdate?)
  {
  }

  lemma OneWeight(got: seq<Entry>)
    requires |got| <= 1
    ensures Weight(got) == if got == [] then 0 else got[0].Size()
  {
  }

  lemma {:induction false} WeightAppend(a: seq<Entry>, b: seq<Entry>)
    ensures Weight(a + b) == Weight(a) + Weight(b)
  {
    if a == [] {
      assert a + b == b;
    } else {
      assert (a + b)[1..] == a[1..] + b;
      WeightAppend(a[1..], b);
    }
  }

  lemma FirstWeight(gots: seq<seq<Entry>>)
    requires gots != []
    ensures Weight(Flatten(gots)) == Weight(gots[0]) + Weight(Flatten(gots[1..]))
  {
    WeightAppend(gots[0], Flatten(gots[1..]));
  }

  /** A block of good representations that a codec's table gives a meaning. */
  ghost predicate Reads(c: Codec, data: seq<Byte>, ts: seq<Table>, rs: seq<Representation>, gots: seq<seq<Entry>>) {
    AllGood(c.code, rs) && Chain(c.statics, c.maxTable, ts, rs, gots) && ts[0] == TableOf(c) && Block(rs) == data
  }

  /** Any encoder's block: representations of any kind, each integer and string written in any valid way, are
      decoded to exactly the fields they stand for, and leave the table they describe; refused is only a
      list that exceeds the limit. */
  lemma AnyBlockDecoded(c: Codec, data: seq<Byte>, ts: seq<Table>, rs: seq<Representation>, gots: seq<seq<Entry>>)
    requires Reads(c, data, ts, rs, gots)
    ensures var out := DecodeBlock(c, data);
            && (out.ok <==> Weight(Flatten(gots)) <= c.maxList)
            && (out.ok ==> out.headers == Flatten(gots) && TableOf(out.codec) == ts[|rs|])
  {
    hide AllGood, Weight, DecodeFrom, Block;
    var d := ChainRead(c, data, 0, ts, rs, gots, [], 0);
    assert [] + Flatten(gots) == Flatten(gots);
  }

  // ---- nothing else is decoded ----

  lemma LowOf(octet: Byte)
    ensures octet >= 128 ==> 128 + Low(octet, 7) == octet
    ensures octet < 128 ==> Low(octet, 7) == octet
    ensures 64 <= octet < 128 ==> 64 + Low(octet, 6) == octet
    ensures 32 <= octet < 64 ==> 32 + Low(octet, 5) == octet
    ensures octet < 16 ==> Low(octet, 4) == octet
  {
  }

  lemma LiteralFound(code: TextCode, data: seq<Byte>, offset: nat) returns (t: Literal)
    requires ReadText(code, data, offset).TextOk?
    ensures var TextOk(text, next) := ReadText(code, data, offset);
            GoodText(code, t) && t.text == text && TextOctets(t) == data[offset..next]
  {
    hide Low, ReadInt, Writes;
    LowOf(data[offset]);
    NumberFound(data, offset, if data[offset] < 128 then 0 else 128, 7);
    var IntOk(length, next) := ReadInt(data, offset, 7);
    var rest := data[next..next + length];
    t := if data[offset] < 128 then Raw(data[offset..next], rest)
         else Packed(data[offset..next], rest, code.unpack(rest).value);
    assert data[offset..next] + rest == data[offset..next + length];
  }

  lemma FieldFound(c: Codec, data: seq<Byte>, offset: nat, store: bool) returns (r: Representation)
    requires offset < |data| && if store then 64 <= data[offset] < 128 else data[offset] < 16
    requires ReadLiteral(c, data, offset, if store then 6 else 4).LiteralOk?
    ensures r.Field? && r.store == store && GoodOctets(c.code, r)
    ensures var LiteralOk(e, next) := ReadLiteral(c, data, offset, if store then 6 else 4);
            && Octets(r) == data[offset..next] && e.value == r.value.text
            && Names(c, r.name, e.name)
  {
    hide Low, ReadInt, Writes, ReadText, GoodText, Lookup, TextOctets, Addresses;
    LowOf(data[offset]);
    var prefix := if store then 6 else 4;
    NumberFound(data, offset, if store then 64 else 0, prefix);
    var IntOk(index, next) := ReadInt(data, offset, prefix);
    var TextOk(text, afterName) := ReadName(c, data, index, next);
    var value := LiteralFound(c.code, data, afterName);
    var last := ReadText(c.code, data, afterName).next;
    if index == 0 {
      var name := LiteralFound(c.code, data, next);
      r := Field(data[offset..next], Spelled(name), value, store);
      assert data[offset..next] + data[next..afterName] == data[offset..afterName];
    } else {
      r := Field(data[offset..next], ByIndex(index), value, store);
      var e := Lookup(c, index).value;
      LookupIff(c, index, e);
      assert e == Entry(text, e.value);
      assert Addresses(c.statics, c.dynamic, index, Entry(text, e.value));
    }
    assert data[offset..afterName] + data[afterName..last] == data[offset..last];
  }

  ghost predicate Names(c: Codec, name: Name, text: seq<Byte>) {
    match name
    case ByIndex(index) => exists v :: Addresses(c.statics, c.dynamic, index, Entry(text, v))
    case Spelled(literal) => text == literal.text
  }

  /** What one turn of the decoder yields. */
  ghost function Yield(f: Field): seq<Entry> {
    if f.Got? then [f.header] else []
  }

  /** Every representation that the decoder takes is one of those above and stands for what it takes it for. */
  lemma RepresentationFound(c: Codec, data: seq<Byte>, offset: nat) returns (r: Representation)
    requires offset < |data| && !ReadField(c, data, offset).Bad?
    ensures var f := ReadField(c, data, offset);
            && GoodOctets(c.code, r) && Octets(r) == data[offset..f.next]
            && Stands(c.statics, c.maxTable, TableOf(c), r, Yield(f), TableOf(f.codec))
            && f.codec.maxTable == c.maxTable
  {
    hide Low, ReadInt, Writes, ReadLiteral, Fitting, Lookup, Addresses, GoodText;
    var first := data[offset];
    var f := ReadField(c, data, offset);
    LowOf(first);
    if first >= 128 {
      NumberFound(data, offset, 128, 7);
      r := Indexed(data[offset..f.next], ReadInt(data, offset, 7).value);
      LookupIff(c, r.index, f.header);
    } else if first >= 64 || first < 16 {
      r := FieldFound(c, data, offset, first >= 64);
      AddFits(c, f.header);
    } else {
      NumberFound(data, offset, 32, 5);
      r := SizeUpdate(data[offset..f.next], ReadInt(data, offset, 5).value);
      EvictedFits(c.dynamic, r.size);
    }
  }

  lemma ReadsMore(c: Codec, data: seq<Byte>, r: Representation, got: seq<Entry>, d: Codec, rest: seq<Byte>,
                  ts: seq<Table>, rs: seq<Representation>, gots: seq<seq<Entry>>)
    requires Reads(d, rest, ts, rs, gots) && data == Octets(r) + rest
    requires d.code == c.code && d.statics == c.statics && d.maxTable == c.maxTable && GoodOctets(c.code, r)
    requires Stands(c.statics, c.maxTable, TableOf(c), r, got, TableOf(d))
    ensures Reads(c, data, [TableOf(c)] + ts, [r] + rs, [got] + gots)
  {
    hide Stands, GoodOctets, Octets;
    var us, qs, hs := [TableOf(c)] + ts, [r] + rs, [got] + gots;
    assert qs[1..] == rs;
    forall i | 0 <= i < |qs| ensures Stands(c.statics, c.maxTable, us[i], qs[i], hs[i], us[i + 1]) {
      if i > 0 {
        assert qs[i] == rs[i - 1] && us[i] == ts[i - 1] && us[i + 1] == ts[i] && hs[i] == gots[i - 1];
      }
    }
  }

  lemma {:induction false} ChainFound(c: Codec, data: seq<Byte>, offset: nat, before: seq<Entry>, size: nat)
      returns (ts: seq<Table>, rs: seq<Representation>, gots: seq<seq<Entry>>)
    requires offset <= |data| && DecodeFrom(c, data, offset, before, size).ok
    ensures Reads(c, data[offset..], ts, rs, gots)
    decreases |data| - offset
  {
    hide ReadField, GoodOctets, Stands, Reads, Octets;
    if offset == |data| {
      ts, rs, gots := [TableOf(c)], [], [];
      assert Reads(c, data[offset..], ts, rs, gots) by { NothingRead(c, data[offset..]); }
    } else {
      var f := ReadField(c, data, offset);
      var r := RepresentationFound(c, data, offset);
      assert before + [] == before;
      ts, rs, gots := ChainFound(f.codec, data, f.next, before + Yield(f), size + if f.Got? then f.header.Size() else 0);
      assert data[offset..] == data[offset..f.next] + data[f.next..];
      ReadsMore(c, data[offset..], r, Yield(f), f.codec, data[f.next..], ts, rs, gots);
      ts, rs, gots := [TableOf(c)] + ts, [r] + rs, [Yield(f)] + gots;
    }
  }

  lemma NothingRead(c: Codec, data: seq<Byte>)
    requires data == []
    ensures Reads(c, data, [TableOf(c)], [], [])
  {
  }

  /** The codec decodes a block exactly if it is written in good representations whose list is within the limit. */
  lemma DecodedIff(c: Codec, data: seq<Byte>)
    ensures DecodeBlock(c, data).ok
            <==> exists ts, rs, gots :: Reads(c, data, ts, rs, gots) && Weight(Flatten(gots)) <= c.maxList
  {
    hide DecodeFrom, Reads, Weight;
    if DecodeBlock(c, data).ok {
      var ts, rs, gots := ChainFound(c, data, 0, [], 0);
      assert data[0..] == data;
      AnyBlockDecoded(c, data, ts, rs, gots);
    }
    forall ts, rs, gots | Reads(c, data, ts, rs, gots)
      ensures DecodeBlock(c, data).ok <==> Weight(Flatten(gots)) <= c.maxList
    {
      AnyBlockDecoded(c, data, ts, rs, gots);
    }
  }

  // ---- what the encoder writes ----

  /** `index` is the lowest that addresses a match of `e`. */
  ghost predicate Lowest(c: Codec, e: Entry, byName: bool, index: nat) {
    && Known(c, e, byName, index)
    && forall i: nat :: i < index ==> !Known(c, e, byName, i)
  }

  ghost predicate Known(c: Codec, e: Entry, byName: bool, index: nat) {
    exists v :: Addresses(c.statics, c.dynamic, index, Entry(e.name, v)) && (byName || v == e.value)
  }

  lemma KnownIff(c: Codec, e: Entry, byName: bool, index: nat)
    ensures Known(c, e, byName, index) <==> Lookup(c, index).Some? && Matches(Lookup(c, index).value, e, byName)
  {
    var found := Lookup(c, index);
    if found.Some? {
      LookupIff(c, index, found.value);
      if Matches(found.value, e, byName) {
        assert found.value == Entry(e.name, found.value.value);
      }
    }
    forall v | Addresses(c.statics, c.dynamic, index, Entry(e.name, v)) ensures found == Some(Entry(e.name, v)) {
      LookupIff(c, index, Entry(e.name, v));
    }
  }

  lemma {:induction false} FindLowest(entries: seq<Entry>, e: Entry, byName: bool, from: nat)
    ensures var r := Find(entries, e, byName, from);
            forall i :: from <= i < (if r.Some? then r.value else |entries|) ==> !Matches(entries[i], e, byName)
    decreases |entries| - from
  {
    if from < |entries| {
      FindLowest(entries, e, byName, from + 1);
    }
  }

  /** The encoder finds the lowest index there is. */
  lemma IndexLowest(c: Codec, e: Entry, byName: bool)
    requires |c.statics| > 0
    ensures var r := Index(c, e, byName);
            if r.Some? then Lowest(c, e, byName, r.value) else forall i: nat :: !Known(c, e, byName, i)
  {
    hide Known, Addresses;
    FindLowest(c.statics, e, byName, 1);
    FindLowest(c.dynamic, e, byName, 0);
    forall i: nat ensures Known(c, e, byName, i) <==> Lookup(c, i).Some? && Matches(Lookup(c, i).value, e, byName) {
      KnownIff(c, e, byName, i);
    }
  }

  function LiteralOf(code: TextCode, text: seq<Byte>): Literal {
    Packed(EncodeInt(0x80, Wrap32(|code.pack(text)|), 7), code.pack(text), text)
  }

  lemma TextWritten(code: TextCode, text: seq<Byte>)
    requires SendableText(code, text)
    ensures GoodText(code, LiteralOf(code, text)) && TextOctets(LiteralOf(code, text)) == EncodeText(code, text)
  {
    hide EncodeInt, Writes;
    EncodeWrites(0x80, |code.pack(text)|, 7);
  }

  /** The form the encoder chooses: an index if the field is known, else a stored literal that names a known name by
      its index; always the lowest index. */
  ghost predicate Chosen(c: Codec, e: Entry, r: Representation) {
    match r
    case Indexed(_, index) => Lowest(c, e, false, index)
    case SizeUpdate(_, _) => false
    case Field(_, ByIndex(index), value, store) => store && Lowest(c, e, true, index) && forall i: nat :: !Known(c, e, false, i)
    case Field(_, Spelled(_), value, store) => store && forall i: nat :: !Known(c, e, true, i)
  }

  lemma FieldWritten(enc: Codec, dec: Codec, e: Entry) returns (r: Representation)
    requires InStep(enc, dec) && Sendable(enc.code, e)
    ensures GoodOctets(enc.code, r) && Octets(r) == EncodeField(enc, e).0 && Chosen(enc, e, r)
    ensures Stands(dec.statics, dec.maxTable, TableOf(dec), r, [e], TableOf(After(enc, dec, e)))
  {
    hide EncodeInt, Writes, GoodText, EncodeText, TextOctets, Lowest, Known, Fitting, Addresses, Index, Lookup,
         Synced;
    CodeShared(enc, dec);
    IndexLowest(enc, e, false);
    match Index(enc, e, false)
    case Some(i) =>
      IndexSynced(enc, dec, i);
      EncodeWrites(0x80, i, 7);
      r := Indexed(EncodeInt(0x80, i, 7), i);
      LookupIff(dec, i, e);
    case None =>
      AddFits(dec, e);
      IndexLowest(enc, e, true);
      TextWritten(enc.code, e.name);
      TextWritten(enc.code, e.value);
      var value := LiteralOf(enc.code, e.value);
      match Index(enc, e, true) {
        case Some(i) =>
          IndexSynced(enc, dec, i);
          EncodeWrites(0x40, i, 6);
          r := Field(EncodeInt(0x40, i, 6), ByIndex(i), value, true);
          var found := Lookup(dec, i).value;
          LookupIff(dec, i, found);
          assert found == Entry(e.name, found.value);
          assert Addresses(dec.statics, dec.dynamic, i, Entry(e.name, found.value));
        case None =>
          EncodeWrites(0x40, 0, 6);
          r := Field(EncodeInt(0x40, 0, 6), Spelled(LiteralOf(enc.code, e.name)), value, true);
          SpelledUnknown(enc, e);
      }
  }

  lemma SpelledUnknown(c: Codec, e: Entry)
    requires forall i: nat :: !Known(c, e, true, i)
    ensures forall i: nat :: !Known(c, e, false, i)
  {
    forall i: nat ensures !Known(c, e, false, i) {
      KnownIff(c, e, false, i);
      KnownIff(c, e, true, i);
    }
  }

  /** One representation for each field. */
  predicate Singly(gots: seq<seq<Entry>>, headers: seq<Entry>) {
    |gots| == |headers| && forall i :: 0 <= i < |headers| ==> gots[i] == [headers[i]]
  }

  lemma {:induction false} SinglyFlatten(gots: seq<seq<Entry>>, headers: seq<Entry>)
    requires Singly(gots, headers)
    ensures Flatten(gots) == headers
  {
    if headers != [] {
      SinglyFlatten(gots[1..], headers[1..]);
      assert [headers[0]] + headers[1..] == headers;
    }
  }

  lemma {:induction false} FieldsWritten(enc: Codec, dec: Codec, headers: seq<Entry>)
      returns (ts: seq<Table>, rs: seq<Representation>, gots: seq<seq<Entry>>)
    requires InStep(enc, dec) && AllSendable(enc.code, headers)
    ensures Reads(dec, EncodeFields(enc, headers).0, ts, rs, gots) && Singly(gots, headers)
    decreases |headers|
  {
    hide EncodeField, GoodOctets, Stands, Reads, Octets, Synced, Sendable, Chosen;
    if headers == [] {
      ts, rs, gots := [TableOf(dec)], [], [];
      NothingRead(dec, []);
    } else {
      CodeShared(enc, dec);
      var h := headers[0];
      var r := FieldWritten(enc, dec, h);
      var next := After(enc, dec, h);
      FieldKeepsStep(enc, dec, h);
      ts, rs, gots := FieldsWritten(EncodeField(enc, h).1, next, headers[1..]);
      ReadsMore(dec, EncodeFields(enc, headers).0, r, [h], next, EncodeFields(EncodeField(enc, h).1, headers[1..]).0, ts, rs, gots);
      ts, rs, gots := [TableOf(dec)] + ts, [r] + rs, [[h]] + gots;
    }
  }

  lemma CodeShared(enc: Codec, dec: Codec)
    requires InStep(enc, dec)
    ensures enc.code == dec.code && |enc.statics| > 0 && enc.maxTable == dec.maxTable < UINT32
  {
  }

  /** What the encoder sends is written in good representations that stand, at the peer, for the list it was
      given; a pending size goes first. */
  lemma EncoderWrites(enc: Codec, dec: Codec, headers: seq<Entry>)
      returns (ts: seq<Table>, rs: seq<Representation>, gots: seq<seq<Entry>>)
    requires Synced(enc, dec) && AllSendable(enc.code, headers)
    ensures Reads(dec, EncodeBlock(enc, headers).0, ts, rs, gots) && Flatten(gots) == headers
  {
    hide GoodOctets, Stands, Octets, EncodeFields, Reads, EncodeInt, Synced;
    match enc.pending
    case None =>
      ts, rs, gots := FieldsWritten(enc, dec, headers);
      SinglyFlatten(gots, headers);
    case Some(size) =>
      UpdateSynced(enc, dec, size);
      var settled, d := enc.(pending := None), Updated(enc, dec);
      CodeShared(settled, d);
      ts, rs, gots := FieldsWritten(settled, d, headers);
      SinglyFlatten(gots, headers);
      var r := UpdateWritten(dec, size);
      ReadsMore(dec, EncodeBlock(enc, headers).0, r, [], d, EncodeFields(settled, headers).0, ts, rs, gots);
      ts, rs, gots := [TableOf(dec)] + ts, [r] + rs, [[]] + gots;
      assert gots[0] + headers == headers;
  }

  lemma UpdateWritten(dec: Codec, size: nat) returns (r: Representation)
    requires size <= dec.maxTable < UINT32
    ensures GoodOctets(dec.code, r) && r.SizeUpdate? && Octets(r) == EncodeInt(0x20, Wrap32(size), 5)
    ensures Stands(dec.statics, dec.maxTable, TableOf(dec), r, [], TableOf(Resize(dec, size).value))
  {
    hide EncodeInt, Writes, Fitting;
    EncodeWrites(0x20, size, 5);
    EvictedFits(dec.dynamic, size);
    r := SizeUpdate(EncodeInt(0x20, size, 5), size);
  }
}

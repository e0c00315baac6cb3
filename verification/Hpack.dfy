/** HPACK header compression: the tables of http2_hpack.cpp HpackCodec, its encoder and its decoder,
    and the agreement of the two ends over every run. */
module Hpack {
  import opened Bytes
  import opened HpackInteger

  datatype Entry = Entry(name: seq<Byte>, value: seq<Byte>) {
    function Size(): nat { |name| + |value| + 32 }
  }

  /** How string literals are coded: a packer and its (partial) inverse. */
  datatype TextCode = TextCode(pack: seq<Byte> -> seq<Byte>, unpack: seq<Byte> -> Option<seq<Byte>>)

  /** One codec. `statics[0]` is the unused slot that makes static indices start at one. */
  datatype Codec = Codec(
    code: TextCode, statics: seq<Entry>, dynamic: seq<Entry>, limit: nat, pending: Option<nat>, maxTable: nat, maxList: nat)

  /** A freshly constructed codec. */
  ghost function Fresh(code: TextCode, statics: seq<Entry>, maxTable: nat, maxList: nat): Codec {
    Codec(code, statics, [], maxTable, None, maxTable, maxList)
  }

  // ---- tables ----

  ghost function Total(entries: seq<Entry>): nat {
    if entries == [] then 0
    else Total(entries[..|entries| - 1]) + entries[|entries| - 1].Size()
  }

  /** Drops oldest entries until the rest fits. */
  ghost function Evicted(entries: seq<Entry>, limit: nat): (r: seq<Entry>)
    ensures r <= entries && Total(r) <= limit
  {
    if entries != [] && Total(entries) > limit then Evicted(entries[..|entries| - 1], limit) else entries
  }

  ghost function Add(c: Codec, e: Entry): Codec {
    c.(dynamic := if e.Size() > c.limit then [] else Evicted([e] + c.dynamic, c.limit))
  }

  /** SetDynamicTableSize; a size above the configured maximum is refused and changes nothing. */
  ghost function Resize(c: Codec, size: nat): Option<Codec> {
    if size > c.maxTable then None
    else Some(c.(limit := size, pending := Some(size), dynamic := Evicted(c.dynamic, size)))
  }

  ghost function Lookup(c: Codec, index: nat): Option<Entry> {
    if index == 0 then None
    else if index < |c.statics| then Some(c.statics[index])
    else if index - |c.statics| < |c.dynamic| then Some(c.dynamic[index - |c.statics|])
    else None
  }

  // ---- encoder ----

  /** First position at or after `from` that holds `e` (or, with `byName`, an entry of that name). */
  ghost function Find(entries: seq<Entry>, e: Entry, byName: bool, from: nat): (r: Option<nat>)
    ensures r.Some? ==> from <= r.value < |entries| && Matches(entries[r.value], e, byName)
    decreases |entries| - from
  {
    if from >= |entries| then None
    else if Matches(entries[from], e, byName) then Some(from)
    else Find(entries, e, byName, from + 1)
  }

  ghost predicate Matches(a: Entry, b: Entry, byName: bool) {
    a.name == b.name && (byName || a.value == b.value)
  }

  /** The header table index that stands for `e`: a static entry if there is one, else a dynamic one. */
  ghost function Index(c: Codec, e: Entry, byName: bool): (r: Option<nat>)
    requires |c.statics| > 0
    ensures r.Some? ==> r.value > 0 && Lookup(c, r.value).Some? && Matches(Lookup(c, r.value).value, e, byName)
  {
    match Find(c.statics, e, byName, 1)
    case Some(i) => Some(i)
    case None =>
      match Find(c.dynamic, e, byName, 0)
      case Some(i) => Some(|c.statics| + i)
      case None => None
  }

  ghost function EncodeText(code: TextCode, text: seq<Byte>): (r: seq<Byte>) {
    var packed := code.pack(text);
    EncodeInt(0x80, Wrap32(|packed|), 7) + packed
  }

  ghost function EncodeName(c: Codec, e: Entry): seq<Byte>
    requires |c.statics| > 0
  {
    match Index(c, e, true)
    case Some(i) => EncodeInt(0x40, Wrap32(i), 6)
    case None => EncodeInt(0x40, 0, 6) + EncodeText(c.code, e.name)
  }

  /** One header field: its octets and the codec afterwards. */
  ghost function EncodeField(c: Codec, e: Entry): (r: (seq<Byte>, Codec))
    requires |c.statics| > 0
    ensures r.1.statics == c.statics && r.1.code == c.code
  {
    match Index(c, e, false)
    case Some(i) => (EncodeInt(0x80, Wrap32(i), 7), c)
    case None => (EncodeName(c, e) + EncodeText(c.code, e.value), Add(c, e))
  }

  ghost function EncodeFields(c: Codec, headers: seq<Entry>): (r: (seq<Byte>, Codec))
    requires |c.statics| > 0
    ensures r.1.statics == c.statics && r.1.code == c.code
    decreases |headers|
  {
    if headers == [] then ([], c)
    else
      var (first, next) := EncodeField(c, headers[0]);
      var (rest, last) := EncodeFields(next, headers[1..]);
      (first + rest, last)
  }

  /** HpackCodec::Encode: a pending size update goes first. */
  ghost function EncodeBlock(c: Codec, headers: seq<Entry>): (r: (seq<Byte>, Codec))
    requires |c.statics| > 0
    ensures r.1.statics == c.statics && r.1.code == c.code
  {
    match c.pending
    case None => EncodeFields(c, headers)
    case Some(size) =>
      var (rest, last) := EncodeFields(c.(pending := None), headers);
      (EncodeInt(0x20, Wrap32(size), 5) + rest, last)
  }

  // ---- decoder ----

  datatype TextRead = TextOk(text: seq<Byte>, next: nat) | TextErr

  ghost function ReadText(code: TextCode, data: seq<Byte>, offset: nat): (r: TextRead)
    ensures r.TextOk? ==> offset < r.next <= |data|
  {
    if offset >= |data| then TextErr
    else
      match ReadInt(data, offset, 7)
      case IntErr => TextErr
      case IntOk(length, next) =>
        if next + length > |data| then TextErr
        else
          var raw := data[next..next + length];
          if data[offset] < 0x80 then TextOk(raw, next + length)
          else
            match code.unpack(raw)
            case None => TextErr
            case Some(text) => TextOk(text, next + length)
  }

  ghost function ReadName(c: Codec, data: seq<Byte>, index: nat, offset: nat): (r: TextRead)
    requires offset <= |data|
    ensures r.TextOk? ==> offset <= r.next <= |data|
  {
    if index == 0 then ReadText(c.code, data, offset)
    else
      match Lookup(c, index)
      case None => TextErr
      case Some(e) => TextOk(e.name, offset)
  }

  datatype LiteralRead = LiteralOk(entry: Entry, next: nat) | LiteralErr

  /** A literal field: an indexed or spelled-out name, then the value. */
  ghost function ReadLiteral(c: Codec, data: seq<Byte>, offset: nat, prefix: nat): (r: LiteralRead)
    requires 1 <= prefix <= 7
    ensures r.LiteralOk? ==> offset < r.next <= |data|
  {
    match ReadInt(data, offset, prefix)
    case IntErr => LiteralErr
    case IntOk(index, next) =>
      match ReadName(c, data, index, next)
      case TextErr => LiteralErr
      case TextOk(name, afterName) =>
        match ReadText(c.code, data, afterName)
        case TextErr => LiteralErr
        case TextOk(value, last) => LiteralOk(Entry(name, value), last)
  }

  datatype Field =
    | Got(header: Entry, codec: Codec, next: nat)
    | Resized(codec: Codec, next: nat)
    | Bad

  /** One representation, told apart by the top bits of its first octet (section 6 of RFC 7541);
      the never-indexed pattern 0001 is rejected. */
  ghost function ReadField(c: Codec, data: seq<Byte>, offset: nat): (r: Field)
    requires offset < |data|
    ensures r.Got? || r.Resized? ==> offset < r.next <= |data|
    ensures r.Got? || r.Resized? ==> r.codec.statics == c.statics && r.codec.maxList == c.maxList && r.codec.code == c.code
  {
    var first := data[offset];
    if first >= 0x80 then
      match ReadInt(data, offset, 7)
      case IntErr => Bad
      case IntOk(index, next) =>
        (match Lookup(c, index)
         case None => Bad
         case Some(e) => Got(e, c, next))
    else if first >= 0x40 || first < 0x10 then
      match ReadLiteral(c, data, offset, if first >= 0x40 then 6 else 4)
      case LiteralErr => Bad
      case LiteralOk(e, next) => Got(e, if first >= 0x40 then Add(c, e) else c, next)
    else if first >= 0x20 then
      match ReadInt(data, offset, 5)
      case IntErr => Bad
      case IntOk(size, next) =>
        (match Resize(c, size)
         case None => Bad
         case Some(resized) => Resized(resized, next))
    else Bad
  }

  /** The result of a block: on failure the codec keeps what earlier fields did to it. */
  datatype Outcome = Outcome(ok: bool, headers: seq<Entry>, codec: Codec)

  ghost function DecodeFrom(c: Codec, data: seq<Byte>, offset: nat, headers: seq<Entry>, listSize: nat): (r: Outcome)
    decreases |data| - offset
  {
    if offset >= |data| then Outcome(true, headers, c)
    else
      match ReadField(c, data, offset)
      case Bad => Outcome(false, headers, c)
      case Resized(codec, next) =>
        if listSize > c.maxList then Outcome(false, headers, codec)
        else DecodeFrom(codec, data, next, headers, listSize)
      case Got(header, codec, next) =>
        if listSize + header.Size() > c.maxList then Outcome(false, headers + [header], codec)
        else DecodeFrom(codec, data, next, headers + [header], listSize + header.Size())
  }

  /** HpackCodec::Decode. */
  ghost function DecodeBlock(c: Codec, data: seq<Byte>): Outcome {
    DecodeFrom(c, data, 0, [], 0)
  }

  // ---- agreement of the two ends ----

  /** Header text that the Huffman code carries and whose length fits a 32-bit integer. */
  ghost predicate SendableText(code: TextCode, s: seq<Byte>) {
    code.unpack(code.pack(s)) == Some(s) && |code.pack(s)| < UINT32
  }

  ghost predicate Sendable(code: TextCode, e: Entry) {
    SendableText(code, e.name) && SendableText(code, e.value)
  }

  ghost predicate AllSendable(code: TextCode, headers: seq<Entry>) {
    forall i :: 0 <= i < |headers| ==> Sendable(code, headers[i])
  }

  ghost predicate WithinLimit(c: Codec) {
    Total(c.dynamic) <= c.limit <= c.maxTable < UINT32
  }

  /** The invariant of a run: the encoder's dynamic table is a prefix of the decoder's, the limits
      agree unless an update is pending, and both tables are within their limits. */
  ghost predicate Synced(enc: Codec, dec: Codec) {
    && enc.code == dec.code && enc.statics == dec.statics && 0 < |enc.statics| <= 0x1_0000
    && enc.maxTable == dec.maxTable
    && WithinLimit(enc) && WithinLimit(dec)
    && enc.dynamic <= dec.dynamic
    && match enc.pending
       case None => enc.limit == dec.limit
       case Some(size) => enc.limit == size
  }

  lemma {:induction false} TotalCountsEntries(entries: seq<Entry>)
    ensures 32 * |entries| <= Total(entries)
  {
    if entries != [] {
      TotalCountsEntries(entries[..|entries| - 1]);
    }
  }

  lemma {:induction false} PushTotal(e: Entry, entries: seq<Entry>)
    ensures Total([e] + entries) == e.Size() + Total(entries)
  {
    var all := [e] + entries;
    if entries == [] {
      assert all[..0] == [];
    } else {
      PushTotal(e, entries[..|entries| - 1]);
      assert all[..|all| - 1] == [e] + entries[..|entries| - 1];
    }
  }

  /** Eviction keeps prefixes prefixes. */
  lemma {:induction false} EvictedPrefix(a: seq<Entry>, b: seq<Entry>, limit: nat)
    requires a <= b
    ensures Evicted(a, limit) <= Evicted(b, limit)
    decreases |b|
  {
    if a == b {
    } else if Total(b) > limit {
      assert a <= b[..|b| - 1];
      EvictedPrefix(a, b[..|b| - 1], limit);
    } else {
      assert Evicted(a, limit) <= a <= b;
    }
  }

  lemma {:induction false} PrefixTotal(a: seq<Entry>, b: seq<Entry>)
    requires a <= b
    ensures Total(a) <= Total(b)
    decreases |b|
  {
    if a != b {
      assert a <= b[..|b| - 1];
      PrefixTotal(a, b[..|b| - 1]);
    }
  }

  lemma AddSynced(enc: Codec, dec: Codec, e: Entry)
    requires Synced(enc, dec) && enc.pending.None?
    ensures Synced(Add(enc, e), Add(dec, e))
  {
    if e.Size() <= enc.limit {
      assert [e] + enc.dynamic <= [e] + dec.dynamic;
      EvictedPrefix([e] + enc.dynamic, [e] + dec.dynamic, enc.limit);
    }
  }

  lemma ResizeSynced(enc: Codec, dec: Codec, size: nat)
    requires Synced(enc, dec) && size <= enc.maxTable
    ensures Synced(Resize(enc, size).value, dec)
  {
  }

  /** An index the encoder writes names the same entry at the decoder and fits in 32 bits. */
  lemma IndexSynced(enc: Codec, dec: Codec, index: nat)
    requires Synced(enc, dec) && Lookup(enc, index).Some?
    ensures Lookup(dec, index) == Lookup(enc, index) && 0 < index < UINT32
  {
    TotalCountsEntries(enc.dynamic);
  }

  lemma TextRoundTrip(code: TextCode, data: seq<Byte>, offset: nat, text: seq<Byte>)
    requires SendableText(code, text) && At(data, offset, EncodeText(code, text))
    ensures ReadText(code, data, offset) == TextOk(text, offset + |EncodeText(code, text)|)
  {
    var packed := code.pack(text);
    var length := EncodeInt(0x80, |packed|, 7);
    AtSplit(data, offset, length, packed);
    IntegerRoundTrip(data, offset, 0x80, |packed|, 7);
  }

  /** The name part of a literal is read back by index or by spelling. */
  lemma NameRoundTrip(data: seq<Byte>, offset: nat, enc: Codec, dec: Codec, e: Entry) returns (index: nat, next: nat)
    requires Synced(enc, dec) && Sendable(enc.code, e) && At(data, offset, EncodeName(enc, e))
    ensures ReadInt(data, offset, 6) == IntOk(index, next) && next <= |data|
    ensures ReadName(dec, data, index, next) == TextOk(e.name, offset + |EncodeName(enc, e)|)
    ensures offset < |data| && 0x40 <= data[offset] < 0x80
  {
    match Index(enc, e, true)
    case Some(i) =>
      IndexSynced(enc, dec, i);
      IntegerRoundTrip(data, offset, 0x40, i, 6);
      index, next := i, offset + |EncodeInt(0x40, i, 6)|;
    case None =>
      next := SpelledNameRoundTrip(data, offset, dec, e.name);
      index := 0;
  }

  lemma SpelledNameRoundTrip(data: seq<Byte>, offset: nat, dec: Codec, name: seq<Byte>) returns (next: nat)
    requires SendableText(dec.code, name)
    requires At(data, offset, EncodeInt(0x40, 0, 6) + EncodeText(dec.code, name))
    ensures ReadInt(data, offset, 6) == IntOk(0, next) && next <= |data|
    ensures ReadName(dec, data, 0, next) == TextOk(name, offset + |EncodeInt(0x40, 0, 6) + EncodeText(dec.code, name)|)
    ensures offset < |data| && 0x40 <= data[offset] < 0x80
  {
    var zero := EncodeInt(0x40, 0, 6);
    AtSplit(data, offset, zero, EncodeText(dec.code, name));
    IntegerRoundTrip(data, offset, 0x40, 0, 6);
    next := offset + |zero|;
    TextRoundTrip(dec.code, data, next, name);
  }

  lemma LiteralRoundTrip(data: seq<Byte>, offset: nat, enc: Codec, dec: Codec, e: Entry)
    requires Synced(enc, dec) && Sendable(dec.code, e)
    requires At(data, offset, EncodeName(enc, e) + EncodeText(dec.code, e.value))
    ensures ReadLiteral(dec, data, offset, 6)
            == LiteralOk(e, offset + |EncodeName(enc, e)| + |EncodeText(dec.code, e.value)|)
    ensures offset < |data| && 0x40 <= data[offset] < 0x80
  {
    AtSplit(data, offset, EncodeName(enc, e), EncodeText(dec.code, e.value));
    var index, next := NameRoundTrip(data, offset, enc, dec, e);
    ValueRoundTrip(data, offset, offset + |EncodeName(enc, e)|, dec, index, next, e);
  }

  lemma ValueRoundTrip(data: seq<Byte>, offset: nat, afterName: nat, dec: Codec, index: nat, next: nat, e: Entry)
    requires Sendable(dec.code, e) && At(data, afterName, EncodeText(dec.code, e.value))
    requires ReadInt(data, offset, 6) == IntOk(index, next) && next <= |data|
    requires ReadName(dec, data, index, next) == TextOk(e.name, afterName)
    ensures ReadLiteral(dec, data, offset, 6) == LiteralOk(e, afterName + |EncodeText(dec.code, e.value)|)
  {
    TextRoundTrip(dec.code, data, afterName, e.value);
  }

  /** The two ends agree and no size update is outstanding. */
  ghost predicate InStep(enc: Codec, dec: Codec) {
    Synced(enc, dec) && enc.pending.None?
  }

  lemma IndexedRoundTrip(data: seq<Byte>, offset: nat, enc: Codec, dec: Codec, index: nat)
    requires Synced(enc, dec) && Lookup(enc, index).Some?
    requires At(data, offset, EncodeInt(0x80, Wrap32(index), 7))
    ensures offset < |data|
    ensures ReadField(dec, data, offset)
            == Got(Lookup(enc, index).value, dec, offset + |EncodeInt(0x80, Wrap32(index), 7)|)
  {
    IndexSynced(enc, dec, index);
    IntegerRoundTrip(data, offset, 0x80, index, 7);
  }

  /** The decoder after reading the encoding of `e`. */
  ghost function After(enc: Codec, dec: Codec, e: Entry): Codec
    requires |enc.statics| > 0
  {
    if Index(enc, e, false).Some? then dec else Add(dec, e)
  }

  lemma FieldKeepsStep(enc: Codec, dec: Codec, e: Entry)
    requires InStep(enc, dec)
    ensures InStep(EncodeField(enc, e).1, After(enc, dec, e))
  {
    AddSynced(enc, dec, e);
  }

  /** Reading what the encoder wrote for one field returns that field. */
  lemma FieldRoundTrip(data: seq<Byte>, offset: nat, enc: Codec, dec: Codec, e: Entry)
    requires InStep(enc, dec) && Sendable(dec.code, e)
    requires At(data, offset, EncodeField(enc, e).0)
    ensures offset < |data|
    ensures ReadField(dec, data, offset) == Got(e, After(enc, dec, e), offset + |EncodeField(enc, e).0|)
  {
    match Index(enc, e, false)
    case Some(index) => IndexedRoundTrip(data, offset, enc, dec, index);
    case None => LiteralRoundTrip(data, offset, enc, dec, e);
  }

  // ---- blocks and runs ----

  ghost function ListSize(headers: seq<Entry>): nat {
    if headers == [] then 0 else headers[0].Size() + ListSize(headers[1..])
  }

  lemma DecodeGot(dec: Codec, data: seq<Byte>, offset: nat, e: Entry, step: Codec, next: nat, got: seq<Entry>, listSize: nat)
    requires offset < |data| && ReadField(dec, data, offset) == Got(e, step, next)
    requires listSize + e.Size() <= dec.maxList
    ensures DecodeFrom(dec, data, offset, got, listSize)
            == DecodeFrom(step, data, next, got + [e], listSize + e.Size())
  {
  }

  /** The decoder after reading the encoding of a list. */
  ghost function AfterAll(enc: Codec, dec: Codec, headers: seq<Entry>): (r: Codec)
    requires |enc.statics| > 0
    ensures r.maxList == dec.maxList
    decreases |headers|
  {
    if headers == [] then dec
    else AfterAll(EncodeField(enc, headers[0]).1, After(enc, dec, headers[0]), headers[1..])
  }

  lemma {:induction false} FieldsKeepStep(enc: Codec, dec: Codec, headers: seq<Entry>)
    requires InStep(enc, dec)
    ensures InStep(EncodeFields(enc, headers).1, AfterAll(enc, dec, headers))
    decreases |headers|
  {
    if headers != [] {
      FieldKeepsStep(enc, dec, headers[0]);
      FieldsKeepStep(EncodeField(enc, headers[0]).1, After(enc, dec, headers[0]), headers[1..]);
    }
  }

  lemma FirstFieldRead(
      data: seq<Byte>, offset: nat, enc: Codec, dec: Codec, headers: seq<Entry>, got: seq<Entry>, listSize: nat)
    requires InStep(enc, dec) && headers != [] && Sendable(dec.code, headers[0])
    requires listSize + headers[0].Size() <= dec.maxList
    requires At(data, offset, EncodeFields(enc, headers).0)
    ensures var (first, mid) := EncodeField(enc, headers[0]);
            && At(data, offset + |first|, EncodeFields(mid, headers[1..]).0)
            && DecodeFrom(dec, data, offset, got, listSize)
               == DecodeFrom(After(enc, dec, headers[0]), data, offset + |first|, got + [headers[0]],
                             listSize + headers[0].Size())
  {
    hide ReadField, EncodeField;
    var h := headers[0];
    var first, mid := EncodeField(enc, h).0, EncodeField(enc, h).1;
    AtSplit(data, offset, first, EncodeFields(mid, headers[1..]).0);
    FieldRoundTrip(data, offset, enc, dec, h);
    DecodeGot(dec, data, offset, h, After(enc, dec, h), offset + |first|, got, listSize);
  }

  lemma {:induction false} FieldsRoundTrip(
      data: seq<Byte>, offset: nat, enc: Codec, dec: Codec, headers: seq<Entry>, got: seq<Entry>, listSize: nat)
    requires InStep(enc, dec) && AllSendable(dec.code, headers)
    requires listSize + ListSize(headers) <= dec.maxList
    requires At(data, offset, EncodeFields(enc, headers).0) && |data| == offset + |EncodeFields(enc, headers).0|
    ensures DecodeFrom(dec, data, offset, got, listSize) == Outcome(true, got + headers, AfterAll(enc, dec, headers))
    decreases |headers|
  {
    hide ReadField, EncodeField, At;
    if headers == [] {
      assert got + headers == got;
    } else {
      var h := headers[0];
      var first, mid := EncodeField(enc, h).0, EncodeField(enc, h).1;
      FirstFieldRead(data, offset, enc, dec, headers, got, listSize);
      FieldKeepsStep(enc, dec, h);
      FieldsRoundTrip(data, offset + |first|, mid, After(enc, dec, h), headers[1..], got + [h], listSize + h.Size());
      FirstMoved(got, headers);
    }
  }

  lemma FirstMoved(got: seq<Entry>, headers: seq<Entry>)
    requires headers != []
    ensures got + [headers[0]] + headers[1..] == got + headers
  {
  }

  /** The decoder reaches the encoder's new limit and keeps at least the encoder's entries. */
  lemma UpdateSynced(enc: Codec, dec: Codec, size: nat)
    requires Synced(enc, dec) && enc.pending == Some(size)
    ensures Resize(dec, size).Some? && InStep(enc.(pending := None), Resize(dec, size).value)
  {
    EvictedPrefix(enc.dynamic, dec.dynamic, size);
  }

  lemma UpdateRead(data: seq<Byte>, dec: Codec, size: nat)
    requires size <= dec.maxTable < UINT32 && At(data, 0, EncodeInt(0x20, Wrap32(size), 5))
    ensures DecodeBlock(dec, data)
            == DecodeFrom(Resize(dec, size).value, data, |EncodeInt(0x20, Wrap32(size), 5)|, [], 0)
  {
    IntegerRoundTrip(data, 0, 0x20, size, 5);
  }

  /** The decoder once it has read the size update, if there is one. */
  ghost function Updated(enc: Codec, dec: Codec): Codec
    requires enc.pending.Some? ==> Resize(dec, enc.pending.value).Some?
  {
    match enc.pending
    case None => dec
    case Some(size) => Resize(dec, size).value
  }

  /** One block: the decoder returns the encoded list, and the ends stay in step. */
  lemma BlockSynced(enc: Codec, dec: Codec, headers: seq<Entry>) returns (dec': Codec)
    requires Synced(enc, dec) && AllSendable(enc.code, headers) && ListSize(headers) <= dec.maxList
    ensures DecodeBlock(dec, EncodeBlock(enc, headers).0) == Outcome(true, headers, dec')
    ensures InStep(EncodeBlock(enc, headers).1, dec') && dec'.maxList == dec.maxList
    ensures dec' == AfterAll(enc.(pending := None), Updated(enc, dec), headers)
  {
    assert [] + headers == headers;
    match enc.pending
    case None =>
      FieldsRoundTrip(EncodeFields(enc, headers).0, 0, enc, dec, headers, [], 0);
      FieldsKeepStep(enc, dec, headers);
      dec' := AfterAll(enc, dec, headers);
    case Some(size) =>
      var settled := enc.(pending := None);
      var update, fields := EncodeInt(0x20, Wrap32(size), 5), EncodeFields(settled, headers).0;
      AtSplit(update + fields, 0, update, fields);
      UpdateSynced(enc, dec, size);
      UpdateRead(update + fields, dec, size);
      FieldsRoundTrip(update + fields, |update|, settled, Resize(dec, size).value, headers, [], 0);
      FieldsKeepStep(settled, Resize(dec, size).value, headers);
      dec' := AfterAll(settled, Resize(dec, size).value, headers);
  }

  /** What the owner of an encoder does: change the table size, or send a header list. */
  datatype Op = SetSize(size: nat) | Send(headers: seq<Entry>)

  /** The blocks an encoder emits over a run. A refused size (the source throws) changes nothing. */
  ghost function EncodeRun(enc: Codec, ops: seq<Op>): (r: (seq<seq<Byte>>, Codec))
    requires |enc.statics| > 0
    decreases |ops|
  {
    if ops == [] then ([], enc)
    else
      match ops[0]
      case SetSize(size) =>
        var resized := Resize(enc, size);
        EncodeRun(if resized.Some? then resized.value else enc, ops[1..])
      case Send(headers) =>
        var (code, next) := EncodeBlock(enc, headers);
        var (codes, last) := EncodeRun(next, ops[1..]);
        ([code] + codes, last)
  }

  /** The lists a decoder recovers from consecutive blocks, or None once one block fails. */
  ghost function DecodeRun(dec: Codec, codes: seq<seq<Byte>>): (r: Option<seq<seq<Entry>>>)
    decreases |codes|
  {
    if codes == [] then Some([])
    else
      var first := DecodeBlock(dec, codes[0]);
      var rest := DecodeRun(first.codec, codes[1..]);
      if first.ok && rest.Some? then Some([first.headers] + rest.value) else None
  }

  ghost function Sent(ops: seq<Op>): seq<seq<Entry>> {
    if ops == [] then []
    else (if ops[0].Send? then [ops[0].headers] else []) + Sent(ops[1..])
  }

  ghost predicate Admissible(c: Codec, ops: seq<Op>) {
    forall i :: 0 <= i < |ops| && ops[i].Send? ==> ListSize(ops[i].headers) <= c.maxList && AllSendable(c.code, ops[i].headers)
  }

  lemma {:induction false} RunSynced(enc: Codec, dec: Codec, ops: seq<Op>)
    requires Synced(enc, dec) && Admissible(dec, ops)
    ensures DecodeRun(dec, EncodeRun(enc, ops).0) == Some(Sent(ops))
    decreases |ops|
  {
    if ops != [] {
      match ops[0]
      case SetSize(size) =>
        if size <= enc.maxTable {
          ResizeSynced(enc, dec, size);
        }
        var resized := Resize(enc, size);
        RunSynced(if resized.Some? then resized.value else enc, dec, ops[1..]);
        assert [] + Sent(ops[1..]) == Sent(ops[1..]);
      case Send(headers) =>
        var (code, next) := EncodeBlock(enc, headers);
        var dec' := BlockSynced(enc, dec, headers);
        RunSynced(next, dec', ops[1..]);
        var codes := EncodeRun(next, ops[1..]).0;
        assert ([code] + codes)[1..] == codes;
    }
  }

  /** HPACK synchrony, for any Huffman code: for every interleaving of table size changes and header
      lists, an equally configured decoder reading the blocks in order returns exactly the lists sent. */
  lemma Synchrony(code: TextCode, statics: seq<Entry>, maxTable: nat, maxList: nat, ops: seq<Op>)
    requires 0 < |statics| <= 0x1_0000 && maxTable < UINT32
    requires Admissible(Fresh(code, statics, maxTable, maxList), ops)
    ensures var start := Fresh(code, statics, maxTable, maxList);
            DecodeRun(start, EncodeRun(start, ops).0) == Some(Sent(ops))
  {
    var start := Fresh(code, statics, maxTable, maxList);
    RunSynced(start, start, ops);
  }
}

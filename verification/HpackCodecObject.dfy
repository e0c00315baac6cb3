/** The stateful codec of http2_hpack.cpp: dynamic table, limit and pending update as fields that the
    encoder and the decoder change, tied to the functions of module Hpack. */
module HpackCodecObject {
  import opened Bytes
  import opened HpackInteger
  import opened Hpack
  import Huffman
  import HuffmanTable

  /** String literals as HpackCodec codes them: the Huffman code of HuffmanTable. */
  ghost function Strings(): TextCode {
    TextCode(s => Huffman.Encode(HuffmanTable.Table(), s), d => Huffman.Decode(HuffmanTable.Table(), d))
  }

  /** Header text without octet 220 is sendable, and no other text is. */
  lemma SendableIff(s: seq<Byte>)
    requires |Strings().pack(s)| < UINT32
    ensures SendableText(Strings(), s) <==> 220 !in s
  {
    HuffmanTable.TextSurvivesIff(s);
  }

  /** Header lists of octets other than 220, within the size limit. */
  ghost predicate Ordinary(ops: seq<Op>, maxList: nat) {
    forall i, k :: 0 <= i < |ops| && ops[i].Send? && 0 <= k < |ops[i].headers| ==>
      && ListSize(ops[i].headers) <= maxList
      && OrdinaryText(ops[i].headers[k].name) && OrdinaryText(ops[i].headers[k].value)
  }

  ghost predicate OrdinaryText(s: seq<Byte>) {
    220 !in s && |Strings().pack(s)| < UINT32
  }

  /** HPACK synchrony with the listed Huffman table. */
  lemma TableSynchrony(statics: seq<Entry>, maxTable: nat, maxList: nat, ops: seq<Op>)
    requires 0 < |statics| <= 0x1_0000 && maxTable < UINT32 && Ordinary(ops, maxList)
    ensures var start := Fresh(Strings(), statics, maxTable, maxList);
            DecodeRun(start, EncodeRun(start, ops).0) == Some(Sent(ops))
  {
    hide Strings, DecodeRun, EncodeRun;
    var start := Fresh(Strings(), statics, maxTable, maxList);
    forall i | 0 <= i < |ops| && ops[i].Send?
      ensures ListSize(ops[i].headers) <= maxList && AllSendable(Strings(), ops[i].headers)
    {
      forall k | 0 <= k < |ops[i].headers| ensures Sendable(Strings(), ops[i].headers[k]) {
        SendableIff(ops[i].headers[k].name);
        SendableIff(ops[i].headers[k].value);
      }
    }
    Synchrony(Strings(), statics, maxTable, maxList, ops);
  }

  class HpackCodec {
    const statics: seq<Entry>
    const maxTable: nat
    const maxList: nat
    const nodes: seq<Huffman.Node>
    ghost const paths: seq<seq<bool>>
    var dynamic: seq<Entry>
    var size: nat
    var limit: nat
    var pending: Option<nat>

    /** The stored size is the entry sum and stays within the limit. */
    ghost predicate Valid()
      reads this
    {
      && |statics| > 0
      && size == Total(dynamic) && size <= limit <= maxTable
      && Decoding()
    }

    ghost predicate Decoding() {
      Huffman.TrieOf(nodes, paths, HuffmanTable.Table(), Huffman.EOS + 1)
    }

    ghost function Model(): Codec
      reads this
    {
      Codec(Strings(), statics, dynamic, limit, pending, maxTable, maxList)
    }

    constructor (statics: seq<Entry>, maxTable: nat, maxList: nat)
      requires |statics| > 0
      ensures Valid() && Model() == Fresh(Strings(), statics, maxTable, maxList)
    {
      hide Huffman.TrieOf, HuffmanTable.Table;
      var trie, labels := Huffman.BuildTree(HuffmanTable.Table());
      this.statics, this.maxTable, this.maxList := statics, maxTable, maxList;
      this.nodes, this.paths := trie, labels;
      dynamic, size, limit, pending := [], 0, maxTable, None;
    }

    /** EvictDynamicTable. */
    method Evict()
      requires size == Total(dynamic)
      modifies this`dynamic, this`size
      ensures dynamic == Evicted(old(dynamic), limit) && size == Total(dynamic)
    {
      while size > limit && dynamic != []
        invariant size == Total(dynamic)
        invariant Evicted(dynamic, limit) == Evicted(old(dynamic), limit)
        decreases |dynamic|
      {
        var last := |dynamic| - 1;
        size := size - dynamic[last].Size();
        dynamic := dynamic[..last];
      }
    }

    /** AddDynamicEntry: an entry larger than the limit empties the table instead. */
    method AddEntry(e: Entry)
      requires Valid()
      modifies this`dynamic, this`size
      ensures Valid() && Model() == Add(old(Model()), e)
    {
      hide Huffman.TrieOf, HuffmanTable.Table, Strings;
      if e.Size() > limit {
        dynamic, size := [], 0;
        return;
      }
      PushTotal(e, dynamic);
      dynamic, size := [e] + dynamic, size + e.Size();
      Evict();
    }

    /** SetDynamicTableSize. */
    method SetSize(newSize: nat) returns (ok: bool)
      requires Valid()
      modifies this
      ensures Valid() && ok == (newSize <= maxTable)
      ensures Model() == if ok then Resize(old(Model()), newSize).value else old(Model())
    {
      hide Huffman.TrieOf, HuffmanTable.Table, Strings;
      ok := newSize <= maxTable;
      if ok {
        limit, pending := newSize, Some(newSize);
        Evict();
      }
    }

    method FindEntry(entries: seq<Entry>, e: Entry, byName: bool, from: nat) returns (r: Option<nat>)
      ensures r == Find(entries, e, byName, from)
    {
      var i := from;
      while i < |entries|
        invariant Find(entries, e, byName, from) == Find(entries, e, byName, i)
      {
        if entries[i].name == e.name && (byName || entries[i].value == e.value) {
          return Some(i);
        }
        i := i + 1;
      }
      return None;
    }

    /** The two search loops of Encode: the static table first, then the dynamic one. */
    method IndexOf(e: Entry, byName: bool) returns (r: Option<nat>)
      requires Valid()
      ensures r == Index(Model(), e, byName)
    {
      hide Huffman.TrieOf, HuffmanTable.Table, Strings;
      r := FindEntry(statics, e, byName, 1);
      if r == None {
        r := FindEntry(dynamic, e, byName, 0);
        if r.Some? {
          r := Some(|statics| + r.value);
        }
      }
    }

    /** EncodeString with Huffman coding. */
    method WriteText(output: seq<Byte>, text: seq<Byte>) returns (r: seq<Byte>)
      ensures r == output + EncodeText(Strings(), text)
    {
      hide Huffman.Encode, HuffmanTable.Table, EncodeInt;
      HuffmanTable.TableFits();
      var packed := Huffman.EncodeText(HuffmanTable.Table(), text);
      r := WriteInteger(output + [0x80], Wrap32(|packed|), 7);
      assert (output + [0x80])[..|output|] == output;
      Assoc(output, EncodeInt(0x80, Wrap32(|packed|), 7), packed);
      r := r + packed;
    }

    /** The body of the loop of Encode: one header field. */
    method WriteField(output: seq<Byte>, e: Entry) returns (r: seq<Byte>)
      requires Valid()
      modifies this`dynamic, this`size
      ensures Valid()
      ensures r == output + EncodeField(old(Model()), e).0 && Model() == EncodeField(old(Model()), e).1
    {
      hide Huffman.TrieOf, HuffmanTable.Table, Strings, EncodeInt, EncodeText, Index, Add;
      var index := IndexOf(e, false);
      if index.Some? {
        r := WriteInteger(output + [0x80], Wrap32(index.value), 7);
        assert (output + [0x80])[..|output|] == output;
        return;
      }
      r := WriteName(output, e);
      Assoc(output, EncodeName(Model(), e), EncodeText(Strings(), e.value));
      r := WriteText(r, e.value);
      AddEntry(e);
    }

    method WriteName(output: seq<Byte>, e: Entry) returns (r: seq<Byte>)
      requires Valid()
      ensures r == output + EncodeName(Model(), e)
    {
      hide Huffman.TrieOf, HuffmanTable.Table, Strings, EncodeInt, EncodeText, Index;
      var name := IndexOf(e, true);
      r := WriteInteger(output + [0x40], if name.Some? then Wrap32(name.value) else 0, 6);
      assert (output + [0x40])[..|output|] == output;
      if name == None {
        Assoc(output, EncodeInt(0x40, 0, 6), EncodeText(Strings(), e.name));
        r := WriteText(r, e.name);
      }
    }

    /** HpackCodec::Encode. */
    method Encode(headers: seq<Entry>) returns (output: seq<Byte>)
      requires Valid()
      modifies this
      ensures Valid()
      ensures (output, Model()) == EncodeBlock(old(Model()), headers)
    {
      hide Huffman.TrieOf, HuffmanTable.Table, Strings, EncodeInt, EncodeField;
      output := [];
      if pending.Some? {
        output := WriteInteger([0x20], Wrap32(pending.value), 5);
        pending := None;
      }
      ghost var first, settled := output, Model();
      assert headers[0..] == headers;
      assert first + EncodeFields(settled, headers).0 == EncodeBlock(old(Model()), headers).0;
      for i := 0 to |headers|
        invariant Valid()
        invariant EncodeFields(settled, headers).1 == EncodeFields(Model(), headers[i..]).1
        invariant first + EncodeFields(settled, headers).0 == output + EncodeFields(Model(), headers[i..]).0
      {
        ghost var tail := headers[i..];
        assert tail[0] == headers[i] && tail[1..] == headers[i + 1..];
        ghost var here := EncodeField(Model(), headers[i]);
        Assoc(output, here.0, EncodeFields(here.1, headers[i + 1..]).0);
        output := WriteField(output, headers[i]);
      }
      assert headers[|headers|..] == [] && output + [] == output;
    }

    // ---- decoding ----

    method LookupEntry(index: nat) returns (r: Option<Entry>)
      requires Valid()
      ensures r == Lookup(Model(), index)
    {
      if index == 0 {
        return None;
      }
      if index < |statics| {
        return Some(statics[index]);
      }
      if index - |statics| < |dynamic| {
        return Some(dynamic[index - |statics|]);
      }
      return None;
    }

    /** DecodeString. */
    method ReadString(data: seq<Byte>, offset: nat) returns (r: TextRead)
      requires Valid()
      ensures r == ReadText(Strings(), data, offset)
    {
      hide Huffman.TrieOf, HuffmanTable.Table, ReadInt, Huffman.Decode;
      if offset >= |data| {
        return TextErr;
      }
      var length := ReadInteger(data, offset, 7);
      if length.IntErr? || length.next + length.value > |data| {
        return TextErr;
      }
      var last := length.next + length.value;
      var raw := data[length.next..last];
      if data[offset] < 0x80 {
        return TextOk(raw, last);
      }
      var text := Huffman.DecodeText(nodes, paths, HuffmanTable.Table(), raw);
      return if text.Some? then TextOk(text.value, last) else TextErr;
    }

    method ReadLiteralField(data: seq<Byte>, offset: nat, prefix: nat) returns (r: LiteralRead)
      requires Valid() && 1 <= prefix <= 7
      ensures r == ReadLiteral(Model(), data, offset, prefix)
    {
      hide Huffman.TrieOf, HuffmanTable.Table, ReadInt, ReadText, Lookup, Strings;
      var index := ReadInteger(data, offset, prefix);
      if index.IntErr? {
        return LiteralErr;
      }
      var name: TextRead;
      if index.value > 0 {
        var e := LookupEntry(index.value);
        name := if e.Some? then TextOk(e.value.name, index.next) else TextErr;
      } else {
        name := ReadString(data, index.next);
      }
      if name.TextErr? {
        return LiteralErr;
      }
      var value := ReadString(data, name.next);
      return if value.TextOk? then LiteralOk(Entry(name.text, value.text), value.next) else LiteralErr;
    }

    /** The body of the loop of Decode: one representation. A header is reported, or a table size
        change, or failure; `next` is where reading goes on. */
    method ReadOne(data: seq<Byte>, offset: nat) returns (ok: bool, header: Option<Entry>, next: nat)
      requires Valid() && offset < |data|
      modifies this
      ensures Valid()
      ensures var field := ReadField(old(Model()), data, offset);
              && (ok <==> !field.Bad?)
              && (!ok ==> Model() == old(Model()))
              && (ok ==> Model() == field.codec && next == field.next)
              && (ok ==> header == if field.Got? then Some(field.header) else None)
    {
      hide Huffman.TrieOf, HuffmanTable.Table, Strings, ReadInt, ReadLiteral, Lookup, Add, Resize, Total;
      var first := data[offset];
      ok, header, next := false, None, offset;
      if first >= 0x80 {
        var index := ReadInteger(data, offset, 7);
        if index.IntOk? {
          header := LookupEntry(index.value);
          ok, next := header.Some?, index.next;
        }
      } else if first >= 0x40 || first < 0x10 {
        var literal := ReadLiteralField(data, offset, if first >= 0x40 then 6 else 4);
        if literal.LiteralOk? {
          ok, header, next := true, Some(literal.entry), literal.next;
          if first >= 0x40 {
            AddEntry(literal.entry);
          }
        }
      } else if first >= 0x20 {
        var newSize := ReadInteger(data, offset, 5);
        if newSize.IntOk? {
          ResizeOutcome(Model(), newSize.value);
          ok := SetSize(newSize.value);
          next := newSize.next;
        }
      }
    }

    static lemma ResizeOutcome(c: Codec, newSize: nat)
      ensures Resize(c, newSize).Some? <==> newSize <= c.maxTable
    {
    }

    /** HpackCodec::Decode. */
    method Decode(data: seq<Byte>) returns (ok: bool, headers: seq<Entry>)
      requires Valid()
      modifies this
      ensures Valid()
      ensures Outcome(ok, headers, Model()) == DecodeBlock(old(Model()), data)
    {
      hide Huffman.TrieOf, HuffmanTable.Table, Strings, ReadField, Total;
      headers := [];
      var offset, listSize := 0, 0;
      while offset < |data|
        invariant Valid() && 0 <= offset && listSize >= 0
        invariant DecodeBlock(old(Model()), data) == DecodeFrom(Model(), data, offset, headers, listSize)
        decreases |data| - offset
      {
        var good, header, next := ReadOne(data, offset);
        if !good {
          return false, headers;
        }
        offset := next;
        if header.Some? {
          headers, listSize := headers + [header.value], listSize + header.value.Size();
        }
        if listSize > maxList {
          return false, headers;
        }
      }
      return true, headers;
    }
  }
}

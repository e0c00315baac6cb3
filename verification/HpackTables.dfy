/** When the two ends' dynamic tables are equal, and not only the encoder's a prefix of the decoder's:
    http2_hpack.cpp signals only the last of several table sizes. */
module HpackTables {
  import opened Bytes
  import opened Hpack

  // ---- eviction ----

  /** A prefix that fits survives eviction; one that does not is all that matters to it. */
  lemma {:induction false} EvictedAt(entries: seq<Entry>, k: nat, limit: nat)
    requires k <= |entries|
    ensures Total(entries[..k]) <= limit ==> entries[..k] <= Evicted(entries, limit)
    ensures Total(entries[..k]) > limit ==> Evicted(entries, limit) == Evicted(entries[..k], limit)
    decreases |entries|
  {
    hide Total;
    PrefixTotal(entries[..k], entries);
    if k == |entries| {
      assert entries[..k] == entries;
      if Total(entries) <= limit {
        FitsWhole(entries, limit);
      }
    } else {
      var shorter := entries[..|entries| - 1];
      assert shorter[..k] == entries[..k];
      if Total(entries) > limit {
        EvictedAt(shorter, k, limit);
      }
    }
  }

  lemma FitsWhole(entries: seq<Entry>, limit: nat)
    requires Total(entries) <= limit
    ensures Evicted(entries, limit) == entries
  {
  }

  // ---- one block ----

  /** The sizes of the fields that the encoder adds to its table while it encodes a list. */
  ghost function Added(enc: Codec, headers: seq<Entry>): nat
    requires |enc.statics| > 0
    decreases |headers|
  {
    if headers == [] then 0
    else (if Index(enc, headers[0], false).Some? then 0 else headers[0].Size())
         + Added(EncodeField(enc, headers[0]).1, headers[1..])
  }

  /** The decoder's oldest surplus entry and everything newer would still fit after the block. */
  ghost predicate SurplusFits(enc: Codec, dec: Codec, headers: seq<Entry>)
    requires |enc.statics| > 0 && |enc.dynamic| < |dec.dynamic|
  {
    Added(enc, headers) + Total(dec.dynamic[..|enc.dynamic| + 1]) <= enc.limit
  }

  /** Adding one entry to both ends. */
  lemma AddMeets(enc: Codec, dec: Codec, e: Entry)
    requires enc.limit == dec.limit && enc.dynamic <= dec.dynamic && enc.dynamic != dec.dynamic
    requires Total(enc.dynamic) <= enc.limit
    ensures var reach := e.Size() + Total(dec.dynamic[..|enc.dynamic| + 1]);
            var x, y := Add(enc, e).dynamic, Add(dec, e).dynamic;
            if reach > enc.limit then x == y
            else x != y && x <= y && |x| < |y| && Total(y[..|x| + 1]) == reach
  {
    hide Evicted, Total;
    var n := |enc.dynamic|;
    var a, b := [e] + enc.dynamic, [e] + dec.dynamic;
    var seam := b[..n + 2];
    assert seam == [e] + dec.dynamic[..n + 1];
    PushTotal(e, dec.dynamic[..n + 1]);
    assert b[..n + 1] == a && seam[..n + 1] == a;
    if e.Size() <= enc.limit {
      EvictedAt(b, n + 2, enc.limit);
      if Total(seam) > enc.limit {
        DropLast(seam, enc.limit);
      } else {
        PrefixTotal(a, seam);
        FitsWhole(a, enc.limit);
        assert Evicted(b, enc.limit)[..n + 2] == seam;
      }
    }
  }

  lemma DropLast(entries: seq<Entry>, limit: nat)
    requires Total(entries) > limit && entries != []
    ensures Evicted(entries, limit) == Evicted(entries[..|entries| - 1], limit)
  {
  }

  lemma {:induction false} FieldsMeetIff(enc: Codec, dec: Codec, headers: seq<Entry>)
    requires InStep(enc, dec)
    ensures EncodeFields(enc, headers).1.dynamic == AfterAll(enc, dec, headers).dynamic
            <==> enc.dynamic == dec.dynamic || !SurplusFits(enc, dec, headers)
    decreases |headers|
  {
    hide Total, Index, Add;
    if headers == [] {
      if enc.dynamic != dec.dynamic {
        SurplusNow(enc, dec);
      }
    } else {
      var e := headers[0];
      var next, later := EncodeField(enc, e).1, After(enc, dec, e);
      FieldKeepsStep(enc, dec, e);
      FieldsMeetIff(next, later, headers[1..]);
      AddKeepsLimit(enc, e);
      if enc.dynamic == dec.dynamic {
        AddSame(enc, dec, e);
      } else if Index(enc, e, false).None? {
        AddMeets(enc, dec, e);
      }
    }
  }

  /** Tables that differ while in step leave room for the surplus. */
  lemma SurplusNow(enc: Codec, dec: Codec)
    requires InStep(enc, dec) && enc.dynamic != dec.dynamic
    ensures SurplusFits(enc, dec, [])
  {
    PrefixTotal(dec.dynamic[..|enc.dynamic| + 1], dec.dynamic);
  }

  lemma AddSame(enc: Codec, dec: Codec, e: Entry)
    requires enc.dynamic == dec.dynamic && enc.limit == dec.limit
    ensures Add(enc, e).dynamic == Add(dec, e).dynamic
  {
  }

  lemma AddKeepsLimit(c: Codec, e: Entry)
    ensures Add(c, e).limit == c.limit
  {
  }

  /** The exact condition. After the next block of any synchronised pair the two tables are equal if and
      only if they already were once the size update was read, or the fields the block adds leave no room
      for the decoder's first surplus entry. */
  lemma TablesMeetIff(enc: Codec, dec: Codec, headers: seq<Entry>)
    requires Synced(enc, dec) && AllSendable(enc.code, headers) && ListSize(headers) <= dec.maxList
    ensures enc.pending.Some? ==> Resize(dec, enc.pending.value).Some?
    ensures enc.dynamic <= Updated(enc, dec).dynamic
    ensures var (block, after) := EncodeBlock(enc, headers);
            after.dynamic == DecodeBlock(dec, block).codec.dynamic
            <==> enc.dynamic == Updated(enc, dec).dynamic || !SurplusFits(enc.(pending := None), Updated(enc, dec), headers)
  {
    hide Total, SurplusFits, DecodeBlock, EncodeFields, AfterAll;
    var settled := enc.(pending := None);
    match enc.pending {
      case None =>
      case Some(size) => UpdateSynced(enc, dec, size);
    }
    var dec' := BlockSynced(enc, dec, headers);
    FieldsMeetIff(settled, Updated(enc, dec), headers);
    BlockEnds(enc, headers);
  }

  lemma BlockEnds(enc: Codec, headers: seq<Entry>)
    requires |enc.statics| > 0
    ensures EncodeBlock(enc, headers).1 == EncodeFields(enc.(pending := None), headers).1
  {
    hide EncodeFields;
    assert enc.pending == None ==> enc.(pending := None) == enc;
  }

  // ---- several sizes between two blocks ----

  /** The encoder after several size changes between two blocks. */
  ghost function Resizes(c: Codec, sizes: seq<nat>): Codec
    requires forall i :: 0 <= i < |sizes| ==> sizes[i] <= c.maxTable
    decreases |sizes|
  {
    if sizes == [] then c else Resizes(Resize(c, sizes[0]).value, sizes[1..])
  }

  ghost function Least(sizes: seq<nat>): nat
    requires sizes != []
  {
    if |sizes| == 1 then sizes[0] else Min(sizes[0], Least(sizes[1..]))
  }

  lemma {:induction false} EvictedTwice(entries: seq<Entry>, a: nat, b: nat)
    ensures Evicted(Evicted(entries, a), b) == Evicted(entries, Min(a, b))
  {
    if entries != [] && Total(entries) > a {
      EvictedTwice(entries[..|entries| - 1], a, b);
    } else if entries != [] && Total(entries) > b {
      EvictedTwice(entries[..|entries| - 1], a, b);
      PrefixTotal(entries[..|entries| - 1], entries);
    }
  }

  lemma {:induction false} ResizesEvict(c: Codec, sizes: seq<nat>)
    requires sizes != [] && forall i :: 0 <= i < |sizes| ==> sizes[i] <= c.maxTable
    ensures var r := Resizes(c, sizes);
            && r.dynamic == Evicted(c.dynamic, Least(sizes))
            && r.limit == sizes[|sizes| - 1] && r.pending == Some(r.limit)
    decreases |sizes|
  {
    var first := Resize(c, sizes[0]).value;
    if |sizes| == 1 {
      assert sizes[1..] == [];
    } else {
      ResizesEvict(first, sizes[1..]);
      EvictedTwice(c.dynamic, sizes[0], Least(sizes[1..]));
    }
  }

  lemma {:induction false} LeastBelow(sizes: seq<nat>)
    requires sizes != []
    ensures Least(sizes) <= sizes[|sizes| - 1]
  {
    if |sizes| > 1 {
      LeastBelow(sizes[1..]);
    }
  }

  /** Equal tables, several sizes, one block: what the last size keeps must fit the smallest one too, or
      the block must push the surplus out. */
  lemma TablesAfterSizesIff(enc: Codec, dec: Codec, sizes: seq<nat>, headers: seq<Entry>)
    requires InStep(enc, dec) && enc.dynamic == dec.dynamic
    requires sizes != [] && forall i :: 0 <= i < |sizes| ==> sizes[i] <= enc.maxTable
    requires AllSendable(enc.code, headers) && ListSize(headers) <= dec.maxList
    ensures var resized := Resizes(enc, sizes);
            var last := sizes[|sizes| - 1];
            var kept := Evicted(dec.dynamic, last);
            && resized.statics == enc.statics && Resize(dec, last).Some?
            && (Total(kept) > Least(sizes) ==> |resized.dynamic| < |kept|)
            && var (block, after) := EncodeBlock(resized, headers);
               after.dynamic == DecodeBlock(dec, block).codec.dynamic
               <==> Total(kept) <= Least(sizes)
                    || !SurplusFits(resized.(pending := None), Resize(dec, last).value, headers)
  {
    hide Total, SurplusFits, DecodeBlock, EncodeBlock, Evicted;
    var last, least := sizes[|sizes| - 1], Least(sizes);
    ResizesEvict(enc, sizes);
    ResizesSynced(enc, dec, sizes);
    LeastBelow(sizes);
    var kept := Evicted(dec.dynamic, last);
    EvictedTwice(dec.dynamic, last, least);
    SameIffFits(kept, least);
    TablesMeetIff(Resizes(enc, sizes), dec, headers);
  }

  lemma SameIffFits(entries: seq<Entry>, limit: nat)
    ensures Evicted(entries, limit) == entries <==> Total(entries) <= limit
    ensures Total(entries) > limit ==> |Evicted(entries, limit)| < |entries|
  {
  }

  lemma {:induction false} ResizesSynced(enc: Codec, dec: Codec, sizes: seq<nat>)
    requires Synced(enc, dec) && forall i :: 0 <= i < |sizes| ==> sizes[i] <= enc.maxTable
    ensures Synced(Resizes(enc, sizes), dec) && Resizes(enc, sizes).code == enc.code
    ensures Resizes(enc, sizes).statics == enc.statics && Resizes(enc, sizes).maxTable == enc.maxTable
    decreases |sizes|
  {
    hide Total, Evicted;
    if sizes != [] {
      ResizeSynced(enc, dec, sizes[0]);
      ResizesSynced(Resize(enc, sizes[0]).value, dec, sizes[1..]);
    }
  }

  // ---- a run on which they differ ----

  /** Both ends after a run. */
  ghost function Ends(enc: Codec, dec: Codec, ops: seq<Op>): (Codec, Codec)
    requires |enc.statics| > 0
    decreases |ops|
  {
    if ops == [] then (enc, dec)
    else
      match ops[0]
      case SetSize(size) =>
        var resized := Resize(enc, size);
        Ends(if resized.Some? then resized.value else enc, dec, ops[1..])
      case Send(headers) =>
        var (block, next) := EncodeBlock(enc, headers);
        Ends(next, DecodeBlock(dec, block).codec, ops[1..])
  }

  const FIELD := Entry([97], [98])
  const BLANK_STATICS: seq<Entry> := [Entry([], [])]

  /** Send a field, shrink to nothing, grow back, send again: the encoder's table is empty, the decoder
      still holds the field. */
  lemma TablesMayDiffer(code: TextCode)
    requires Sendable(code, FIELD)
    ensures var start := Fresh(code, BLANK_STATICS, 4096, 4096);
            var ends := Ends(start, start, [Send([FIELD]), SetSize(0), SetSize(4096), Send([])]);
            ends.0.dynamic == [] && ends.1.dynamic == [FIELD]
  {
    hide EncodeBlock, DecodeBlock, Evicted, Total;
    var start := Fresh(code, BLANK_STATICS, 4096, 4096);
    StartSynced(code);
    FieldSize();
    var dec := BlockSynced(start, start, [FIELD]);
    FirstBlock(code);
    var one := EncodeBlock(start, [FIELD]).1;
    var none := Resize(one, 0).value;
    var back := Resize(none, 4096).value;
    assert none.dynamic == [] && back.dynamic == [] by { NothingFits(); }
    ResizeSynced(one, dec, 0);
    ResizeSynced(none, dec, 4096);
    assert Evicted([FIELD], 4096) == [FIELD] by { FitsWhole([FIELD], 4096); }
    var last := BlockSynced(back, dec, []);
    EmptyBlock(back);
    var ops := [Send([FIELD]), SetSize(0), SetSize(4096), Send([])];
    assert ops[1..] == [SetSize(0), SetSize(4096), Send([])] && ops[1..][1..] == [SetSize(4096), Send([])];
    assert ops[1..][1..][1..] == [Send([])] && ops[1..][1..][1..][1..] == [];
    RunSteps(start, start, ops);
    RunSteps(one, dec, ops[1..]);
    RunSteps(none, dec, ops[1..][1..]);
    RunSteps(back, dec, ops[1..][1..][1..]);
    RunSteps(EncodeBlock(back, []).1, last, []);
  }

  /** One step of a run. */
  lemma RunSteps(enc: Codec, dec: Codec, ops: seq<Op>)
    requires |enc.statics| > 0
    ensures ops == [] ==> Ends(enc, dec, ops) == (enc, dec)
    ensures ops != [] && ops[0].SetSize? && Resize(enc, ops[0].size).Some? ==>
              Ends(enc, dec, ops) == Ends(Resize(enc, ops[0].size).value, dec, ops[1..])
    ensures ops != [] && ops[0].Send? ==>
              var (block, next) := EncodeBlock(enc, ops[0].headers);
              Ends(enc, dec, ops) == Ends(next, DecodeBlock(dec, block).codec, ops[1..])
  {
    hide EncodeBlock, DecodeBlock, Resize;
  }

  lemma FieldSize()
    ensures FIELD.Size() == 34 && ListSize([FIELD]) == 34 && Total([FIELD]) == 34 && ListSize([]) == 0
  {
    var one := [FIELD];
    assert one[..0] == [] && one[1..] == [];
  }

  lemma NothingFits()
    ensures Evicted([FIELD], 0) == [] && Evicted([], 4096) == []
  {
    FieldSize();
    var one := [FIELD];
    assert one[..0] == [];
  }

  lemma StartSynced(code: TextCode)
    ensures var start := Fresh(code, BLANK_STATICS, 4096, 4096); Synced(start, start)
  {
  }

  /** The first block adds the field at both ends. */
  lemma FirstBlock(code: TextCode)
    ensures var start := Fresh(code, BLANK_STATICS, 4096, 4096);
            && EncodeBlock(start, [FIELD]).1.dynamic == [FIELD] && EncodeBlock(start, [FIELD]).1.limit == 4096
            && AfterAll(start, start, [FIELD]).dynamic == [FIELD] && AfterAll(start, start, [FIELD]).limit == 4096
  {
    var start := Fresh(code, BLANK_STATICS, 4096, 4096);
    assert Index(start, FIELD, false) == None;
    FieldSize();
    FitsWhole([FIELD], 4096);
    assert [FIELD] + [] == [FIELD];
    var one := [FIELD];
    assert one[1..] == [];
    var after := start.(dynamic := [FIELD]);
    assert Add(start, FIELD) == after && EncodeField(start, FIELD).1 == after;
    assert EncodeFields(after, one[1..]).1 == after;
    assert EncodeFields(start, one).1 == EncodeFields(EncodeField(start, one[0]).1, one[1..]).1;
  }

  lemma EmptyBlock(c: Codec)
    requires |c.statics| > 0
    ensures EncodeBlock(c, []).1 == c.(pending := None)
    ensures AfterAll(c.(pending := None), c, []) == c
  {
  }
}

/** A request on which the parser's result depends on how its octets arrive: the trailer line is longer
    than the header limit. */
module HttpTrailer {
  import opened Bytes
  import opened Text
  import opened HttpText
  import opened HttpParser
  import opened HttpSplit
  import opened HttpFields
  import opened HttpPrint
  import opened HttpRoundTrip

  lemma {:induction false} ScanTooLong(data: seq<Byte>, start: nat, index: nat, line: seq<Byte>, max: nat)
    requires At(data, start, line) && OneLine(line) && |line| > max && start <= index <= start + max
    ensures ScanLine(data, start, index, max) == LineLong
    decreases start + max - index
  {
    assert data[start..start + |line|][index - start] == line[index - start];
    if index < start + max {
      ScanTooLong(data, start, index + 1, line, max);
    }
  }

  /** A chunked request without chunks, then a trailer line. */
  function Trailing(m: Message, trailer: seq<Byte>): seq<Byte> {
    Head(m) + (Hex(0) + EOL) + trailer
  }

  /** A request with a body that does not ask first is read up to its body. */
  lemma BodyReached(o: Options, m: Message, data: seq<Byte>)
    requires AtLine(START, data) && Canonical(m) && WithinLimits(o, m) && At(data, 0, Head(m)) && |m.body| < SIZE_LIMIT / 2
    requires HasBody(m) && !Asks(m)
    ensures AtLine(BeforeBody(m), data) && BeforeBody(m).scan == |Head(m)|
    ensures Whole(o, START, data) == Whole(o, BeforeBody(m), data)
  {
    hide Canonical, WithinLimits, Head, AfterHeaders, Whole, At, HasBody, Asks;
    HeadTaken(o, m, data);
    BlankOutcome(o, m, data);
    HeadersState(m);
    HeadSize(m);
    StepKeeps(o, AfterHeaders(m), data);
    BlankWhole(o, AfterHeaders(m), data);
    BodyAtLine(o, m, data);
  }

  lemma TrailerReached(o: Options, p: Parser, data: seq<Byte>, trailer: seq<Byte>)
    requires AtLine(p, data) && p.phase == ChunkHead && At(data, p.scan, Hex(0) + EOL)
    requires At(data, p.scan + |Hex(0) + EOL|, trailer) && OneLine(trailer) && |trailer| > o.maxHeader
    ensures Whole(o, p, data).2
  {
    hide Hex, MeetsLongTrailer, OneLine, Loop, At;
    ChunkHeadTaken(o, p, data, 0);
    var q := InChunk(p, 0);
    ScanTooLong(data, q.scan, q.scan, trailer, o.maxHeader);
    LongHere(o, q, data);
  }

  /** Every canonical chunked request followed by an over-long trailer line is such an input. */
  lemma LongTrailerMet(o: Options, m: Message, trailer: seq<Byte>)
    requires Canonical(m) && WithinLimits(o, m) && m.framing == InChunks([]) && !Expects(m.headers)
    requires OneLine(trailer) && |trailer| > o.maxHeader && Addressable(Trailing(m, trailer))
    ensures Runs(START, Trailing(m, trailer)) && MeetsLongTrailer(o, START, Trailing(m, trailer))
  {
    hide Canonical, WithinLimits, Head, Hex, MeetsLongTrailer, OneLine, Loop, At, Expects, Trailing, AfterHeaders;
    var data := Trailing(m, trailer);
    TrailingAt(m, trailer);
    EmptyBody(m);
    BodyReached(o, m, data);
    TrailerReached(o, BeforeBody(m), data, trailer);
  }

  lemma EmptyBody(m: Message)
    requires Canonical(m) && m.framing == InChunks([])
    ensures m.body == []
  {
  }

  lemma LongHere(o: Options, p: Parser, data: seq<Byte>)
    requires Runs(p, data) && LongTrailer(o, p, data)
    ensures MeetsLongTrailer(o, p, data)
  {
    hide Step, LongTrailer;
  }

  lemma TrailingAt(m: Message, trailer: seq<Byte>)
    ensures var data := Trailing(m, trailer);
            var size := Hex(0) + EOL;
            At(data, 0, Head(m)) && At(data, |Head(m)|, size) && At(data, |Head(m)| + |size|, trailer)
  {
    hide Head, Hex;
    var size := Hex(0) + EOL;
    PrintedAt(Head(m), size, trailer);
    PrintedAt(Head(m) + size, trailer, []);
    assert Head(m) + size + trailer + [] == Trailing(m, trailer);
  }

  const SMALL := Options(64, 64, 4, 64)
  const TEXT_X: seq<Byte> := Ascii("x")

  /** Method x, target /, host x, in the given chunks. */
  function Sample(chunks: seq<seq<Byte>>): Message {
    Message(TEXT_X, [47], [Header(HOST, TEXT_X)], Flatten(chunks), InChunks(chunks),
            Header(TRANSFER_ENCODING, CHUNKED))
  }

  lemma SampleIsCanonical(chunks: seq<seq<Byte>>)
    requires |Flatten(chunks)| <= 64 && forall i :: 0 <= i < |chunks| ==> chunks[i] != []
    ensures var m := Sample(chunks); Canonical(m) && !Expects(m.headers) && WithinLimits(SMALL, m)
  {
    hide Ascii, IsToken, Lowered, Lists, Core;
    var hs := Sample(chunks).headers;
    SampleWords();
    WordFacts(TEXT_X);
    WordFacts(HOST);
    Words();
    WordFacts(TRANSFER_ENCODING);
    WordFacts(CHUNKED);
    assert hs[..0] == [] && hs[|hs| - 1] == hs[0];
    assert Hosts(hs) == 1;
    NamesApart();
    SampleSizes(chunks);
  }

  lemma SampleWords()
    ensures Word(TEXT_X) && Word(HOST) && |TEXT_X| == 1 && |HOST| == 4
  {
    hide Ascii, Word;
    AsciiWord("x");
    AsciiWord("host");
  }

  lemma SampleSizes(chunks: seq<seq<Byte>>)
    ensures |RequestLineOf(Sample(chunks))| == 12 && |AllHeaders(Sample(chunks))| == 2
    ensures |PrintHeaders(AllHeaders(Sample(chunks)))| == 37
  {
    hide Ascii;
    NamesApart();
    ChunkedSize();
    var all := AllHeaders(Sample(chunks));
    var one, two := HeaderLine(all[0]) + EOL, HeaderLine(all[1]) + EOL;
    assert all[1..] == [all[1]] && all[1..][1..] == [];
    assert PrintHeaders(all) == one + PrintHeaders(all[1..]);
    assert PrintHeaders(all[1..]) == two + PrintHeaders([]);
  }

  lemma ChunkedSize()
    ensures |CHUNKED| == 7 && |VERSION| == 8 && |TEXT_X| == 1
  {
  }

  /** The smallest case: sixty-five octets of trailer where sixty-four are allowed. */
  lemma OutcomeDependsOnTheSplit()
    ensures exists data: seq<Byte>, k: nat ::
              k <= |data| && Addressable(data) && InTwo(SMALL, data, k) != Loop(SMALL, START, data).1
  {
    hide Canonical, WithinLimits, Trailing, Loop, InTwo, MeetsLongTrailer, Expects, Ascii;
    var trailer := seq(65, i => 120 as Byte);
    var data := Trailing(Sample([]), trailer);
    SampleIsCanonical([]);
    SampleIsShort(trailer);
    LongTrailerMet(SMALL, Sample([]), trailer);
    SplitIndependentIff(SMALL, data);
    var k: nat :| 0 <= k <= |data| && InTwo(SMALL, data, k) != Loop(SMALL, START, data).1;
  }

  lemma SampleIsShort(trailer: seq<Byte>)
    requires |trailer| == 65
    ensures Addressable(Trailing(Sample([]), trailer))
  {
    hide RequestLineOf, AllHeaders, PrintHeaders;
    SampleSizes([]);
    assert |Hex(0)| == 1;
  }
}

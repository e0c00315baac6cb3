/** Chunked requests as a client may write them, with any two octets after each chunk and any size. */
module HttpChunkInputs {
  import opened Bytes
  import opened HttpText
  import opened HttpParser
  import opened HttpSplit
  import opened HttpPrint
  import opened HttpRoundTrip
  import opened HttpTrailer
  import opened HttpChunk

  /** Chunks, each followed by two octets of its own. */
  predicate Ended(chunks: seq<seq<Byte>>, ends: seq<seq<Byte>>) {
    |ends| == |chunks| && forall i :: 0 <= i < |chunks| ==> chunks[i] != [] && |ends[i]| == 2
  }

  function OneChunk(chunk: seq<Byte>, end: seq<Byte>): seq<Byte> {
    Hex(|chunk|) + EOL + chunk + end
  }

  function Chunked(chunks: seq<seq<Byte>>, ends: seq<seq<Byte>>): seq<Byte> {
    if chunks == [] || ends == [] then [] else OneChunk(chunks[0], ends[0]) + Chunked(chunks[1..], ends[1..])
  }

  predicate OneChunkAt(data: seq<Byte>, at: nat, chunk: seq<Byte>, end: seq<Byte>) {
    At(data, at, OneChunk(chunk, end))
  }

  lemma OneChunkParts(data: seq<Byte>, at: nat, chunk: seq<Byte>, end: seq<Byte>)
    requires OneChunkAt(data, at, chunk, end) && |end| == 2
    ensures var head := Hex(|chunk|) + EOL;
            && At(data, at, head) && At(data, at + |head|, chunk)
            && |head| == |Hex(|chunk|)| + 2 && at + |head| + |chunk| + 2 <= |data|
            && |OneChunk(chunk, end)| == |head| + |chunk| + 2
  {
    hide Hex;
    var head := Hex(|chunk|) + EOL;
    AtSplit(data, at, head + chunk, end);
    AtSplit(data, at, head, chunk);
  }

  /** Whatever the two octets are, the chunk is read. */
  lemma ChunkPassed(o: Options, p: Parser, data: seq<Byte>, chunk: seq<Byte>, end: seq<Byte>)
    requires AtLine(p, data) && p.phase == ChunkHead && chunk != [] && |end| == 2
    requires OneChunkAt(data, p.scan, chunk, end)
    requires |p.request.body| + |chunk| <= o.maxBody && |p.request.body| < SIZE_LIMIT / 2
    ensures AtLine(WithChunk(p, chunk), data) && Whole(o, p, data) == Whole(o, WithChunk(p, chunk), data)
    ensures WithChunk(p, chunk).scan == p.scan + |OneChunk(chunk, end)|
  {
    hide Hex, Whole, At, Inv, PastChunk, OneChunkAt, OneChunk;
    OneChunkParts(data, p.scan, chunk, end);
    ChunkHeadTaken(o, p, data, |chunk|);
    ChunkBodyTaken(o, InChunk(p, |chunk|), data, chunk);
    PastChunkScan(InChunk(p, |chunk|), chunk);
  }

  lemma PastChunkScan(p: Parser, chunk: seq<Byte>)
    requires p.Parsing?
    ensures PastChunk(p, chunk).scan == p.scan + |chunk| + 2
  {
  }

  lemma {:induction false} ChunksPassed(o: Options, p: Parser, data: seq<Byte>, chunks: seq<seq<Byte>>, ends: seq<seq<Byte>>)
      returns (q: Parser)
    requires AtLine(p, data) && p.phase == ChunkHead && Ended(chunks, ends) && At(data, p.scan, Chunked(chunks, ends))
    requires |p.request.body| + |Flatten(chunks)| <= o.maxBody && |p.request.body| + |Flatten(chunks)| < SIZE_LIMIT / 2
    ensures AtLine(q, data) && q.phase == ChunkHead && q.scan == p.scan + |Chunked(chunks, ends)|
    ensures q.request == p.request.(body := p.request.body + Flatten(chunks))
    ensures Whole(o, p, data) == Whole(o, q, data)
    decreases |chunks|
  {
    hide Hex, Whole, OneChunk;
    if chunks == [] {
      q := p;
      assert p.request.body + [] == p.request.body;
    } else {
      var rest := Chunked(chunks[1..], ends[1..]);
      AtSplit(data, p.scan, OneChunk(chunks[0], ends[0]), rest);
      ChunkPassed(o, p, data, chunks[0], ends[0]);
      q := ChunksPassed(o, WithChunk(p, chunks[0]), data, chunks[1..], ends[1..]);
      Assoc(p.request.body, chunks[0], Flatten(chunks[1..]));
    }
  }

  /** A chunked message with the given octets after its chunks, up to its last chunk. */
  function Opening(m: Message, ends: seq<seq<Byte>>): seq<Byte> {
    Head(m) + Chunked(Chunks(m), ends)
  }

  function Chunks(m: Message): seq<seq<Byte>> {
    match m.framing
    case InChunks(chunks) => chunks
    case _ => []
  }

  /** A canonical chunked message within the limits that does not ask for 100 Continue, and the octets
      after its chunks. */
  ghost predicate Writes(o: Options, m: Message, ends: seq<seq<Byte>>) {
    && Canonical(m) && WithinLimits(o, m) && |m.body| < SIZE_LIMIT / 2 && m.framing.InChunks? && !Expects(m.headers)
    && Ended(Chunks(m), ends)
  }

  lemma OpeningRead(o: Options, m: Message, ends: seq<seq<Byte>>, rest: seq<Byte>) returns (q: Parser)
    requires Writes(o, m, ends) && Addressable(Opening(m, ends) + rest)
    ensures var data := Opening(m, ends) + rest;
            && AtLine(START, data) && AtLine(q, data) && q.phase == ChunkHead && q.scan == |Opening(m, ends)|
            && q.request == Meaning(m) && Whole(o, START, data) == Whole(o, q, data)
  {
    hide Canonical, WithinLimits, Head, Chunked, Whole, Meaning, AfterHeaders, Expects;
    var data := Opening(m, ends) + rest;
    PrintedAt(Head(m), Chunked(Chunks(m), ends), rest);
    assert AtLine(START, data);
    BodyReached(o, m, data);
    BodyIsChunks(o, m);
    RequestRead(m);
    q := ChunksPassed(o, BeforeBody(m), data, Chunks(m), ends);
    assert [] + m.body == m.body;
  }

  lemma BodyIsChunks(o: Options, m: Message)
    requires Canonical(m) && WithinLimits(o, m) && m.framing.InChunks?
    ensures m.body == Flatten(Chunks(m)) && |m.body| <= o.maxBody
  {
  }

  const LAST: seq<Byte> := [48] + EOL + EOL

  /** Not only CRLF: a chunked request is read as it was meant whatever two octets follow each chunk,
      though section 7.1 of RFC 9112 allows CRLF only. */
  lemma AnyEndingAccepted(o: Options, m: Message, ends: seq<seq<Byte>>, rest: seq<Byte>)
    requires Writes(o, m, ends) && Addressable(Opening(m, ends) + (LAST + rest))
    ensures OneShot(o, Opening(m, ends) + (LAST + rest)) == Complete(Meaning(m), |Opening(m, ends)| + 5)
  {
    hide Writes, Opening, Loop, MeetsLongTrailer, Meaning;
    var data := Opening(m, ends) + (LAST + rest);
    var q := OpeningRead(o, m, ends, LAST + rest);
    PrintedAt(Opening(m, ends), LAST, rest);
    assert Opening(m, ends) + LAST + rest == data;
    LastChunkTaken(o, q, data);
  }

  /** The opening, then a size line and whatever follows it. */
  function Sizing(m: Message, ends: seq<seq<Byte>>, n: nat, rest: seq<Byte>): seq<Byte>
  {
    Opening(m, ends) + (Hex(n) + EOL + rest)
  }

  /** Where the chunk after that size line begins. */
  function SizedAt(m: Message, ends: seq<seq<Byte>>, n: nat): nat
  {
    |Opening(m, ends)| + |Hex(n)| + 2
  }

  lemma SizingRead(o: Options, m: Message, ends: seq<seq<Byte>>, n: nat, rest: seq<Byte>) returns (q: Parser)
    requires Writes(o, m, ends) && 0 < n < SIZE_LIMIT && Addressable(Sizing(m, ends, n, rest))
    ensures var data := Sizing(m, ends, n, rest);
            && AtLine(START, data) && AtLine(q, data) && q.phase == ChunkBody && q.chunkSize == n
            && q.chunkBody == SizedAt(m, ends, n) && q.request == Meaning(m) && OneShot(o, data) == Loop(o, q, data).1
  {
    hide Writes, Opening, Loop, MeetsLongTrailer, Hex, Meaning;
    var size := Hex(n) + EOL;
    var data := Opening(m, ends) + (size + rest);
    var p := OpeningRead(o, m, ends, size + rest);
    PrintedAt(Opening(m, ends), size, rest);
    assert Opening(m, ends) + size + rest == data;
    ChunkHeadTaken(o, p, data, n);
    q := InChunk(p, n);
  }

  /** A size line that makes the end of its chunk wrap. The outcome depends only on how many octets follow
      and on the body so far. */
  lemma WrappingSizeOutcome(o: Options, m: Message, ends: seq<seq<Byte>>, n: nat, rest: seq<Byte>)
    requires Writes(o, m, ends) && 0 < n < SIZE_LIMIT && Addressable(Sizing(m, ends, n, rest))
    requires SizedAt(m, ends, n) + n + 2 >= SIZE_LIMIT
    ensures OneShot(o, Sizing(m, ends, n, rest)) ==
            if |Sizing(m, ends, n, rest)| < SizedAt(m, ends, n) + n + 2 - SIZE_LIMIT then Incomplete
            else if Short(|m.body| + n) <= o.maxBody then Threw
            else Error(BodyTooLarge)
  {
    hide Writes, Sizing, SizedAt, Loop, Short, OneShot;
    var q := SizingRead(o, m, ends, n, rest);
    WritesBody(o, m, ends);
    MeaningBody(m);
    WrappedOutcome(o, q, Sizing(m, ends, n, rest));
  }

  lemma WritesBody(o: Options, m: Message, ends: seq<seq<Byte>>)
    requires Writes(o, m, ends)
    ensures |m.body| < SIZE_LIMIT / 2
  {
  }

  lemma MeaningBody(m: Message)
    ensures Meaning(m).body == m.body
  {
    hide AllHeaders, Closes, Find;
  }

  lemma WrappedOutcome(o: Options, p: Parser, data: seq<Byte>)
    requires Runs(p, data) && p.phase == ChunkBody && p.chunkSize < SIZE_LIMIT && |p.request.body| < SIZE_LIMIT / 2
    requires p.chunkBody + p.chunkSize + 2 >= SIZE_LIMIT
    ensures Loop(o, p, data).1 ==
            if |data| < p.chunkBody + p.chunkSize + 2 - SIZE_LIMIT then Incomplete
            else if Short(|p.request.body| + p.chunkSize) <= o.maxBody then Threw
            else Error(BodyTooLarge)
  {
    hide LineStep, HeaderStep, BodyStep, ChunkHeadStep, TrailerStep, Finish, Wrap64;
    WrapOnce(p.chunkBody + p.chunkSize + 2);
    WrapOnce(|p.request.body| + p.chunkSize);
  }

  // ---- concrete inputs ----

  /** The digits of 16^k - 1 are k times f. */
  lemma {:induction false} HexOfOnes(k: nat)
    requires k > 0
    ensures Hex(Pow2(4 * k) - 1) == seq(k, i => 102)
  {
    var n := Pow2(4 * k) - 1;
    assert Pow2(4 * k) == 16 * Pow2(4 * (k - 1)) by {
      assert Pow2(4 * k) == 2 * Pow2(4 * k - 1) == 4 * Pow2(4 * k - 2) == 8 * Pow2(4 * k - 3);
    }
    if k == 1 {
      assert Pow2(0) == 1 && n == 15;
      assert Hex(15) == [102];
    } else {
      HexOfOnes(k - 1);
      assert n == 16 * (Pow2(4 * (k - 1)) - 1) + 15;
      assert n / 16 == Pow2(4 * (k - 1)) - 1 && n % 16 == 15;
      assert seq(k, i => 102) == seq(k - 1, i => 102) + [102];
    }
  }

  /** One chunk of one octet, then the size 2^64 - 1, which is ffffffffffffffff, and one octet. */
  function ThrowingInput(n: nat): seq<Byte> {
    Sizing(Sample([[97]]), [EOL], n, [97])
  }

  /** One chunk of one octet followed by XX, then the last chunk. */
  function SloppyInput(): seq<Byte> {
    Opening(Sample([[97]]), [[88, 88]]) + (LAST + [])
  }

  lemma SampleWrites(end: seq<Byte>)
    requires |end| == 2
    ensures Writes(SMALL, Sample([[97]]), [end]) && Sample([[97]]).body == [97]
  {
    hide Canonical, WithinLimits, Expects, Ascii;
    FlattenSingle([97]);
    SampleIsCanonical([[97]]);
  }

  lemma OpeningSize(end: seq<Byte>)
    requires |end| == 2
    ensures |Opening(Sample([[97]]), [end])| == 59
  {
    hide RequestLineOf, AllHeaders, PrintHeaders, Hex;
    SampleSizes([[97]]);
    assert |Head(Sample([[97]]))| == 53;
    OneChunkSize(end);
  }

  lemma OneChunkSize(end: seq<Byte>)
    requires |end| == 2
    ensures |Chunked([[97]], [end])| == 6
  {
    var chunks: seq<seq<Byte>> := [[97]];
    var ends := [end];
    assert chunks[1..] == [] && ends[1..] == [];
    assert Hex(1) == [49];
    assert Chunked(chunks, ends) == OneChunk([97], end) + Chunked([], []);
  }

  /** An input on which the parser lets an exception out. */
  lemma ParseCanThrow(n: nat)
    requires n == SIZE_LIMIT - 1
    ensures Hex(n) == seq(16, i => 102)
    ensures Addressable(ThrowingInput(n)) && OneShot(SMALL, ThrowingInput(n)) == Threw
  {
    hide Writes, Opening, Loop, Hex, Sample, OneShot;
    SampleWrites(EOL);
    OpeningSize(EOL);
    SizeIsPow2();
    HexOfOnes(16);
    WrappingSizeOutcome(SMALL, Sample([[97]]), [EOL], n, [97]);
  }

  /** And a chunk that ends in XX is accepted. */
  lemma SloppyEndingAccepted()
    ensures Addressable(SloppyInput())
    ensures OneShot(SMALL, SloppyInput()) == Complete(Meaning(Sample([[97]])), |SloppyInput()|)
    ensures Meaning(Sample([[97]])).body == [97]
  {
    hide Writes, Opening, Loop, Sample, Meaning, OneShot;
    SampleWrites([88, 88]);
    OpeningSize([88, 88]);
    MeaningBody(Sample([[97]]));
    AnyEndingAccepted(SMALL, Sample([[97]]), [[88, 88]], []);
  }
}

/** Two things the chunk reader of http_request_parser.cpp does not do: look at the octets after a chunk,
    and keep a huge chunk size from wrapping its sums. */
module HttpChunk {
  import opened Bytes
  import opened Text
  import opened HttpText
  import opened HttpParser
  import opened HttpSplit

  // ---- when a parse throws ----

  /** A sum of two sizes, as `size_t` has it. */
  function Short(sum: nat): nat {
    if sum < SIZE_LIMIT then sum else sum - SIZE_LIMIT
  }

  /** A chunk whose end wraps around to an octet that is there, and whose body length, wrapped or not,
      is within the limit. */
  predicate Wrapping(o: Options, p: Parser, size: nat) {
    && p.Parsing? && p.phase == ChunkBody
    && SIZE_LIMIT <= p.chunkBody + p.chunkSize + 2 <= SIZE_LIMIT + size
    && Short(|p.request.body| + p.chunkSize) <= o.maxBody
  }

  lemma WrapOnce(n: nat)
    requires n < 2 * SIZE_LIMIT
    ensures Wrap64(n) == Short(n)
  {
    if n >= SIZE_LIMIT {
      assert n == SIZE_LIMIT * 1 + (n - SIZE_LIMIT);
    }
  }

  /** What the parser has collected is within the body limit and shorter than what it read for it. */
  predicate Sized(o: Options, p: Parser) {
    p.Parsing? ==>
      |p.request.body| <= o.maxBody && |p.request.body| <= p.scan && p.chunkSize < SIZE_LIMIT
  }

  lemma ChunkBodyThrowsIff(o: Options, p: Parser, input: seq<Byte>)
    requires Inv(p, |input|) && p.Parsing? && Addressable(input) && Sized(o, p) && p.phase == ChunkBody
    ensures var m := ChunkBodyStep(o, p, input);
            && (m.Return? && m.outcome == Threw <==> Wrapping(o, p, |input|))
            && Sized(o, m.next)
  {
    hide Wrap64, Short;
    WrapOnce(p.chunkBody + p.chunkSize + 2);
    WrapOnce(|p.request.body| + p.chunkSize);
    ShortFacts(p.chunkBody + p.chunkSize + 2);
    ShortFacts(|p.request.body| + p.chunkSize);
  }

  lemma ShortFacts(n: nat)
    ensures n < SIZE_LIMIT ==> Short(n) == n
    ensures n >= SIZE_LIMIT ==> Short(n) == n - SIZE_LIMIT
  {
  }

  lemma LinesDoNotThrow(o: Options, p: Parser, input: seq<Byte>)
    requires Inv(p, |input|) && p.Parsing? && Sized(o, p)
    ensures p.phase == RequestLine ==> Sized(o, LineStep(o, p, input).next) && !Thrown(LineStep(o, p, input))
    ensures p.phase == Headers ==> Sized(o, HeaderStep(o, p, input).next) && !Thrown(HeaderStep(o, p, input))
  {
    hide ParseRequestLine, ParseHeaderLine, BlankStep, ScanLine;
    BlankDoesNotThrow(o, input);
  }

  lemma BlankDoesNotThrow(o: Options, input: seq<Byte>)
    ensures forall p: Parser :: p.Parsing? && p.scan <= |input| && Sized(o, p) ==>
              Sized(o, BlankStep(o, p, input).next) && !Thrown(BlankStep(o, p, input))
  {
    hide Finalize;
  }

  lemma ChunkLinesDoNotThrow(o: Options, p: Parser, input: seq<Byte>)
    requires Inv(p, |input|) && p.Parsing? && Sized(o, p)
    ensures p.phase == ChunkHead ==> Sized(o, ChunkHeadStep(p, input).next) && !Thrown(ChunkHeadStep(p, input))
    ensures p.phase == ChunkTrailer ==> Sized(o, TrailerStep(o, p, input).next) && !Thrown(TrailerStep(o, p, input))
  {
    hide ScanLine, Find, HexValue, AllHex;
  }

  predicate Thrown(m: Move) { m.Return? && m.outcome == Threw }

  /** A turn throws exactly at a wrapping chunk. */
  lemma StepThrowsIff(o: Options, p: Parser, input: seq<Byte>)
    requires Inv(p, |input|) && p.Parsing? && Addressable(input) && Sized(o, p)
    ensures Thrown(Step(o, p, input)) <==> Wrapping(o, p, |input|)
    ensures Sized(o, Step(o, p, input).next)
  {
    hide LineStep, HeaderStep, ChunkHeadStep, ChunkBodyStep, TrailerStep;
    match p.phase
    case RequestLine => LinesDoNotThrow(o, p, input);
    case Headers => LinesDoNotThrow(o, p, input);
    case Body =>
    case ChunkHead => ChunkLinesDoNotThrow(o, p, input);
    case ChunkBody => ChunkBodyThrowsIff(o, p, input);
    case ChunkTrailer => ChunkLinesDoNotThrow(o, p, input);
    case ChunkEnd =>
  }

  /** Somewhere on the way a chunk wraps. */
  ghost predicate MeetsWrappingChunk(o: Options, p: Parser, input: seq<Byte>)
    requires Inv(p, |input|) && p.Parsing? && Addressable(input)
    decreases |input| - p.scan, Rank(p)
  {
    StepKeeps(o, p, input);
    Wrapping(o, p, |input|) ||
    match Step(o, p, input)
    case Again(q) => MeetsWrappingChunk(o, q, input)
    case Return(_, _) => false
  }

  lemma {:induction false} LoopThrowsIff(o: Options, p: Parser, input: seq<Byte>)
    requires Inv(p, |input|) && p.Parsing? && Addressable(input) && Sized(o, p)
    ensures Loop(o, p, input).1 == Threw <==> MeetsWrappingChunk(o, p, input)
    decreases |input| - p.scan, Rank(p)
  {
    hide Step, Wrapping, Sized;
    StepKeeps(o, p, input);
    StepThrowsIff(o, p, input);
    match Step(o, p, input)
    case Again(q) => LoopThrowsIff(o, q, input);
    case Return(_, _) =>
  }

  /** What one parse of a whole input decides. */
  ghost function OneShot(o: Options, input: seq<Byte>): Outcome
    requires Addressable(input)
  {
    Loop(o, START, input).1
  }

  /** A parse lets an exception out if and only if it comes to a chunk whose sums wrap. */
  lemma ParseThrowsIff(o: Options, input: seq<Byte>)
    requires Addressable(input)
    ensures OneShot(o, input) == Threw <==> MeetsWrappingChunk(o, START, input)
  {
    LoopThrowsIff(o, START, input);
  }

  /** With a body limit that memory could hold, wrapping is simply this: the body so far and the size
      declared reach 2^64, and the wrapped end of the chunk lies within the input. */
  lemma WrappingIff(o: Options, p: Parser, input: seq<Byte>)
    requires Inv(p, |input|) && p.Parsing? && p.phase == ChunkBody && Addressable(input) && Sized(o, p)
    requires o.maxBody < SIZE_LIMIT / 2 - 2
    ensures Wrapping(o, p, |input|) <==>
            && |p.request.body| + p.chunkSize >= SIZE_LIMIT
            && p.chunkBody + p.chunkSize + 2 - SIZE_LIMIT <= |input|
  {
  }

  // ---- the octets after a chunk ----

  /** A line is read from its own octets. */
  lemma {:induction false} ScanSame(x: seq<Byte>, y: seq<Byte>, k: nat, start: nat, index: nat, max: nat)
    requires |x| == |y| && k <= start <= index <= |x| && x[k..] == y[k..]
    ensures ScanLine(x, start, index, max) == ScanLine(y, start, index, max)
    decreases |x| - index
  {
    if index < |x| {
      assert x[k..][index - k] == x[index] && y[k..][index - k] == y[index];
      if index + 1 < |x| {
        assert x[k..][index + 1 - k] == x[index + 1] && y[k..][index + 1 - k] == y[index + 1];
      }
      ScanSame(x, y, k, start, index + 1, max);
    }
  }

  lemma SliceSame(x: seq<Byte>, y: seq<Byte>, k: nat, i: nat, j: nat)
    requires |x| == |y| && k <= i <= j <= |x| && x[k..] == y[k..]
    ensures x[i..j] == y[i..j]
  {
    forall n | i <= n < j ensures x[n] == y[n] {
      assert x[k..][n - k] == x[n] && y[k..][n - k] == y[n];
    }
  }

  /** Two inputs that agree from k on, for a parser that is past k. */
  predicate AlikeFrom(p: Parser, x: seq<Byte>, y: seq<Byte>, k: nat) {
    && |x| == |y| && k <= |x| && x[k..] == y[k..] && Addressable(x)
    && p.Parsing? && Inv(p, |x|) && k <= p.lineStart
  }

  lemma LineStepSame(o: Options, p: Parser, x: seq<Byte>, y: seq<Byte>, k: nat)
    requires AlikeFrom(p, x, y, k)
    ensures LineStep(o, p, x) == LineStep(o, p, y)
  {
    hide ScanLine, ParseRequestLine;
    ScanSame(x, y, k, p.lineStart, p.scan, o.maxLine);
    match ScanLine(x, p.lineStart, p.scan, o.maxLine)
    case LineEnd(at) => SliceSame(x, y, k, p.lineStart, at);
    case _ =>
  }

  lemma BlankSame(o: Options, p: Parser, x: seq<Byte>, y: seq<Byte>)
    requires p.Parsing? && |x| == |y| && p.scan <= |x|
    ensures BlankStep(o, p, x) == BlankStep(o, p, y)
  {
    hide Finalize;
  }

  lemma HeaderStepSame(o: Options, p: Parser, x: seq<Byte>, y: seq<Byte>, k: nat)
    requires AlikeFrom(p, x, y, k)
    ensures HeaderStep(o, p, x) == HeaderStep(o, p, y)
  {
    hide ScanLine, ParseHeaderLine, BlankStep;
    var room := if p.headerBytes >= o.maxHeader then 0 else o.maxHeader - p.headerBytes;
    ScanSame(x, y, k, p.lineStart, p.scan, room);
    match ScanLine(x, p.lineStart, p.scan, room)
    case LineEnd(at) =>
      SliceSame(x, y, k, p.lineStart, at);
      var q := After(p, at);
      BlankSame(o, q.(headerBytes := p.headerBytes + (at - p.lineStart) + 2), x, y);
    case _ =>
  }

  lemma ChunkStepsSame(o: Options, p: Parser, x: seq<Byte>, y: seq<Byte>, k: nat)
    requires AlikeFrom(p, x, y, k)
    ensures ChunkHeadStep(p, x) == ChunkHeadStep(p, y) && TrailerStep(o, p, x) == TrailerStep(o, p, y)
    ensures p.phase == ChunkBody ==> ChunkBodyStep(o, p, x) == ChunkBodyStep(o, p, y)
    ensures p.phase == Body ==> BodyStep(p, x) == BodyStep(p, y)
  {
    hide ScanLine, ParseHex, Find;
    ScanSame(x, y, k, p.lineStart, p.scan, 256);
    ScanSame(x, y, k, p.lineStart, p.scan, o.maxHeader);
    match ScanLine(x, p.lineStart, p.scan, 256) {
      case LineEnd(at) => SliceSame(x, y, k, p.lineStart, at);
      case _ =>
    }
    if p.phase == ChunkBody && p.chunkSize <= |x| - p.chunkBody {
      SliceSame(x, y, k, p.chunkBody, p.chunkBody + p.chunkSize);
    }
    if p.phase == Body && p.bodyOffset + p.contentLength <= |x| {
      SliceSame(x, y, k, p.bodyOffset, p.bodyOffset + p.contentLength);
    }
  }

  lemma StepSame(o: Options, p: Parser, x: seq<Byte>, y: seq<Byte>, k: nat)
    requires AlikeFrom(p, x, y, k)
    ensures Step(o, p, x) == Step(o, p, y)
  {
    hide LineStep, HeaderStep, BodyStep, ChunkHeadStep, ChunkBodyStep, TrailerStep;
    match p.phase
    case RequestLine => LineStepSame(o, p, x, y, k);
    case Headers => HeaderStepSame(o, p, x, y, k);
    case ChunkEnd =>
    case _ => ChunkStepsSame(o, p, x, y, k);
  }

  /** Going round again never goes back. */
  lemma LineStartGrows(o: Options, p: Parser, input: seq<Byte>)
    requires Inv(p, |input|) && p.Parsing? && Addressable(input)
    ensures var m := Step(o, p, input); m.Again? ==> m.next.Parsing? && p.lineStart <= m.next.lineStart
  {
    hide ScanLine, ParseRequestLine, ParseHeaderLine, ParseHex, Find, Finalize;
  }

  /** A parser past k does not see the octets before k. */
  lemma {:induction false} LoopSame(o: Options, p: Parser, x: seq<Byte>, y: seq<Byte>, k: nat)
    requires AlikeFrom(p, x, y, k)
    ensures Loop(o, p, x) == Loop(o, p, y)
    decreases |x| - p.scan, Rank(p)
  {
    hide Step;
    StepSame(o, p, x, y, k);
    StepKeeps(o, p, x);
    LineStartGrows(o, p, x);
    match Step(o, p, x)
    case Again(q) => LoopSame(o, q, x, y, k);
    case Return(_, _) =>
  }

  /** The parser is about to copy a chunk that is all there, and the inputs differ at most in the two
      octets after it. */
  predicate DifferAfterChunk(p: Parser, x: seq<Byte>, y: seq<Byte>) {
    && |x| == |y| && Addressable(x) && p.Parsing? && Inv(p, |x|) && p.phase == ChunkBody
    && p.chunkBody + p.chunkSize + 2 <= |x|
    && var end := p.chunkBody + p.chunkSize; x[..end] == y[..end] && x[end + 2..] == y[end + 2..]
  }

  lemma ChunkCopied(o: Options, p: Parser, x: seq<Byte>, y: seq<Byte>)
    requires DifferAfterChunk(p, x, y)
    ensures Step(o, p, x) == Step(o, p, y)
    ensures Step(o, p, x).Again? ==> Step(o, p, x).next.Parsing? && Step(o, p, x).next.lineStart == p.chunkBody + p.chunkSize + 2
  {
    var end := p.chunkBody + p.chunkSize;
    assert x[p.chunkBody..end] == x[..end][p.chunkBody..];
    assert y[p.chunkBody..end] == y[..end][p.chunkBody..];
    assert Wrap64(end + 2) == end + 2;
  }

  /** From there on they are parsed alike. */
  lemma ChunkEndIgnored(o: Options, p: Parser, x: seq<Byte>, y: seq<Byte>)
    requires DifferAfterChunk(p, x, y)
    ensures Loop(o, p, x) == Loop(o, p, y)
  {
    hide Step;
    ChunkCopied(o, p, x, y);
    StepKeeps(o, p, x);
    match Step(o, p, x)
    case Again(q) => LoopSame(o, q, x, y, p.chunkBody + p.chunkSize + 2);
    case Return(_, _) =>
  }

  /** A parse from `s` comes to `p`. */
  ghost predicate Reaches(o: Options, s: Parser, input: seq<Byte>, p: Parser)
    requires Inv(s, |input|) && s.Parsing? && Addressable(input)
    decreases |input| - s.scan, Rank(s)
  {
    StepKeeps(o, s, input);
    s == p ||
    match Step(o, s, input)
    case Again(q) => Reaches(o, q, input, p)
    case Return(_, _) => false
  }

  lemma {:induction false} ReachesAhead(o: Options, s: Parser, input: seq<Byte>, p: Parser)
    requires Inv(s, |input|) && s.Parsing? && Addressable(input) && Reaches(o, s, input, p)
    ensures p.Parsing? && s.scan <= p.scan
    decreases |input| - s.scan, Rank(s)
  {
    hide Step;
    StepKeeps(o, s, input);
    if s != p {
      ReachesAhead(o, Step(o, s, input).next, input, p);
    }
  }

  lemma LongTrailerEnds(o: Options, s: Parser, input: seq<Byte>, p: Parser)
    requires Inv(s, |input|) && s.Parsing? && Addressable(input) && LongTrailer(o, s, input) && s != p && p.Parsing?
    ensures Reaches(o, s, input, p) ==> p.phase == ChunkEnd
  {
    hide ScanLine;
    var q := s.(phase := ChunkEnd);
    assert Step(o, s, input) == Again(q);
    assert Step(o, q, input) == Return(START, Complete(q.request, q.scan));
    if Reaches(o, s, input, p) {
      StepKeeps(o, s, input);
      assert Reaches(o, q, input, p);
      assert q == p;
    }
  }

  /** The two octets after a chunk never matter: whatever a parse makes of an input that brings it to a
      chunk, it makes of the input with any other two octets there, consumed count included. */
  lemma {:induction false} ChunkEndNeverMatters(o: Options, s: Parser, x: seq<Byte>, y: seq<Byte>, p: Parser)
    requires DifferAfterChunk(p, x, y) && Inv(s, |x|) && s.Parsing? && Reaches(o, s, x, p)
    ensures Loop(o, s, x) == Loop(o, s, y)
    decreases |x| - s.scan, Rank(s)
  {
    hide Step, LongTrailer;
    StepKeeps(o, s, x);
    if s == p {
      ChunkEndIgnored(o, p, x, y);
    } else {
      var q := Step(o, s, x).next;
      ReachesAhead(o, s, x, p);
      ReachesAhead(o, q, x, p);
      if LongTrailer(o, s, x) {
        LongTrailerEnds(o, s, x, p);
      }
      SameBefore(p, x, y);
      StepLocal(o, s, x[..p.scan], x[p.scan..]);
      StepStable(o, s, y[..p.scan], y[p.scan..]);
      ChunkEndNeverMatters(o, q, x, y, p);
    }
  }

  lemma SameBefore(p: Parser, x: seq<Byte>, y: seq<Byte>)
    requires DifferAfterChunk(p, x, y)
    ensures x[..p.scan] == y[..p.scan] && x[..p.scan] + x[p.scan..] == x && y[..p.scan] + y[p.scan..] == y
  {
    var end := p.chunkBody + p.chunkSize;
    assert x[..p.scan] == x[..end][..p.scan] && y[..p.scan] == y[..end][..p.scan];
  }
}

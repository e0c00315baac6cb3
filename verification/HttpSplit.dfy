/** The incremental parser does what a parse of the whole input does, however the input arrived, exactly
    when no trailer line is over-long. */
module HttpSplit {
  import opened Bytes
  import opened Text
  import opened HttpText
  import opened HttpParser

  // ---- lines ----

  /** A line that was decided stays as decided when more octets arrive. */
  lemma {:induction false} LineStable(input: seq<Byte>, more: seq<Byte>, start: nat, index: nat, max: nat)
    requires start <= index <= |input|
    ensures var r := ScanLine(input, start, index, max);
            !r.LineOpen? ==> ScanLine(input + more, start, index, max) == r
    decreases |input| - index
  {
    if index < |input| {
      assert (input + more)[index] == input[index];
      if index + 1 < |input| {
        assert (input + more)[index + 1] == input[index + 1];
      }
      if input[index] != LF && input[index] != CR && index - start + 1 <= max {
        LineStable(input, more, start, index + 1, max);
      }
    }
  }

  /** An open line is read on from where the scan stopped. */
  lemma {:induction false} LineResumes(input: seq<Byte>, more: seq<Byte>, start: nat, index: nat, max: nat)
    requires start <= index <= |input|
    ensures var r := ScanLine(input, start, index, max);
            r.LineOpen? ==> ScanLine(input + more, start, r.scanned, max) == ScanLine(input + more, start, index, max)
    decreases |input| - index
  {
    if index < |input| {
      assert (input + more)[index] == input[index];
      if input[index] != LF && input[index] != CR && index - start + 1 <= max {
        LineResumes(input, more, start, index + 1, max);
      }
    }
  }

  // ---- one turn ----

  lemma LineOf(input: seq<Byte>, more: seq<Byte>, i: nat, j: nat)
    requires i <= j <= |input|
    ensures (input + more)[i..j] == input[i..j]
  {
  }

  predicate Open(m: Move) { m.Return? && m.outcome == Incomplete }

  lemma LineStepStable(o: Options, p: Parser, input: seq<Byte>, more: seq<Byte>)
    requires Inv(p, |input|) && p.Parsing? && !Open(LineStep(o, p, input))
    ensures LineStep(o, p, input + more) == LineStep(o, p, input)
  {
    hide ParseRequestLine, ScanLine;
    LineStable(input, more, p.lineStart, p.scan, o.maxLine);
    match ScanLine(input, p.lineStart, p.scan, o.maxLine)
    case LineEnd(at) => LineOf(input, more, p.lineStart, at);
    case _ =>
  }

  lemma BlankStable(o: Options, p: Parser, input: seq<Byte>, more: seq<Byte>)
    requires p.Parsing? && p.scan <= |input|
    ensures BlankStep(o, p, input + more) == BlankStep(o, p, input)
  {
    hide Finalize;
  }

  lemma HeaderStepStable(o: Options, p: Parser, input: seq<Byte>, more: seq<Byte>)
    requires Inv(p, |input|) && p.Parsing? && !Open(HeaderStep(o, p, input))
    ensures HeaderStep(o, p, input + more) == HeaderStep(o, p, input)
  {
    hide ParseHeaderLine, ScanLine, BlankStep;
    var room := if p.headerBytes >= o.maxHeader then 0 else o.maxHeader - p.headerBytes;
    LineStable(input, more, p.lineStart, p.scan, room);
    match ScanLine(input, p.lineStart, p.scan, room)
    case LineEnd(at) =>
      LineOf(input, more, p.lineStart, at);
      var q := After(p, at);
      BlankStable(o, q.(headerBytes := p.headerBytes + (at - p.lineStart) + 2), input, more);
    case _ =>
  }

  lemma ChunkStepsStable(o: Options, p: Parser, input: seq<Byte>, more: seq<Byte>)
    requires Inv(p, |input|) && p.Parsing? && Addressable(input + more)
    ensures !Open(ChunkHeadStep(p, input)) ==> ChunkHeadStep(p, input + more) == ChunkHeadStep(p, input)
    ensures !Open(TrailerStep(o, p, input)) ==> TrailerStep(o, p, input + more) == TrailerStep(o, p, input)
  {
    hide ParseHex, Find, ScanLine;
    LineStable(input, more, p.lineStart, p.scan, 256);
    LineStable(input, more, p.lineStart, p.scan, o.maxHeader);
    match ScanLine(input, p.lineStart, p.scan, 256)
    case LineEnd(at) => LineOf(input, more, p.lineStart, at);
    case _ =>
  }

  lemma BodiesStable(o: Options, p: Parser, input: seq<Byte>, more: seq<Byte>)
    requires Inv(p, |input|) && p.Parsing? && Addressable(input + more)
    ensures p.phase == ChunkBody && !Open(ChunkBodyStep(o, p, input)) ==>
            ChunkBodyStep(o, p, input + more) == ChunkBodyStep(o, p, input)
    ensures p.phase == Body && !Open(BodyStep(p, input)) ==> BodyStep(p, input + more) == BodyStep(p, input)
  {
    if p.phase == ChunkBody && p.chunkSize <= |input| - p.chunkBody {
      LineOf(input, more, p.chunkBody, p.chunkBody + p.chunkSize);
    }
    if p.phase == Body && p.bodyOffset + p.contentLength <= |input| {
      LineOf(input, more, p.bodyOffset, p.bodyOffset + p.contentLength);
    }
  }

  /** A turn that did not wait does the same when more octets are there. */
  lemma StepStable(o: Options, p: Parser, input: seq<Byte>, more: seq<Byte>)
    requires Inv(p, |input|) && p.Parsing? && Addressable(input + more)
    ensures !Open(Step(o, p, input)) ==> Step(o, p, input + more) == Step(o, p, input)
  {
    hide LineStep, HeaderStep, BodyStep, ChunkHeadStep, ChunkBodyStep, TrailerStep;
    if !Open(Step(o, p, input)) {
      match p.phase
      case RequestLine => LineStepStable(o, p, input, more);
      case Headers => HeaderStepStable(o, p, input, more);
      case Body => BodiesStable(o, p, input, more);
      case ChunkHead => ChunkStepsStable(o, p, input, more);
      case ChunkBody => BodiesStable(o, p, input, more);
      case ChunkTrailer => ChunkStepsStable(o, p, input, more);
      case ChunkEnd =>
    }
  }

  /** The turn that skips an over-long trailer line. */
  predicate LongTrailer(o: Options, p: Parser, input: seq<Byte>)
    requires Inv(p, |input|) && p.Parsing?
  {
    p.phase == ChunkTrailer && ScanLine(input, p.lineStart, p.scan, o.maxHeader).LineLong?
  }

  lemma LinesResume(o: Options, p: Parser, input: seq<Byte>, more: seq<Byte>)
    requires Inv(p, |input|) && p.Parsing?
    ensures p.phase == RequestLine && Open(LineStep(o, p, input)) ==>
            LineStep(o, LineStep(o, p, input).next, input + more) == LineStep(o, p, input + more)
  {
    hide ParseRequestLine, ScanLine;
    LineResumes(input, more, p.lineStart, p.scan, o.maxLine);
  }

  /** Only where the scan ends matters, not where it began. */
  lemma HeaderSame(o: Options, p: Parser, scan: nat, input: seq<Byte>)
    requires Inv(p, |input|) && p.Parsing? && p.lineStart <= scan <= |input| && p.phase == Headers
    requires var room := if p.headerBytes >= o.maxHeader then 0 else o.maxHeader - p.headerBytes;
             ScanLine(input, p.lineStart, scan, room) == ScanLine(input, p.lineStart, p.scan, room)
    ensures HeaderStep(o, p.(scan := scan), input) == HeaderStep(o, p, input)
  {
    hide ParseHeaderLine, ScanLine, BlankStep;
  }

  lemma HeadersResume(o: Options, p: Parser, input: seq<Byte>, more: seq<Byte>)
    requires Inv(p, |input|) && p.Parsing?
    ensures p.phase == Headers && Open(HeaderStep(o, p, input)) ==>
            HeaderStep(o, HeaderStep(o, p, input).next, input + more) == HeaderStep(o, p, input + more)
  {
    hide ScanLine, HeaderStep;
    var room := if p.headerBytes >= o.maxHeader then 0 else o.maxHeader - p.headerBytes;
    LineResumes(input, more, p.lineStart, p.scan, room);
    if p.phase == Headers && Open(HeaderStep(o, p, input)) {
      HeaderWaits(o, p, input);
      HeaderSame(o, p, HeaderStep(o, p, input).next.scan, input + more);
    }
  }

  lemma HeaderWaits(o: Options, p: Parser, input: seq<Byte>)
    requires Inv(p, |input|) && p.Parsing? && p.phase == Headers && Open(HeaderStep(o, p, input))
    ensures var r := ScanLine(input, p.lineStart, p.scan, if p.headerBytes >= o.maxHeader then 0 else o.maxHeader - p.headerBytes);
            r.LineOpen? && HeaderStep(o, p, input).next == p.(scan := r.scanned) && p.lineStart <= r.scanned <= |input|
  {
    hide ParseHeaderLine, BlankStep, ScanLine;
    var room := if p.headerBytes >= o.maxHeader then 0 else o.maxHeader - p.headerBytes;
    match ScanLine(input, p.lineStart, p.scan, room)
    case LineEnd(at) =>
      var q := After(p, at);
      BlankGoes(o, q.(headerBytes := p.headerBytes + (at - p.lineStart) + 2), input);
    case _ =>
  }

  lemma BlankGoes(o: Options, p: Parser, input: seq<Byte>)
    requires p.Parsing? && p.scan <= |input|
    ensures !Open(BlankStep(o, p, input))
  {
    hide Finalize;
  }

  lemma ChunksResume(o: Options, p: Parser, input: seq<Byte>, more: seq<Byte>)
    requires Inv(p, |input|) && p.Parsing? && !LongTrailer(o, p, input + more)
    ensures p.phase == ChunkHead && Open(ChunkHeadStep(p, input)) ==>
            ChunkHeadStep(ChunkHeadStep(p, input).next, input + more) == ChunkHeadStep(p, input + more)
    ensures p.phase == ChunkTrailer && Open(TrailerStep(o, p, input)) ==>
            TrailerStep(o, TrailerStep(o, p, input).next, input + more) == TrailerStep(o, p, input + more)
  {
    hide ParseHex, Find, ScanLine;
    LineResumes(input, more, p.lineStart, p.scan, 256);
    LineResumes(input, more, p.lineStart, p.scan, o.maxHeader);
  }

  /** A turn that waited is taken up where it left off. */
  lemma StepResumes(o: Options, p: Parser, input: seq<Byte>, more: seq<Byte>)
    requires Inv(p, |input|) && p.Parsing? && Addressable(input + more) && !LongTrailer(o, p, input + more)
    ensures var m := Step(o, p, input);
            Open(m) ==> m.next.Parsing? && Inv(m.next, |input|) && m.next.phase == p.phase
                        && Step(o, m.next, input + more) == Step(o, p, input + more)
  {
    hide LineStep, HeaderStep, ChunkHeadStep, ChunkBodyStep, TrailerStep, LongTrailer;
    StepKeeps(o, p, input);
    if Open(Step(o, p, input)) {
      LinesResume(o, p, input, more);
      HeadersResume(o, p, input, more);
      ChunksResume(o, p, input, more);
      if p.phase == ChunkBody {
        ChunkBodyWaits(o, p, input);
      }
    }
  }

  lemma ChunkBodyWaits(o: Options, p: Parser, input: seq<Byte>)
    requires Inv(p, |input|) && p.Parsing? && Open(ChunkBodyStep(o, p, input))
    ensures ChunkBodyStep(o, p, input).next == p
  {
  }

  // ---- whole parses ----

  /** Somewhere on the way a trailer line is over-long. */
  ghost predicate MeetsLongTrailer(o: Options, p: Parser, input: seq<Byte>)
    requires Inv(p, |input|) && p.Parsing? && Addressable(input)
    decreases |input| - p.scan, Rank(p)
  {
    StepKeeps(o, p, input);
    LongTrailer(o, p, input) ||
    match Step(o, p, input)
    case Again(q) => MeetsLongTrailer(o, q, input)
    case Return(_, _) => false
  }

  /** A parse that did not wait gives the same result, and leaves the same parser, with more octets. */
  lemma {:induction false} ParseStable(o: Options, p: Parser, input: seq<Byte>, more: seq<Byte>)
    requires Inv(p, |input|) && p.Parsing? && Addressable(input + more)
    ensures var r := Loop(o, p, input);
            r.1 != Incomplete ==> Loop(o, p, input + more) == r
    decreases |input| - p.scan, Rank(p)
  {
    hide Step;
    StepKeeps(o, p, input);
    StepStable(o, p, input, more);
    match Step(o, p, input)
    case Again(q) => ParseStable(o, q, input, more);
    case Return(_, _) =>
  }

  /** A parse that waited, taken up with more octets, is the parse of all of them. */
  lemma {:induction false} ParseResumes(o: Options, p: Parser, input: seq<Byte>, more: seq<Byte>)
    requires Inv(p, |input|) && p.Parsing? && Addressable(input + more)
    requires !MeetsLongTrailer(o, p, input + more)
    ensures var r := Loop(o, p, input);
            r.1 == Incomplete ==>
              && r.0.Parsing? && Inv(r.0, |input|)
              && Loop(o, r.0, input + more) == Loop(o, p, input + more)
              && !MeetsLongTrailer(o, r.0, input + more)
    decreases |input| - p.scan, Rank(p)
  {
    hide Step, LongTrailer;
    StepKeeps(o, p, input);
    StepStable(o, p, input, more);
    StepResumes(o, p, input, more);
    match Step(o, p, input)
    case Again(q) => ParseResumes(o, q, input, more);
    case Return(q, outcome) =>
      if outcome == Incomplete {
        StillShort(o, p, q, input + more);
      }
  }

  /** Parsing again without new octets changes nothing. */
  lemma {:induction false} ParseIdles(o: Options, p: Parser, input: seq<Byte>)
    requires Inv(p, |input|) && p.Parsing? && Addressable(input)
    ensures var r := Loop(o, p, input);
            r.1 == Incomplete ==> Loop(o, r.0, input) == r
    decreases |input| - p.scan, Rank(p)
  {
    StepKeeps(o, p, input);
    match Step(o, p, input)
    case Again(q) => ParseIdles(o, q, input);
    case Return(q, outcome) =>
      if outcome == Incomplete {
        assert input + [] == input;
        StepResumes(o, p, input, []);
      }
  }

  lemma StillShort(o: Options, p: Parser, q: Parser, input: seq<Byte>)
    requires Inv(p, |input|) && p.Parsing? && Inv(q, |input|) && q.Parsing? && q == p.(scan := q.scan)
    requires Step(o, q, input) == Step(o, p, input) && !LongTrailer(o, p, input)
    ensures !LongTrailer(o, q, input)
  {
    hide ScanLine;
  }

  // ---- where it fails ----

  /** What the first of two instalments decided, or else what the second then decides. */
  ghost function InTwo(o: Options, data: seq<Byte>, k: nat): Outcome
    requires k <= |data| && Addressable(data)
  {
    var first := Loop(o, START, data[..k]);
    if first.1 == Incomplete then Loop(o, first.0, data).1 else first.1
  }

  /** A line that ends within the first octets is seen to end there by them alone. */
  lemma {:induction false} LineLocal(input: seq<Byte>, more: seq<Byte>, start: nat, index: nat, max: nat)
    requires start <= index <= |input|
    ensures var r := ScanLine(input + more, start, index, max);
            r.LineEnd? && r.at + 2 <= |input| ==> !ScanLine(input, start, index, max).LineOpen?
    decreases |input| - index
  {
    if index < |input| {
      assert (input + more)[index] == input[index];
      if input[index] != LF && input[index] != CR && index - start + 1 <= max {
        LineLocal(input, more, start, index + 1, max);
      }
    }
  }

  /** The octets up to where a turn got are enough for it. */
  lemma StepLocal(o: Options, p: Parser, input: seq<Byte>, more: seq<Byte>)
    requires Inv(p, |input|) && p.Parsing? && Addressable(input + more) && !LongTrailer(o, p, input + more)
    requires Step(o, p, input + more).Again? && Step(o, p, input + more).next.Parsing?
    requires Step(o, p, input + more).next.scan <= |input|
    ensures Step(o, p, input) == Step(o, p, input + more)
    ensures var q := Step(o, p, input + more).next; q.scan == q.lineStart
  {
    hide ScanLine, ParseRequestLine, ParseHeaderLine, ParseHex, Find, Finalize;
    StepStable(o, p, input, more);
    LineLocal(input, more, p.lineStart, p.scan, o.maxLine);
    LineLocal(input, more, p.lineStart, p.scan, 256);
    LineLocal(input, more, p.lineStart, p.scan, o.maxHeader);
    LineLocal(input, more, p.lineStart, p.scan, if p.headerBytes >= o.maxHeader then 0 else o.maxHeader - p.headerBytes);
  }

  /** Cut one octet into the over-long trailer line, the parse completes one octet later. */
  lemma {:induction false} CutShows(o: Options, p: Parser, data: seq<Byte>) returns (k: nat)
    requires Inv(p, |data|) && p.Parsing? && Addressable(data) && MeetsLongTrailer(o, p, data)
    requires p.scan == p.lineStart && o.maxHeader >= 2
    ensures p.scan < k <= |data|
    ensures Loop(o, p, data[..k]).1 == Incomplete
    ensures var cut, whole := Loop(o, Loop(o, p, data[..k]).0, data).1, Loop(o, p, data).1;
            cut.Complete? && whole.Complete? && cut.consumed == whole.consumed + 1 && cut.request == whole.request
    decreases |data| - p.scan, Rank(p)
  {
    hide Step, LongTrailer;
    StepKeeps(o, p, data);
    if LongTrailer(o, p, data) {
      k := CutHere(o, p, data);
    } else {
      var q := Step(o, p, data).next;
      assert data[..q.scan] + data[q.scan..] == data;
      StepLocal(o, p, data[..q.scan], data[q.scan..]);
      k := CutShows(o, q, data);
      assert data[..k] + data[k..] == data;
      StepLocal(o, p, data[..k], data[k..]);
    }
  }

  /** A long trailer itself shows the cut: right after its first octet. */
  lemma CutHere(o: Options, p: Parser, data: seq<Byte>) returns (k: nat)
    requires Inv(p, |data|) && p.Parsing? && Addressable(data) && LongTrailer(o, p, data)
    requires p.scan == p.lineStart && o.maxHeader >= 2
    ensures p.scan < k <= |data|
    ensures Loop(o, p, data[..k]).1 == Incomplete
    ensures var cut, whole := Loop(o, Loop(o, p, data[..k]).0, data).1, Loop(o, p, data).1;
            cut.Complete? && whole.Complete? && cut.consumed == whole.consumed + 1 && cut.request == whole.request
  {
    k := p.scan + 1;
    assert ScanLine(data[..k], p.lineStart, p.scan, o.maxHeader) == LineOpen(k);
    assert Loop(o, p, data[..k]) == (p.(scan := k), Incomplete);
    LongCompletes(o, p, data);
    LongCompletes(o, p.(scan := k), data);
  }

  lemma LongCompletes(o: Options, p: Parser, data: seq<Byte>)
    requires Inv(p, |data|) && p.Parsing? && Addressable(data) && LongTrailer(o, p, data)
    ensures Loop(o, p, data) == (START, Complete(p.request, p.scan))
  {
    hide ScanLine;
    assert Step(o, p, data) == Again(p.(phase := ChunkEnd));
  }

  /** The code's own limit: a request parsed in two instalments gives what one parse gives, for every
      place to cut, if and only if that parse meets no trailer line beyond the header limit. */
  lemma SplitIndependentIff(o: Options, data: seq<Byte>)
    requires Addressable(data) && o.maxHeader >= 2
    ensures (forall k :: 0 <= k <= |data| ==> InTwo(o, data, k) == Loop(o, START, data).1)
            <==> !MeetsLongTrailer(o, START, data)
  {
    if MeetsLongTrailer(o, START, data) {
      var k := CutShows(o, START, data);
      assert InTwo(o, data, k) != Loop(o, START, data).1;
    } else {
      forall k | 0 <= k <= |data| ensures InTwo(o, data, k) == Loop(o, START, data).1 {
        assert data[..k] + data[k..] == data;
        ParseStable(o, START, data[..k], data[k..]);
        ParseResumes(o, START, data[..k], data[k..]);
      }
    }
  }
}

/** HTTP/1.1 messages read from the front, line by line, with no saved offsets. The resumable parser of
    http_request_parser.cpp makes exactly this of every input. */
module HttpGrammar {
  import opened Bytes
  import opened Text
  import opened HttpText
  import opened HttpParser

  // ---- lines ----

  /** Where the first CR or LF stands, or the length. */
  function Break(s: seq<Byte>): (r: nat)
    ensures r <= |s| && (r < |s| ==> s[r] == CR || s[r] == LF)
    ensures forall i :: 0 <= i < r ==> s[i] != CR && s[i] != LF
  {
    if s == [] || s[0] == CR || s[0] == LF then 0 else 1 + Break(s[1..])
  }

  datatype Cut = Pending | Spoilt | Overlong | Line(text: seq<Byte>, rest: seq<Byte>)

  /** The first line: at most `max` octets up to CR LF. Neither of them may stand alone. */
  function CutOf(s: seq<Byte>, max: nat): (r: Cut)
    ensures r.Line? ==> |r.rest| < |s|
  {
    var i := Break(s);
    if i > max then Overlong
    else if i == |s| || (s[i] == CR && i + 1 == |s|) then Pending
    else if s[i] == CR && s[i + 1] == LF then Line(s[..i], s[i + 2..])
    else Spoilt
  }

  // ---- heads ----

  datatype Head = Waiting | Bad(error: ParseError) | Fields(headers: seq<Header>, rest: seq<Byte>)

  /** Header lines up to the empty one; `used` octets of the header limit are gone. */
  function ReadHead(o: Options, s: seq<Byte>, headers: seq<Header>, used: nat): (r: Head)
    ensures r.Fields? ==> |r.rest| < |s|
    decreases |s|
  {
    var room := if used >= o.maxHeader then 0 else o.maxHeader - used;
    match CutOf(s, room)
    case Pending => Waiting
    case Spoilt => Bad(InvalidLineEnding)
    case Overlong => Bad(HeaderTooLarge)
    case Line(text, rest) =>
      if |text| + 2 > room then Bad(HeaderTooLarge)
      else if text == [] then Fields(headers, rest)
      else if |headers| >= o.maxCount then Bad(TooManyHeaders)
      else
        match ParseHeaderLine(text)
        case None => Bad(InvalidHeader)
        case Some(h) => ReadHead(o, rest, headers + [h], used + |text| + 2)
  }

  // ---- bodies ----

  datatype Read = More | Wrong(error: ParseError) | Lost | Whole(body: seq<Byte>, rest: seq<Byte>)

  /** Trailer lines up to the empty one; one that is too long ends the message too, where it begins. */
  function ReadTrailer(o: Options, s: seq<Byte>, body: seq<Byte>): (r: Read)
    ensures r.Whole? ==> |r.rest| <= |s|
    decreases |s|
  {
    match CutOf(s, o.maxHeader)
    case Pending => More
    case Spoilt => Wrong(InvalidLineEnding)
    case Overlong => Whole(body, s)
    case Line(text, rest) => if text == [] then Whole(body, rest) else ReadTrailer(o, rest, body)
  }

  /** Chunks up to the empty one; `size` octets are in the whole input. The sums are 64-bit, and a chunk that
      reaches beyond the input only because one wrapped is lost. */
  function ReadChunks(o: Options, s: seq<Byte>, body: seq<Byte>, size: nat): (r: Read)
    requires |s| <= size < SIZE_LIMIT / 2
    ensures r.Whole? ==> |r.rest| <= |s|
    decreases |s|, 0
  {
    match CutOf(s, 256)
    case Pending => More
    case Spoilt => Wrong(InvalidLineEnding)
    case Overlong => Wrong(InvalidContentLength)
    case Line(text, rest) =>
      match ParseHex(text[..Find(text, 59, 0)])
      case None => Wrong(InvalidContentLength)
      case Some(n) => Sized(o, rest, body, size, n)
  }

  /** What follows a size line. */
  function Sized(o: Options, s: seq<Byte>, body: seq<Byte>, size: nat, n: nat): (r: Read)
    requires |s| <= size < SIZE_LIMIT / 2
    ensures r.Whole? ==> |r.rest| <= |s|
    decreases |s|, 1
  {
    if n == 0 then ReadTrailer(o, s, body)
    else if size < (size - |s| + n + 2) % SIZE_LIMIT then More
    else if (|body| + n) % SIZE_LIMIT > o.maxBody then Wrong(BodyTooLarge)
    else if n > |s| then Lost
    else ReadChunks(o, s[n + 2..], body + s[..n], size)
  }

  function ReadFixed(length: nat, s: seq<Byte>, at: nat): Read {
    if at + length >= SIZE_LIMIT then Wrong(BodyTooLarge)
    else if |s| < length then More
    else Whole(s[..length], s[length..])
  }

  // ---- messages ----

  /** The outcome once the body has been read. */
  function Ended(request: HttpRequest, read: Read, size: nat): Outcome
    requires read.Whole? ==> |read.rest| <= size
  {
    match read
    case More => Incomplete
    case Wrong(e) => Error(e)
    case Lost => Threw
    case Whole(body, rest) => Complete(request.(body := body), size - |rest|)
  }

  /** What follows a head; a body that the client holds back until asked for is waited for once. */
  function AfterHead(o: Options, request: HttpRequest, rest: seq<Byte>, size: nat, asked: bool): Outcome
    requires |rest| <= size < SIZE_LIMIT / 2
  {
    match Finalize(o, request.headers)
    case Refused(e) => Error(e)
    case Tally(_, _, length, chunked, close, expect_) =>
      var full := request.(keepAlive := !close);
      if expect_ && !asked && (chunked || length > 0) then HeadersComplete(size - |rest|)
      else if chunked then Ended(full, ReadChunks(o, rest, [], size), size)
      else Ended(full, ReadFixed(length, rest, size - |rest|), size)
  }

  function Started(start: StartLine, headers: seq<Header>): HttpRequest
    requires start.StartLine?
  {
    HttpRequest(start.methodText, start.target, start.path, start.query, headers, [], true)
  }

  /** The first message of an input. `asked` tells whether 100 Continue was sent. */
  function Message(o: Options, input: seq<Byte>, asked: bool): Outcome
    requires Addressable(input)
  {
    match CutOf(input, o.maxLine)
    case Pending => Incomplete
    case Spoilt => Error(InvalidLineEnding)
    case Overlong => Error(RequestLineTooLarge)
    case Line(text, rest) =>
      match ParseRequestLine(text)
      case BadLine(e) => Error(e)
      case StartLine(m, t, path, query) =>
        match ReadHead(o, rest, [], 0)
        case Waiting => Incomplete
        case Bad(e) => Error(e)
        case Fields(headers, body) => AfterHead(o, Started(StartLine(m, t, path, query), headers), body, |input|, asked)
  }

  // ---- the scanner cuts the same lines ----

  lemma {:induction false} BreakAt(s: seq<Byte>, k: nat)
    requires k <= |s| && forall i :: 0 <= i < k ==> s[i] != CR && s[i] != LF
    ensures Break(s) == k + Break(s[k..])
    decreases k
  {
    if k == 0 {
      assert s[0..] == s;
    } else {
      BreakAt(s[1..], k - 1);
      assert s[1..][k - 1..] == s[k..];
    }
  }

  /** The two agree on what stands first. */
  predicate Agree(line: HttpParser.Line, cut: Cut, input: seq<Byte>, start: nat)
    requires start <= |input|
  {
    match line
    case LineOpen(_) => cut == Pending
    case LineBad => cut == Spoilt
    case LineLong => cut == Overlong
    case LineEnd(at) => start <= at && at + 2 <= |input| && cut == Line(input[start..at], input[at + 2..])
  }

  lemma {:induction false} ScanCuts(input: seq<Byte>, start: nat, index: nat, max: nat)
    requires start <= index <= |input| && index - start <= max
    requires forall i :: start <= i < index ==> input[i] != CR && input[i] != LF
    ensures Agree(ScanLine(input, start, index, max), CutOf(input[start..], max), input, start)
    decreases |input| - index
  {
    hide Break;
    var s := input[start..];
    BreakAt(s, index - start);
    if index < |input| && input[index] != CR && input[index] != LF {
      if index - start < max {
        ScanCuts(input, start, index + 1, max);
      } else {
        BreakAt(s, index - start + 1);
      }
    } else {
      BreakHere(s[index - start..]);
      if index + 1 < |input| {
        assert s[..index - start] == input[start..index] && s[index - start + 2..] == input[index + 2..];
      }
    }
  }

  lemma BreakHere(s: seq<Byte>)
    requires s == [] || s[0] == CR || s[0] == LF
    ensures Break(s) == 0
  {
  }

  // ---- the parser makes the same of them ----

  /** The parser stands at the beginning of a line. */
  ghost predicate AtStart(p: Parser, input: seq<Byte>) {
    Addressable(input) && p.Parsing? && Inv(p, |input|) && p.scan == p.lineStart
  }

  lemma LoopOnce(o: Options, p: Parser, input: seq<Byte>)
    requires AtStart(p, input) && Kept(p, Step(o, p, input), |input|)
    ensures var m := Step(o, p, input);
            Loop(o, p, input) == match m case Again(q) => Loop(o, q, input) case Return(q, outcome) => (q, outcome)
  {
    hide Step, Inv;
  }

  lemma {:induction false} TrailerRead(o: Options, p: Parser, input: seq<Byte>)
    requires AtStart(p, input) && p.phase == ChunkTrailer
    ensures Loop(o, p, input).1 == Ended(p.request, ReadTrailer(o, input[p.scan..], p.request.body), |input|)
    decreases |input| - p.scan
  {
    hide CutOf, ScanLine, Loop;
    var s := input[p.scan..];
    var m := Step(o, p, input);
    ScanCuts(input, p.scan, p.scan, o.maxHeader);
    StepKeeps(o, p, input);
    LoopOnce(o, p, input);
    match ScanLine(input, p.scan, p.scan, o.maxHeader)
    case LineOpen(_) =>
    case LineBad =>
    case LineLong =>
      LoopDone(o, m.next, input);
    case LineEnd(at) =>
      if at == p.scan {
        LoopDone(o, m.next, input);
      } else {
        TrailerRead(o, m.next, input);
      }
  }

  lemma LoopDone(o: Options, p: Parser, input: seq<Byte>)
    requires AtStart(p, input) && p.phase == ChunkEnd
    ensures Loop(o, p, input).1 == Complete(p.request, p.scan)
  {
  }

  lemma {:induction false} ChunksRead(o: Options, p: Parser, input: seq<Byte>)
    requires AtStart(p, input) && p.phase == ChunkHead
    ensures Loop(o, p, input).1 == Ended(p.request, ReadChunks(o, input[p.scan..], p.request.body, |input|), |input|)
    decreases |input| - p.scan
  {
    hide CutOf, ScanLine, Loop, ReadTrailer, ParseHex, Find, ReadChunks, Step;
    ReadChunksStep(o, p, input);
    match ScanLine(input, p.scan, p.scan, 256)
    case LineEnd(at) =>
      var next := Step(o, p, input).next;
      if Step(o, p, input).Again? {
        if next.phase == ChunkTrailer {
          TrailerRead(o, next, input);
        } else {
          ChunkRead(o, next, input);
          var rest, n := input[at + 2..], next.chunkSize;
          if |input| >= (at + 2 + n + 2) % SIZE_LIMIT && (|p.request.body| + n) % SIZE_LIMIT <= o.maxBody && n <= |rest| {
            ChunksRead(o, Step(o, next, input).next, input);
            Skipped(input, at + 2, n);
          }
        }
      }
    case _ =>
  }

  /** The size line: refused, or what follows it decides. */
  lemma ReadChunksStep(o: Options, p: Parser, input: seq<Byte>)
    requires AtStart(p, input) && p.phase == ChunkHead
    ensures var s := input[p.scan..];
            var read := ReadChunks(o, s, p.request.body, |input|);
            var m := Step(o, p, input);
            match ScanLine(input, p.scan, p.scan, 256)
            case LineEnd(at) =>
              if m.Again? then
                var n := m.next.chunkSize;
                var rest := input[at + 2..];
                && p.scan < at + 2 <= |input| && AtStart(m.next, input) && m.next.scan == at + 2 && m.next.request == p.request
                && Loop(o, p, input) == Loop(o, m.next, input) && m.next.phase == (if n == 0 then ChunkTrailer else ChunkBody)
                && read == Sized(o, rest, p.request.body, |input|, n)
              else Loop(o, p, input).1 == Ended(p.request, read, |input|)
            case _ => Loop(o, p, input).1 == Ended(p.request, read, |input|)
  {
    hide CutOf, ScanLine, Loop, ReadTrailer, ParseHex, Find;
    ScanCuts(input, p.scan, p.scan, 256);
    StepKeeps(o, p, input);
    LoopOnce(o, p, input);
  }

  lemma Skipped(input: seq<Byte>, at: nat, n: nat)
    requires at + n + 2 <= |input|
    ensures input[at..][n + 2..] == input[at + n + 2..] && input[at..][..n] == input[at..at + n]
  {
  }

  /** The chunk itself. */
  lemma ChunkRead(o: Options, p: Parser, input: seq<Byte>)
    requires AtStart(p, input) && p.phase == ChunkBody
    ensures var rest := input[p.scan..];
            var n := p.chunkSize;
            var step := Step(o, p, input);
            if |input| < (|input| - |rest| + n + 2) % SIZE_LIMIT then Loop(o, p, input).1 == Incomplete
            else if (|p.request.body| + n) % SIZE_LIMIT > o.maxBody then Loop(o, p, input).1 == Error(BodyTooLarge)
            else if n > |rest| then Loop(o, p, input).1 == Threw
            else
              && step.Again? && n + 2 <= |rest| && AtStart(step.next, input) && Loop(o, p, input) == Loop(o, step.next, input)
              && step.next == p.(request := p.request.(body := p.request.body + input[p.scan..p.scan + n]),
                                 scan := p.scan + n + 2, lineStart := p.scan + n + 2, phase := ChunkHead)
  {
    hide Loop;
    StepKeeps(o, p, input);
    LoopOnce(o, p, input);
  }

  lemma FixedRead(o: Options, p: Parser, input: seq<Byte>)
    requires AtStart(p, input) && p.phase == Body && p.contentLength > 0
    ensures Loop(o, p, input).1 == Ended(p.request, ReadFixed(p.contentLength, input[p.scan..], p.scan), |input|)
  {
    hide Loop;
    StepKeeps(o, p, input);
    LoopOnce(o, p, input);
    var end := p.scan + p.contentLength;
    if end <= |input| {
      assert input[p.scan..][..p.contentLength] == input[p.scan..end];
    }
  }

  /** A parser past the head, with what it has to read still before it. */
  ghost predicate PastHead(o: Options, p: Parser, r: Parser, input: seq<Byte>) {
    && AtStart(r, input) && p.Parsing? && r.scan == p.scan
    && match Finalize(o, p.request.headers)
       case Refused(_) => false
       case Tally(_, _, length, chunked, close, _) =>
         && r.request == p.request.(keepAlive := !close) && (chunked || length > 0)
         && r.contentLength == length && r.phase == if chunked then ChunkHead else Body
  }

  lemma BodyRead(o: Options, p: Parser, r: Parser, input: seq<Byte>)
    requires PastHead(o, p, r, input) && p.request.body == []
    ensures Loop(o, r, input).1 == AfterHead(o, p.request, input[p.scan..], |input|, true)
  {
    hide Loop, Finalize, ReadChunks, ReadFixed;
    if r.phase == ChunkHead {
      ChunksRead(o, r, input);
    } else {
      FixedRead(o, r, input);
    }
  }

  /** What the empty line leads to at once. */
  lemma BlankRead(o: Options, p: Parser, input: seq<Byte>)
    requires Addressable(input) && p.Parsing? && p.scan == p.lineStart && 2 <= p.scan <= |input| && p.request.body == []
    ensures var rest := input[p.scan..];
            match BlankStep(o, p, input)
            case Again(r) =>
              && PastHead(o, p, r, input)
              && AfterHead(o, p.request, rest, |input|, p.expectSent) == AfterHead(o, p.request, rest, |input|, true)
            case Return(r, HeadersComplete(n)) =>
              PastHead(o, p, r, input) && HeadersComplete(n) == AfterHead(o, p.request, rest, |input|, p.expectSent)
            case Return(_, outcome) =>
              outcome == AfterHead(o, p.request, rest, |input|, p.expectSent) == AfterHead(o, p.request, rest, |input|, true)
  {
    hide Finalize, ReadChunks;
    assert input[p.scan..][..0] == [];
  }

  /** What a head leads to; `twice` goes on after 100 Continue. */
  function HeadOutcome(o: Options, request: HttpRequest, head: Head, size: nat, asked: bool): Outcome
    requires size < SIZE_LIMIT / 2 && (head.Fields? ==> |head.rest| <= size)
  {
    match head
    case Waiting => Incomplete
    case Bad(e) => Error(e)
    case Fields(headers, rest) => AfterHead(o, request.(headers := headers), rest, size, asked)
  }

  /** The outcome of a second attempt, if the first one asked for the body. */
  ghost function Twice(o: Options, p: Parser, input: seq<Byte>): Outcome
    requires AtStart(p, input)
  {
    var r := Loop(o, p, input);
    if r.1.HeadersComplete? then Loop(o, r.0, input).1 else r.1
  }

  ghost predicate HeadOk(o: Options, p: Parser, input: seq<Byte>, head: Head)
    requires AtStart(p, input) && (head.Fields? ==> |head.rest| <= |input|)
  {
    && Loop(o, p, input).1 == HeadOutcome(o, p.request, head, |input|, p.expectSent)
    && Twice(o, p, input) == HeadOutcome(o, p.request, head, |input|, true)
  }

  lemma {:induction false} HeadersRead(o: Options, p: Parser, input: seq<Byte>)
    requires AtStart(p, input) && p.phase == Headers && p.request.body == []
    ensures HeadOk(o, p, input, ReadHead(o, input[p.scan..], p.request.headers, p.headerBytes))
    decreases |input| - p.scan
  {
    hide CutOf, ScanLine, Loop, BlankStep, ParseHeaderLine, AfterHead;
    var m := Step(o, p, input);
    var room := if p.headerBytes >= o.maxHeader then 0 else o.maxHeader - p.headerBytes;
    ScanCuts(input, p.scan, p.scan, room);
    StepKeeps(o, p, input);
    LoopOnce(o, p, input);
    match ScanLine(input, p.scan, p.scan, room)
    case LineEnd(at) =>
      var text := input[p.scan..at];
      if |text| + 2 <= room {
        if text == [] {
          HeadDone(o, p, After(p, at).(headerBytes := p.headerBytes + 2), input);
        } else if |p.request.headers| < o.maxCount && ParseHeaderLine(text).Some? {
          HeadersRead(o, m.next, input);
        }
      }
    case _ =>
  }

  /** The empty line has been read: `q` stands after it. */
  lemma HeadDone(o: Options, p: Parser, q: Parser, input: seq<Byte>)
    requires AtStart(p, input) && p.request.body == [] && q.Parsing? && q.request == p.request && q.expectSent == p.expectSent
    requires q.scan == q.lineStart == p.scan + 2 <= |input| && Step(o, p, input) == BlankStep(o, q, input)
    ensures HeadOk(o, p, input, Fields(p.request.headers, input[q.scan..]))
  {
    hide Loop, BlankStep, AfterHead, Step;
    BlankRead(o, q, input);
    StepKeeps(o, p, input);
    LoopOnce(o, p, input);
    match BlankStep(o, q, input)
    case Again(r) => BodyRead(o, q, r, input);
    case Return(r, HeadersComplete(_)) => BodyRead(o, q, r, input);
    case Return(_, _) =>
    assert p.request.(headers := p.request.headers) == q.request;
  }

  /** Every input: the parser's first message is the one read from the front, and so is what it makes of the
      same input after 100 Continue. */
  lemma ParseReadsMessage(o: Options, input: seq<Byte>)
    requires Addressable(input)
    ensures var first := Parse(o, START, input);
            && first.1 == Message(o, input, false)
            && (first.1.HeadersComplete? ==>
                  && Inv(first.0, |input|) && first.0.Parsing? && first.0.scan <= |input|
                  && Parse(o, first.0, input).1 == Message(o, input, true))
            && (!first.1.HeadersComplete? ==> first.1 == Message(o, input, true))
  {
    hide CutOf, ScanLine, Loop, ParseRequestLine, ReadHead, AfterHead;
    assert AtStart(START, input);
    assert input[0..] == input;
    ScanCuts(input, 0, 0, o.maxLine);
    StepKeeps(o, START, input);
    LoopOnce(o, START, input);
    match ScanLine(input, 0, 0, o.maxLine)
    case LineEnd(at) =>
      var text := input[0..at];
      if ParseRequestLine(text).StartLine? {
        HeadersRead(o, Step(o, START, input).next, input);
      }
    case _ =>
  }
}

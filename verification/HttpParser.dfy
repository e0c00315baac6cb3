/** The resumable HTTP/1.1 request parser of http_request_parser.cpp as a machine over its saved offsets. */
module HttpParser {
  import opened Bytes
  import opened Text
  import opened HttpText

  datatype Header = Header(name: seq<Byte>, value: seq<Byte>)

  datatype HttpRequest = HttpRequest(
    methodText: seq<Byte>, target: seq<Byte>, path: seq<Byte>, query: seq<Byte>,
    headers: seq<Header>, body: seq<Byte>, keepAlive: bool)

  datatype ParseError =
    | InvalidLineEnding | RequestLineTooLarge | InvalidRequestLine | UnsupportedVersion | InvalidTarget
    | HeaderTooLarge | TooManyHeaders | InvalidHeader | MissingHost | DuplicateHost | InvalidContentLength
    | DuplicateContentLength | UnsupportedTransferEncoding | BodyTooLarge

  datatype Options = Options(maxLine: nat, maxHeader: nat, maxCount: nat, maxBody: nat)

  datatype Phase = RequestLine | Headers | Body | ChunkHead | ChunkBody | ChunkTrailer | ChunkEnd

  /** The fields of HttpRequestParser; in state Error only the error matters. */
  datatype Parser =
    | Parsing(phase: Phase, request: HttpRequest, lineStart: nat, scan: nat, headerBytes: nat, contentLength: nat,
              bodyOffset: nat, chunkSize: nat, chunkBody: nat, chunked: bool, expect_: bool, expectSent: bool)
    | Failed(error: ParseError)
    | Broken                                  // an exception left Parse

  const NOTHING := HttpRequest([], [], [], [], [], [], true)
  const START := Parsing(RequestLine, NOTHING, 0, 0, 0, 0, 0, 0, 0, false, false, false)

  datatype Outcome =
    | Incomplete
    | Complete(request: HttpRequest, consumed: nat)
    | HeadersComplete(consumed: nat)
    | Error(error: ParseError)
    | Threw

  /** Inputs shorter than the largest object a 64-bit C++ program can have. */
  predicate Addressable(input: seq<Byte>) { |input| < SIZE_LIMIT / 2 }

  // ---- lines ----

  datatype Line = LineOpen(scanned: nat) | LineEnd(at: nat) | LineBad | LineLong

  /** ReadLine from `index` on, for a line that began at `start`. */
  function ScanLine(input: seq<Byte>, start: nat, index: nat, max: nat): (r: Line)
    requires start <= index <= |input|
    ensures r.LineOpen? ==> index <= r.scanned <= |input|
    ensures r.LineEnd? ==> index <= r.at && r.at + 2 <= |input|
    decreases |input| - index
  {
    if index == |input| then LineOpen(index)
    else if input[index] == LF then LineBad
    else if input[index] == CR then
      if index + 1 == |input| then LineOpen(index)
      else if input[index + 1] != LF then LineBad
      else if index - start > max then LineLong
      else LineEnd(index)
    else if index - start + 1 > max then LineLong
    else ScanLine(input, start, index + 1, max)
  }

  const VERSION: seq<Byte> := Ascii("HTTP/1.1")

  datatype StartLine = StartLine(methodText: seq<Byte>, target: seq<Byte>, path: seq<Byte>, query: seq<Byte>) | BadLine(error: ParseError)

  function ParseRequestLine(line: seq<Byte>): StartLine {
    var first := Find(line, SP, 0);
    var second := if first == |line| then |line| else Find(line, SP, first + 1);
    if first == |line| || second == |line| || first == 0 || second == first + 1 || second + 1 >= |line|
       || Find(line, SP, second + 1) != |line|
    then BadLine(InvalidRequestLine)
    else if !AllTokens(line[..first]) then BadLine(InvalidRequestLine)
    else if line[second + 1..] != VERSION then BadLine(UnsupportedVersion)
    else
      var target := line[first + 1..second];
      if target[0] != 47 || 35 in target then BadLine(InvalidTarget)
      else
        var q := Find(target, 63, 0);
        StartLine(line[..first], target, target[..q], if q < |target| then target[q + 1..] else [])
  }

  predicate ValueByte(b: Byte) { !(b < 32 && b != HTAB) && b != 127 }

  function ParseHeaderLine(line: seq<Byte>): Option<Header> {
    var colon := Find(line, 58, 0);
    if colon == |line| || colon == 0 || !AllTokens(line[..colon]) then None
    else
      var value := Trim(line[colon + 1..]);
      if forall i :: 0 <= i < |value| ==> ValueByte(value[i]) then Some(Header(Lowercase(line[..colon]), value)) else None
  }

  // ---- the end of the headers ----

  const HOST: seq<Byte> := Ascii("host")
  const CONTENT_LENGTH: seq<Byte> := Ascii("content-length")
  const TRANSFER_ENCODING: seq<Byte> := Ascii("transfer-encoding")
  const CONNECTION: seq<Byte> := Ascii("connection")
  const EXPECT: seq<Byte> := Ascii("expect")
  const CHUNKED: seq<Byte> := Ascii("chunked")
  const CLOSE: seq<Byte> := Ascii("close")
  const CONTINUE: seq<Byte> := Ascii("100-continue")

  datatype Tally =
    | Tally(hosts: nat, lengths: nat, length: nat, chunked: bool, close: bool, expect_: bool)
    | Refused(error: ParseError)

  /** One header's part in FinalizeHeaders. */
  function Count(t: Tally, h: Header): Tally
    requires t.Tally?
  {
    if h.name == HOST then
      if h.value == [] then Refused(MissingHost) else t.(hosts := t.hosts + 1)
    else if h.name == CONTENT_LENGTH then
      match ParseDecimal(Trim(h.value))
      case None => Refused(InvalidContentLength)
      case Some(n) => t.(lengths := t.lengths + 1, length := n)
    else if h.name == TRANSFER_ENCODING then
      if t.lengths > 0 then Refused(InvalidContentLength)
      else if !HasToken(Trim(h.value), CHUNKED) then Refused(UnsupportedTransferEncoding)
      else t.(chunked := true)
    else if h.name == CONNECTION then t.(close := t.close || HasToken(h.value, CLOSE))
    else if h.name == EXPECT then t.(expect_ := HasToken(h.value, CONTINUE))
    else t
  }

  function CountAll(t: Tally, headers: seq<Header>): Tally
    decreases |headers|
  {
    if headers == [] || t.Refused? then t else CountAll(Count(t, headers[0]), headers[1..])
  }

  function Finalize(o: Options, headers: seq<Header>): Tally {
    var t := CountAll(Tally(0, 0, 0, false, false, false), headers);
    if t.Refused? then t
    else if t.hosts == 0 then Refused(MissingHost)
    else if t.hosts > 1 then Refused(DuplicateHost)
    else if t.lengths > 1 then Refused(DuplicateContentLength)
    else if t.length > o.maxBody then Refused(BodyTooLarge)
    else t
  }

  // ---- steps of the loop ----

  /** One turn of the loop of Parse: go round again, or return. */
  datatype Move = Again(next: Parser) | Return(next: Parser, outcome: Outcome)

  function Fail(e: ParseError): Move { Return(Failed(e), Error(e)) }

  /** The offsets the loop maintains. */
  predicate Inv(p: Parser, size: nat) {
    p.Parsing? ==>
      && p.lineStart <= p.scan <= size
      && (p.phase != RequestLine ==> 2 <= p.lineStart)
      && (p.phase == Body ==> p.bodyOffset == p.scan && !p.chunked)
      && (p.phase == ChunkBody ==> p.chunkBody == p.scan && 0 < p.chunkSize)
      && (p.phase.ChunkHead? || p.phase.ChunkBody? || p.phase.ChunkTrailer? || p.phase.ChunkEnd? ==> p.chunked)
  }

  function Waits(p: Parser, scan: nat): Move
    requires p.Parsing?
  {
    Return(p.(scan := scan), Incomplete)
  }

  /** Past a line that ended at `at`. */
  function After(p: Parser, at: nat): (q: Parser)
    requires p.Parsing?
    ensures q.Parsing? && q.scan == q.lineStart == at + 2
  {
    p.(scan := at + 2, lineStart := at + 2)
  }

  function LineStep(o: Options, p: Parser, input: seq<Byte>): Move
    requires Inv(p, |input|) && p.Parsing?
  {
    match ScanLine(input, p.lineStart, p.scan, o.maxLine)
    case LineOpen(i) => Waits(p, i)
    case LineLong => Fail(RequestLineTooLarge)
    case LineBad => Fail(InvalidLineEnding)
    case LineEnd(at) =>
      match ParseRequestLine(input[p.lineStart..at])
      case BadLine(e) => Fail(e)
      case StartLine(m, t, path, query) =>
        Again(After(p, at).(phase := Headers,
                            request := p.request.(methodText := m, target := t, path := path, query := query)))
  }

  /** Complete: the body out of the input, the parser ready for the next request. */
  function Finish(p: Parser, input: seq<Byte>): Move
    requires p.Parsing? && (p.chunked || p.bodyOffset + p.contentLength <= |input|)
  {
    if p.chunked then Return(START, Complete(p.request, p.scan))
    else
      var end := p.bodyOffset + p.contentLength;
      var body := if p.contentLength == 0 then p.request.body else input[p.bodyOffset..end];
      Return(START, Complete(p.request.(body := body), end))
  }

  /** The empty line: `p` stands after it. */
  function BlankStep(o: Options, p: Parser, input: seq<Byte>): Move
    requires p.Parsing? && p.scan <= |input|
  {
    match Finalize(o, p.request.headers)
    case Refused(e) => Fail(e)
    case Tally(_, _, length, chunked, close, expect_) =>
      var q := p.(contentLength := length, chunked := chunked, expect_ := expect_, bodyOffset := p.scan,
                  request := p.request.(keepAlive := !close));
      var ask := expect_ && !p.expectSent;
      var r := q.(expectSent := p.expectSent || ask, phase := if chunked then ChunkHead else Body);
      if !chunked && length == 0 then Finish(r, input)
      else if ask then Return(r, HeadersComplete(p.scan))
      else Again(r)
  }

  function HeaderStep(o: Options, p: Parser, input: seq<Byte>): Move
    requires Inv(p, |input|) && p.Parsing?
  {
    var room := if p.headerBytes >= o.maxHeader then 0 else o.maxHeader - p.headerBytes;
    match ScanLine(input, p.lineStart, p.scan, room)
    case LineOpen(i) => Waits(p, i)
    case LineLong => Fail(HeaderTooLarge)
    case LineBad => Fail(InvalidLineEnding)
    case LineEnd(at) =>
      var line := input[p.lineStart..at];
      if |line| + 2 > room then Fail(HeaderTooLarge)
      else
        var q := After(p, at).(headerBytes := p.headerBytes + |line| + 2);
        if line == [] then BlankStep(o, q, input)
        else if |p.request.headers| >= o.maxCount then Fail(TooManyHeaders)
        else
          match ParseHeaderLine(line)
          case None => Fail(InvalidHeader)
          case Some(h) => Again(q.(request := p.request.(headers := p.request.headers + [h])))
  }

  function BodyStep(p: Parser, input: seq<Byte>): Move
    requires Inv(p, |input|) && p.Parsing?
  {
    if p.bodyOffset > SIZE_LIMIT - 1 - p.contentLength then Fail(BodyTooLarge)
    else if |input| < p.bodyOffset + p.contentLength then Return(p, Incomplete)
    else Finish(p, input)
  }

  /** A chunk size line; one that is too long reads as empty, hence as no number. */
  function ChunkHeadStep(p: Parser, input: seq<Byte>): Move
    requires Inv(p, |input|) && p.Parsing?
  {
    match ScanLine(input, p.lineStart, p.scan, 256)
    case LineOpen(i) => Waits(p, i)
    case LineLong => Fail(InvalidContentLength)
    case LineBad => Fail(InvalidLineEnding)
    case LineEnd(at) =>
      var line := input[p.lineStart..at];
      match ParseHex(line[..Find(line, 59, 0)])
      case None => Fail(InvalidContentLength)
      case Some(size) =>
        Again(After(p, at).(chunkSize := size, chunkBody := at + 2, phase := if size == 0 then ChunkTrailer else ChunkBody))
  }

  /** Sums of `size_t` wrap around. */
  function Wrap64(n: nat): (r: nat) { n % SIZE_LIMIT }

  /** A chunk and the two octets after it, whatever they are. A range beyond the input makes the copy throw. */
  function ChunkBodyStep(o: Options, p: Parser, input: seq<Byte>): Move
    requires Inv(p, |input|) && p.Parsing?
  {
    var end := Wrap64(p.chunkBody + p.chunkSize + 2);
    if |input| < end then Return(p, Incomplete)
    else if Wrap64(|p.request.body| + p.chunkSize) > o.maxBody then Fail(BodyTooLarge)
    else if p.chunkBody > |input| || p.chunkSize > |input| - p.chunkBody then Return(Broken, Threw)
    else
      var body := p.request.body + input[p.chunkBody..p.chunkBody + p.chunkSize];
      Again(p.(request := p.request.(body := body), scan := end, lineStart := end, phase := ChunkHead))
  }

  /** Trailer lines are skipped; one that is too long reads as empty, hence as the end. */
  function TrailerStep(o: Options, p: Parser, input: seq<Byte>): Move
    requires Inv(p, |input|) && p.Parsing?
  {
    match ScanLine(input, p.lineStart, p.scan, o.maxHeader)
    case LineOpen(i) => Waits(p, i)
    case LineLong => Again(p.(phase := ChunkEnd))
    case LineBad => Fail(InvalidLineEnding)
    case LineEnd(at) => Again(After(p, at).(phase := if at == p.lineStart then ChunkEnd else ChunkTrailer))
  }

  function Step(o: Options, p: Parser, input: seq<Byte>): (m: Move)
    requires Inv(p, |input|) && p.Parsing?
  {
    match p.phase
    case RequestLine => LineStep(o, p, input)
    case Headers => HeaderStep(o, p, input)
    case Body => BodyStep(p, input)
    case ChunkHead => ChunkHeadStep(p, input)
    case ChunkBody => ChunkBodyStep(o, p, input)
    case ChunkTrailer => TrailerStep(o, p, input)
    case ChunkEnd => Finish(p, input)
  }

  function Rank(p: Parser): nat {
    if p.Parsing? && p.phase == ChunkEnd then 0 else 1
  }

  /** Past the headers of a request. */
  predicate Late(p: Parser) { p.Parsing? && p.phase != RequestLine && p.phase != Headers }

  /** What a turn keeps: saved offsets stay in order and within the input; going round again gets
      further; completing uses up octets; a turn that waits changes nothing but the scan offset. */
  predicate Kept(p: Parser, m: Move, size: nat)
    requires p.Parsing?
  {
    && Inv(m.next, size)
    && match m
       case Again(q) =>
         && q.Parsing? && (Late(p) ==> Late(q))
         && (p.scan < q.scan || (p.scan == q.scan && Rank(q) < Rank(p)))
       case Return(q, Incomplete) => q.Parsing? && p.scan <= q.scan && q == p.(scan := q.scan)
       case Return(q, Complete(_, n)) => 0 < n <= size && q == START
       case Return(q, HeadersComplete(_)) =>
         && q.Parsing? && Late(q) && !Late(p)
       case Return(q, Error(e)) => q == Failed(e)
       case Return(q, Threw) => q == Broken
  }

  lemma LineKeeps(o: Options, p: Parser, input: seq<Byte>)
    requires Inv(p, |input|) && p.Parsing? && p.phase == RequestLine
    ensures Kept(p, LineStep(o, p, input), |input|)
  {
    hide ParseRequestLine;
  }

  lemma BlankKeeps(o: Options, p: Parser, input: seq<Byte>)
    requires p.Parsing? && 2 <= p.lineStart == p.scan <= |input| && p.phase == Headers
    ensures Inv(BlankStep(o, p, input).next, |input|)
    ensures match BlankStep(o, p, input)
            case Again(q) => q.Parsing? && q.scan == p.scan
            case Return(q, Complete(_, n)) => 0 < n <= |input| && q == START
            case Return(q, HeadersComplete(_)) => Late(q)
            case Return(q, Error(e)) => q == Failed(e)
            case _ => false
  {
    hide Finalize;
  }

  lemma HeaderKeeps(o: Options, p: Parser, input: seq<Byte>)
    requires Inv(p, |input|) && p.Parsing? && p.phase == Headers
    ensures Kept(p, HeaderStep(o, p, input), |input|)
  {
    hide ParseHeaderLine, BlankStep;
    var room := if p.headerBytes >= o.maxHeader then 0 else o.maxHeader - p.headerBytes;
    match ScanLine(input, p.lineStart, p.scan, room)
    case LineEnd(at) =>
      if at == p.lineStart {
        var q := After(p, at);
        BlankKeeps(o, q.(headerBytes := p.headerBytes + 2), input);
      }
    case _ =>
  }

  lemma ChunksKeep(o: Options, p: Parser, input: seq<Byte>)
    requires Inv(p, |input|) && p.Parsing? && Addressable(input)
    ensures p.phase == ChunkHead ==> Kept(p, ChunkHeadStep(p, input), |input|)
    ensures p.phase == ChunkBody ==> Kept(p, ChunkBodyStep(o, p, input), |input|)
    ensures p.phase == ChunkTrailer ==> Kept(p, TrailerStep(o, p, input), |input|)
  {
    hide ParseHex, Find, ScanLine;
  }

  lemma StepKeeps(o: Options, p: Parser, input: seq<Byte>)
    requires Inv(p, |input|) && p.Parsing? && Addressable(input)
    ensures Kept(p, Step(o, p, input), |input|)
  {
    hide LineStep, HeaderStep, ChunkHeadStep, ChunkBodyStep, TrailerStep;
    match p.phase
    case RequestLine => LineKeeps(o, p, input);
    case Headers => HeaderKeeps(o, p, input);
    case Body =>
    case ChunkHead => ChunksKeep(o, p, input);
    case ChunkBody => ChunksKeep(o, p, input);
    case ChunkTrailer => ChunksKeep(o, p, input);
    case ChunkEnd =>
  }

  /** The loop of Parse. */
  ghost function Loop(o: Options, p: Parser, input: seq<Byte>): (r: (Parser, Outcome))
    requires Inv(p, |input|) && p.Parsing? && Addressable(input)
    ensures Inv(r.0, |input|)
    ensures match r.1
            case Incomplete => r.0.Parsing?
            case Complete(_, n) => 0 < n <= |input| && r.0 == START
            case HeadersComplete(_) => Late(r.0) && !Late(p)
            case Error(e) => r.0 == Failed(e)
            case Threw => r.0 == Broken
    decreases |input| - p.scan, Rank(p)
  {
    StepKeeps(o, p, input);
    match Step(o, p, input)
    case Again(q) => Loop(o, q, input)
    case Return(q, outcome) => (q, outcome)
  }

  /** Parse, with its guard against an input shorter than the saved offsets. */
  ghost function Parse(o: Options, p: Parser, input: seq<Byte>): (r: (Parser, Outcome))
    requires Addressable(input) && (p.Parsing? && p.scan <= |input| ==> Inv(p, |input|))
  {
    match p
    case Failed(e) => (p, Error(e))
    case Broken => (p, Threw)
    case Parsing(_, _, lineStart, scan, _, _, _, _, _, _, _, _) =>
      if |input| < scan || |input| < lineStart then (Failed(InvalidRequestLine), Error(InvalidRequestLine))
      else Loop(o, p, input)
  }
}

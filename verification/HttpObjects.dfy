/** HttpRequestParser and HttpSession as objects whose fields change call by call; each method does what
    the functions of modules HttpParser and HttpSession say. */
module HttpObjects {
  import opened Bytes
  import opened Text
  import opened HttpText
  import opened Protocol
  import opened HttpParser
  import S = HttpSession

  /** FinalizeHeaders: the loop over the headers and the checks after it. */
  method FinalizeHeaders(o: Options, headers: seq<Header>) returns (t: Tally)
    ensures t == Finalize(o, headers)
  {
    hide Count;
    ghost var start := Tally(0, 0, 0, false, false, false);
    t := Tally(0, 0, 0, false, false, false);
    var i := 0;
    while i < |headers|
      invariant 0 <= i <= |headers| && t.Tally?
      invariant CountAll(start, headers) == CountAll(t, headers[i..])
    {
      assert headers[i..][1..] == headers[i + 1..];
      t := Count(t, headers[i]);
      i := i + 1;
      if t.Refused? {
        return;
      }
    }
    if t.hosts == 0 {
      return Refused(MissingHost);
    }
    if t.hosts > 1 {
      return Refused(DuplicateHost);
    }
    if t.lengths > 1 {
      return Refused(DuplicateContentLength);
    }
    if t.length > o.maxBody {
      return Refused(BodyTooLarge);
    }
  }

  class HttpRequestParser {
    const options: Options
    var phase: Phase
    var failure: Option<ParseError>
    var broken: bool
    var request: HttpRequest
    var lineStart: nat
    var scan: nat
    var headerBytes: nat
    var contentLength: nat
    var bodyOffset: nat
    var chunkSize: nat
    var chunkBody: nat
    var chunked: bool
    var expect_: bool
    var expectSent: bool

    ghost function Model(): Parser
      reads this
    {
      if broken then Broken
      else if failure.Some? then Failed(failure.value)
      else Parsing(phase, request, lineStart, scan, headerBytes, contentLength, bodyOffset, chunkSize, chunkBody,
                   chunked, expect_, expectSent)
    }

    ghost predicate Going(input: seq<Byte>)
      reads this
    {
      Model().Parsing? && Inv(Model(), |input|) && Addressable(input)
    }

    constructor (options: Options)
      ensures Model() == START && this.options == options
    {
      this.options := options;
      phase, failure, broken, request := RequestLine, None, false, NOTHING;
      lineStart, scan, headerBytes, contentLength, bodyOffset := 0, 0, 0, 0, 0;
      chunkSize, chunkBody, chunked, expect_, expectSent := 0, 0, false, false, false;
    }

    method Reset()
      requires Model().Parsing?
      modifies this
      ensures Model() == START
    {
      phase, request := RequestLine, NOTHING;
      lineStart, scan, headerBytes := 0, 0, 0;
      ResetFraming();
    }

    method ResetFraming()
      modifies this`contentLength, this`bodyOffset, this`chunkSize, this`chunkBody, this`chunked, this`expect_,
               this`expectSent
      ensures contentLength == bodyOffset == chunkSize == chunkBody == 0 && !chunked && !expect_ && !expectSent
    {
      contentLength, bodyOffset, chunkSize, chunkBody := 0, 0, 0, 0;
      chunked, expect_, expectSent := false, false, false;
    }

    method Refuse(e: ParseError) returns (r: Outcome)
      requires Model().Parsing?
      modifies this
      ensures Model() == Failed(e) && r == Error(e)
    {
      failure := Some(e);
      r := Error(e);
    }

    /** ReadLine: scans on from the saved offset and saves where it stopped. */
    method ReadLine(input: seq<Byte>, max: nat) returns (r: Line)
      requires lineStart <= scan <= |input|
      modifies this`scan, this`lineStart
      ensures r == ScanLine(input, old(lineStart), old(scan), max)
      ensures match r
              case LineOpen(i) => scan == i && lineStart == old(lineStart)
              case LineEnd(at) => scan == lineStart == at + 2
              case LineBad => scan == old(scan) && lineStart == old(lineStart)
              case LineLong => scan == old(scan) && lineStart == old(lineStart)
    {
      var index := scan;
      while index < |input|
        invariant scan <= index <= |input| && scan == old(scan) && lineStart == old(lineStart)
        invariant ScanLine(input, lineStart, index, max) == ScanLine(input, lineStart, scan, max)
      {
        var character := input[index];
        if character == LF {
          return LineBad;
        }
        if character == CR {
          if index + 1 >= |input| {
            scan := index;
            return LineOpen(index);
          }
          if input[index + 1] != LF {
            return LineBad;
          }
          if index - lineStart > max {
            return LineLong;
          }
          scan := index + 2;
          lineStart := scan;
          return LineEnd(index);
        }
        if index - lineStart + 1 > max {
          return LineLong;
        }
        index := index + 1;
      }
      scan := |input|;
      return LineOpen(|input|);
    }

    /** What a turn of the loop did, in terms of the step it stands for. */
    ghost predicate Took(m: Move, done: bool, r: Outcome)
      reads this
    {
      match m
      case Again(q) => !done && Model() == q
      case Return(q, outcome) => done && Model() == q && r == outcome
    }

    method TakeRequestLine(input: seq<Byte>) returns (done: bool, r: Outcome)
      requires Going(input) && phase == RequestLine
      modifies this
      ensures Took(LineStep(options, old(Model()), input), done, r)
    {
      hide ScanLine, ParseRequestLine;
      done, r := true, Incomplete;
      var start := lineStart;
      var line := ReadLine(input, options.maxLine);
      match line {
        case LineOpen(_) => return;
        case LineLong => r := Refuse(RequestLineTooLarge);
        case LineBad => r := Refuse(InvalidLineEnding);
        case LineEnd(at) =>
          var parsed := ParseRequestLine(input[start..at]);
          if parsed.BadLine? {
            r := Refuse(parsed.error);
            return;
          }
          request := request.(methodText := parsed.methodText, target := parsed.target,
                              path := parsed.path, query := parsed.query);
          phase := Headers;
          done := false;
      }
    }

    method FinishRequest(input: seq<Byte>) returns (r: Outcome)
      requires Model().Parsing? && (chunked || bodyOffset + contentLength <= |input|)
      modifies this
      ensures Took(Finish(old(Model()), input), true, r)
    {
      if contentLength != 0 && !chunked {
        request := request.(body := input[bodyOffset..bodyOffset + contentLength]);
      }
      r := Complete(request, if chunked then scan else bodyOffset + contentLength);
      Reset();
    }

    /** The framing found in the headers takes effect; `ask` if 100 Continue is due. */
    method EnterBody(t: Tally) returns (ask: bool)
      requires t.Tally?
      modifies this`contentLength, this`chunked, this`expect_, this`request, this`bodyOffset, this`expectSent, this`phase
      ensures contentLength == t.length && chunked == t.chunked && expect_ == t.expect_ && bodyOffset == scan
      ensures request == old(request).(keepAlive := !t.close) && phase == (if t.chunked then ChunkHead else Body)
      ensures ask == (t.expect_ && !old(expectSent)) && expectSent == (old(expectSent) || ask)
    {
      contentLength, chunked, expect_ := t.length, t.chunked, t.expect_;
      request := request.(keepAlive := !t.close);
      bodyOffset := scan;
      ask := expect_ && !expectSent;
      if ask {
        expectSent := true;
      }
      phase := if chunked then ChunkHead else Body;
    }

    method TakeBlank(input: seq<Byte>) returns (done: bool, r: Outcome)
      requires Model().Parsing? && scan <= |input|
      modifies this
      ensures Took(BlankStep(options, old(Model()), input), done, r)
    {
      hide Finalize, Finish;
      done := true;
      var t := FinalizeHeaders(options, request.headers);
      if t.Refused? {
        r := Refuse(t.error);
        return;
      }
      var ask := EnterBody(t);
      if !chunked && contentLength == 0 {
        r := FinishRequest(input);
      } else if ask {
        r := HeadersComplete(scan);
      } else {
        done, r := false, Incomplete;
      }
    }

    method TakeHeader(input: seq<Byte>) returns (done: bool, r: Outcome)
      requires Going(input) && phase == Headers
      modifies this
      ensures Took(HeaderStep(options, old(Model()), input), done, r)
    {
      hide ScanLine, ParseHeaderLine, BlankStep;
      done, r := true, Incomplete;
      var start := lineStart;
      var room := if headerBytes >= options.maxHeader then 0 else options.maxHeader - headerBytes;
      var line := ReadLine(input, room);
      match line {
        case LineOpen(_) => return;
        case LineLong => r := Refuse(HeaderTooLarge);
        case LineBad => r := Refuse(InvalidLineEnding);
        case LineEnd(at) =>
          var text := input[start..at];
          if |text| + 2 > room {
            r := Refuse(HeaderTooLarge);
            return;
          }
          headerBytes := headerBytes + |text| + 2;
          if text == [] {
            done, r := TakeBlank(input);
            return;
          }
          if |request.headers| >= options.maxCount {
            r := Refuse(TooManyHeaders);
            return;
          }
          var parsed := ParseHeaderLine(text);
          if parsed.None? {
            r := Refuse(InvalidHeader);
            return;
          }
          request := request.(headers := request.headers + [parsed.value]);
          done := false;
      }
    }

    method TakeBody(input: seq<Byte>) returns (done: bool, r: Outcome)
      requires Going(input) && phase == Body
      modifies this
      ensures Took(BodyStep(old(Model()), input), done, r)
    {
      hide Finish;
      done, r := true, Incomplete;
      if bodyOffset > SIZE_LIMIT - 1 - contentLength {
        r := Refuse(BodyTooLarge);
        return;
      }
      if |input| < bodyOffset + contentLength {
        return;
      }
      r := FinishRequest(input);
    }

    method TakeChunkHead(input: seq<Byte>) returns (done: bool, r: Outcome)
      requires Going(input) && phase == ChunkHead
      modifies this
      ensures Took(ChunkHeadStep(old(Model()), input), done, r)
    {
      hide ScanLine, ParseHex, Find;
      done, r := true, Incomplete;
      var start := lineStart;
      var line := ReadLine(input, 256);
      match line {
        case LineOpen(_) => return;
        case LineBad => r := Refuse(InvalidLineEnding);
        case LineLong => r := Refuse(InvalidContentLength);
        case LineEnd(at) =>
          var text := input[start..at];
          var size := ParseHexSize(text[..Find(text, 59, 0)]);
          if size.None? {
            r := Refuse(InvalidContentLength);
            return;
          }
          chunkSize, chunkBody := size.value, scan;
          phase := if chunkSize == 0 then ChunkTrailer else ChunkBody;
          done := false;
      }
    }

    method TakeChunkBody(input: seq<Byte>) returns (done: bool, r: Outcome)
      requires Going(input) && phase == ChunkBody
      modifies this
      ensures Took(ChunkBodyStep(options, old(Model()), input), done, r)
    {
      done, r := true, Incomplete;
      var end := Wrap64(chunkBody + chunkSize + 2);
      if |input| < end {
        return;
      }
      if Wrap64(|request.body| + chunkSize) > options.maxBody {
        r := Refuse(BodyTooLarge);
        return;
      }
      if chunkBody > |input| || chunkSize > |input| - chunkBody {
        broken := true;
        r := Threw;
        return;
      }
      request := request.(body := request.body + input[chunkBody..chunkBody + chunkSize]);
      scan := end;
      lineStart := scan;
      phase := ChunkHead;
      done := false;
    }

    method TakeTrailer(input: seq<Byte>) returns (done: bool, r: Outcome)
      requires Going(input) && phase == ChunkTrailer
      modifies this
      ensures Took(TrailerStep(options, old(Model()), input), done, r)
    {
      hide ScanLine;
      done, r := true, Incomplete;
      var start := lineStart;
      var line := ReadLine(input, options.maxHeader);
      if line.LineOpen? {
        return;
      }
      if line.LineBad? {
        r := Refuse(InvalidLineEnding);
        return;
      }
      if line.LineLong? || line.at == start {
        phase := ChunkEnd;
      }
      done := false;
    }

    method TakeStep(input: seq<Byte>) returns (done: bool, r: Outcome)
      requires Going(input)
      modifies this
      ensures Took(Step(options, old(Model()), input), done, r)
    {
      hide LineStep, HeaderStep, BodyStep, ChunkHeadStep, ChunkBodyStep, TrailerStep, Finish;
      match phase {
        case RequestLine => done, r := TakeRequestLine(input);
        case Headers => done, r := TakeHeader(input);
        case Body => done, r := TakeBody(input);
        case ChunkHead => done, r := TakeChunkHead(input);
        case ChunkBody => done, r := TakeChunkBody(input);
        case ChunkTrailer => done, r := TakeTrailer(input);
        case ChunkEnd =>
          r := FinishRequest(input);
          done := true;
      }
    }

    method ParseInput(input: seq<Byte>) returns (r: Outcome)
      requires Addressable(input) && (Model().Parsing? && scan <= |input| ==> Inv(Model(), |input|))
      modifies this
      ensures (Model(), r) == Parse(options, old(Model()), input)
    {
      hide Step;
      if broken {
        return Threw;
      }
      if failure.Some? {
        return Error(failure.value);
      }
      if |input| < scan || |input| < lineStart {
        r := Refuse(InvalidRequestLine);
        return;
      }
      var done := false;
      r := Incomplete;
      while !done
        invariant if done then (Model(), r) == Loop(options, old(Model()), input)
                  else Going(input) && Loop(options, Model(), input) == Loop(options, old(Model()), input)
        decreases !done, if done then 0 else |input| - scan, Rank(Model())
      {
        StepKeeps(options, Model(), input);
        done, r := TakeStep(input);
      }
    }
  }

  class HttpSessionObject {
    const config: S.Config
    const env: S.Env
    const parser: HttpRequestParser
    var buffer: seq<Byte>
    var dispatched: nat
    var nextId: nat
    var stopped: bool
    var lastError: Option<ParseError>
    /** Responses sent and requests dispatched since the connection began. */
    var log: seq<S.Event>

    ghost predicate Valid()
      reads this, parser
    {
      parser.options == config.parser && config.maxBuffer < SIZE_LIMIT / 2 && (stopped || S.Ok(Model(), buffer))
    }

    ghost function Model(): S.Session
      reads this, parser
    {
      S.Session(config, parser.Model(), dispatched, nextId, stopped, lastError)
    }

    constructor (config: S.Config, env: S.Env)
      requires config.maxBuffer < SIZE_LIMIT / 2
      ensures Valid() && fresh(parser) && this.env == env
      ensures Model() == S.Fresh(config) && buffer == [] && log == []
    {
      this.config, this.env := config, env;
      parser := new HttpRequestParser(config.parser);
      buffer, dispatched, nextId, stopped, lastError, log := [], 0, 1, false, None, [];
    }

    /** PostErrorResponse. */
    method PostError(code: nat, otherwise: Status) returns (status: Status)
      modifies this`log
      ensures log == old(log) + [S.PostedError(code, env.post)] && status == S.FeedStatus(env.post, otherwise)
    {
      log := log + [S.PostedError(code, env.post)];
      status := S.FeedStatus(env.post, otherwise);
    }

    /** What a turn of the loop did, in terms of the turn it stands for; `sent` counts an accepted request. */
    ghost predicate Took(t: S.Turn, before: seq<S.Event>, octets: seq<Byte>, done: bool, sent: nat, status: Status)
      requires !t.Wait? ==> t.used <= |octets|
      reads this, parser
    {
      Model() == t.s &&
      match t
      case Wait(_) => done && status == Ready && buffer == octets && log == before && sent == 0
      case Go(_, used, event) => !done && buffer == octets[used..] && log == before + [event] && sent == S.Counts(event)
      case Stop(_, used, stop, event) =>
        done && status == stop && buffer == octets[used..] && log == before + [event] && sent == S.Counts(event)
    }

    method DeliverRequest(request: HttpRequest, used: nat) returns (done: bool, sent: nat, status: Status)
      requires used <= |buffer| && !stopped
      modifies this
      ensures Took(S.Deliver(old(Model()), env, request, used), old(log), old(buffer), done, sent, status)
    {
      buffer := buffer[used..];
      var close := !request.keepAlive || dispatched + 1 >= config.maxRequests;
      var answer := env.dispatch(dispatched);
      log := log + [S.Dispatched(nextId, request, close, answer)];
      dispatched, nextId := dispatched + 1, nextId + 1;
      if answer != Accepted {
        stopped := true;
        return true, 0, S.FeedStatus(answer, Ready);
      }
      if close {
        stopped := true;
        return true, 1, Ready;
      }
      return false, 1, Ready;
    }

    method TakeTurn() returns (done: bool, sent: nat, status: Status)
      requires Valid() && !stopped
      modifies this, parser
      ensures Valid()
      ensures Took(S.TurnOf(old(Model()), env, old(buffer)), old(log), old(buffer), done, sent, status)
    {
      hide Loop, S.StatusCode, S.FeedStatus;
      assert buffer[0..] == buffer;
      var r := parser.ParseInput(buffer);
      match r {
        case Incomplete => return true, 0, Ready;
        case HeadersComplete(_) =>
          log := log + [S.SentContinue];
          return false, 0, Ready;
        case Error(e) =>
          stopped, lastError := true, Some(e);
          status := PostError(S.StatusCode(e), ProtocolError);
          done, sent := true, 0;
        case Threw =>
          stopped := true;
          log := log + [S.Raised];
          return true, 0, ProtocolError;
        case Complete(request, n) => done, sent, status := DeliverRequest(request, n);
      }
    }

    method Feed(bytes: seq<Byte>) returns (result: FeedResult)
      requires Valid()
      modifies this, parser
      ensures Valid()
      ensures var r := S.Feed(old(Model()), env, old(buffer), bytes);
              Model() == r.s && buffer == r.buffer && result == S.Result(r) && log == old(log) + r.events
    {
      hide S.TurnOf, S.FeedStatus;
      if stopped {
        return FeedResult(FeedStopped, 0, |buffer|);
      }
      var status: Status;
      if |buffer| + |bytes| > config.maxBuffer {
        stopped := true;
        status := PostError(413, BufferLimit);
        S.AcceptedLast([], S.PostedError(413, env.post));
        assert [] + [S.PostedError(413, env.post)] == [S.PostedError(413, env.post)];
        return FeedResult(status, 0, |buffer|);
      }
      buffer := buffer + bytes;
      var count;
      status, count := DrainBuffer();
      result := FeedResult(status, count, |buffer|);
    }

    /** The loop of Feed. */
    method DrainBuffer() returns (status: Status, count: nat)
      requires Valid() && !stopped
      modifies this, parser
      ensures Valid()
      ensures var r := S.Drain(old(Model()), env, old(buffer));
              && Model() == r.s && buffer == r.buffer && status == r.status && count == S.AcceptedIn(r.events)
              && log == old(log) + r.events
    {
      hide S.TurnOf, S.AcceptedIn, S.Counts;
      ghost var whole := S.Drain(Model(), env, buffer);
      ghost var did: seq<S.Event> := [];
      S.NoEvents(whole);
      var done := false;
      status, count := Ready, 0;
      assert S.AcceptedIn([]) == 0 by { NothingAccepted(); }
      while !done
        invariant Valid() && (!done ==> !stopped)
        invariant if done then S.Drained(Model(), buffer, status, did) == whole
                  else var rest := S.Drain(Model(), env, buffer); whole == rest.(events := did + rest.events)
        invariant log == old(log) + did && count == S.AcceptedIn(did)
        decreases !done, |buffer|, S.Early(Model())
      {
        ghost var t := S.TurnOf(Model(), env, buffer);
        var sent;
        done, sent, status := TakeTurn();
        count := count + sent;
        if !t.Wait? {
          if t.Go? {
            Assoc(did, [t.event], S.Drain(Model(), env, buffer).events);
          }
          S.AcceptedLast(did, t.event);
          did := did + [t.event];
        } else {
          assert did + [] == did;
        }
      }
    }
  }

  lemma NothingAccepted()
    ensures S.AcceptedIn([]) == 0
  {
  }
}

/** Pipelined canonical requests are dispatched as they were written. */
module HttpRoundTrip {
  import opened Bytes
  import opened Text
  import opened HttpText
  import opened HttpParser
  import opened HttpSplit
  import opened HttpFields
  import opened HttpPrint

  ghost predicate Runs(p: Parser, data: seq<Byte>) {
    p.Parsing? && Inv(p, |data|) && Addressable(data)
  }

  /** The parser is at the beginning of a line. */
  ghost predicate AtLine(p: Parser, data: seq<Byte>) {
    Runs(p, data) && p.scan == p.lineStart
  }

  ghost function AfterLine(m: Message): (q: Parser)
    ensures q.Parsing?
  {
    var r := Meaning(m);
    START.(scan := START.scan + |RequestLineOf(m)| + 2, lineStart := START.scan + |RequestLineOf(m)| + 2, phase := Headers,
      request := NOTHING.(methodText := r.methodText, target := r.target, path := r.path, query := r.query))
  }

  /** A parse, and whether it met an over-long trailer line. */
  ghost function Whole(o: Options, p: Parser, data: seq<Byte>): (Parser, Outcome, bool)
    requires Runs(p, data)
  {
    var r := Loop(o, p, data);
    (r.0, r.1, MeetsLongTrailer(o, p, data))
  }

  lemma LoopAgain(o: Options, p: Parser, q: Parser, data: seq<Byte>)
    requires Runs(p, data) && Step(o, p, data) == Again(q) && !LongTrailer(o, p, data)
    ensures Runs(q, data) && Whole(o, p, data) == Whole(o, q, data)
  {
    hide Step;
    StepKeeps(o, p, data);
  }

  lemma LineTaken(o: Options, m: Message, data: seq<Byte>)
    requires AtLine(START, data) && Canonical(m) && WithinLimits(o, m) && At(data, 0, RequestLineOf(m) + EOL)
    ensures AtLine(AfterLine(m), data)
    ensures Whole(o, START, data) == Whole(o, AfterLine(m), data)
  {
    hide RequestLineOf, Meaning, ParseRequestLine, ScanLine, Canonical, PrintHeaders, AllHeaders, OneLine, Ascii,
         Whole, At;
    RequestLineRead(m);
    RequestLineOne(m);
    ReadsLine(data, 0, RequestLineOf(m), o.maxLine);
    assert LineStep(o, START, data) == Again(AfterLine(m));
    LoopAgain(o, START, AfterLine(m), data);
  }

  function WithHeaders(p: Parser, hs: seq<Header>): (q: Parser)
    requires p.Parsing?
    ensures q.Parsing?
  {
    var n := |PrintHeaders(hs)|;
    p.(scan := p.scan + n, lineStart := p.scan + n, headerBytes := p.headerBytes + n,
       request := p.request.(headers := p.request.headers + AllRead(hs)))
  }

  lemma HeaderTaken(o: Options, p: Parser, data: seq<Byte>, h: Header)
    requires AtLine(p, data) && p.phase == Headers && At(data, p.scan, HeaderLine(h) + EOL) && CanonicalHeader(h)
    requires p.headerBytes + |HeaderLine(h)| + 2 <= o.maxHeader && |p.request.headers| < o.maxCount
    ensures var n := |HeaderLine(h)| + 2;
            var q := p.(scan := p.scan + n, lineStart := p.scan + n, headerBytes := p.headerBytes + n,
                        request := p.request.(headers := p.request.headers + [AsRead(h)]));
            AtLine(q, data) && Step(o, p, data) == Again(q)
  {
    hide HeaderLine, ParseHeaderLine, ScanLine, CanonicalHeader, BlankStep;
    HeaderLineRead(h);
    ReadsLine(data, p.scan, HeaderLine(h), o.maxHeader - p.headerBytes);
  }

  lemma OneHeaderMore(p: Parser, q: Parser, hs: seq<Header>)
    requires p.Parsing? && hs != []
    requires var n := |HeaderLine(hs[0])| + 2;
             q == p.(scan := p.scan + n, lineStart := p.scan + n, headerBytes := p.headerBytes + n,
                     request := p.request.(headers := p.request.headers + [AsRead(hs[0])]))
    ensures WithHeaders(q, hs[1..]) == WithHeaders(p, hs)
  {
    hide HeaderLine, AsRead, AllRead;
    Assoc(p.request.headers, [AsRead(hs[0])], AllRead(hs[1..]));
    FirstRead(hs);
  }

  lemma FirstRead(hs: seq<Header>)
    requires hs != []
    ensures AllRead(hs) == [AsRead(hs[0])] + AllRead(hs[1..])
  {
    hide AsRead;
  }

  lemma {:induction false} HeadersTaken(o: Options, p: Parser, data: seq<Byte>, hs: seq<Header>)
    requires AtLine(p, data) && p.phase == Headers && At(data, p.scan, PrintHeaders(hs))
    requires forall i :: 0 <= i < |hs| ==> CanonicalHeader(hs[i])
    requires p.headerBytes + |PrintHeaders(hs)| <= o.maxHeader && |p.request.headers| + |hs| <= o.maxCount
    ensures AtLine(WithHeaders(p, hs), data)
    ensures Whole(o, p, data) == Whole(o, WithHeaders(p, hs), data)
    decreases |hs|
  {
    hide HeaderLine, CanonicalHeader, Step, Lowered;
    if hs == [] {
      assert p.request.headers + AllRead([]) == p.request.headers;
      assert WithHeaders(p, hs) == p;
    } else {
      var h, rest := hs[0], hs[1..];
      var n := |HeaderLine(h)| + 2;
      AtSplit(data, p.scan, HeaderLine(h) + EOL, PrintHeaders(rest));
      HeaderTaken(o, p, data, h);
      var q := p.(scan := p.scan + n, lineStart := p.scan + n, headerBytes := p.headerBytes + n,
                  request := p.request.(headers := p.request.headers + [AsRead(h)]));
      HeadersTaken(o, q, data, rest);
      OneHeaderMore(p, q, hs);
    }
  }

  /** The empty line after the headers. */
  lemma BlankTaken(o: Options, p: Parser, data: seq<Byte>)
    requires AtLine(p, data) && p.phase == Headers && At(data, p.scan, EOL) && p.headerBytes + 2 <= o.maxHeader
    ensures var q := p.(scan := p.scan + 2, lineStart := p.scan + 2, headerBytes := p.headerBytes + 2);
            q.scan <= |data| && Step(o, p, data) == BlankStep(o, q, data)
  {
    hide ScanLine, BlankStep, ParseHeaderLine;
    assert [] + EOL == EOL;
    ReadsLine(data, p.scan, [], o.maxHeader - p.headerBytes);
  }

  // ---- bodies ----

  lemma BodyTaken(o: Options, p: Parser, data: seq<Byte>, body: seq<Byte>)
    requires Runs(p, data) && p.phase == Body && !p.chunked
    requires p.contentLength == |body| > 0 && At(data, p.bodyOffset, body)
    ensures Whole(o, p, data) == (START, Complete(p.request.(body := body), p.bodyOffset + |body|), false)
  {
  }

  lemma ChunkLine(n: nat)
    requires n < SIZE_LIMIT
    ensures OneLine(Hex(n)) && Find(Hex(n), 59, 0) == |Hex(n)| <= 256
    ensures Hex(n)[..|Hex(n)|] == Hex(n) && ParseHex(Hex(n)) == Some(n)
  {
    forall i | 0 <= i < |Hex(n)| ensures Hex(n)[i] != CR && Hex(n)[i] != LF && Hex(n)[i] != 59 {
      assert HexDigit(Hex(n)[i]).Some?;
    }
    NotFound(Hex(n), 59, 0);
    HexRoundTrip(n);
    SizeIsPow2();
    HexLength(n, 16);
  }

  /** The parser past a chunk size. */
  function InChunk(p: Parser, size: nat): (q: Parser)
    requires p.Parsing?
    ensures q.Parsing?
  {
    var head := |Hex(size)| + 2;
    p.(scan := p.scan + head, lineStart := p.scan + head, chunkSize := size, chunkBody := p.scan + head,
       phase := if size == 0 then ChunkTrailer else ChunkBody)
  }

  /** The parser past a chunk, given where it stood before its octets, or before its size. */
  function PastChunk(p: Parser, chunk: seq<Byte>): (q: Parser)
    requires p.Parsing?
    ensures q.Parsing?
  {
    var end := p.scan + |chunk| + 2;
    p.(scan := end, lineStart := end, phase := ChunkHead, request := p.request.(body := p.request.body + chunk))
  }

  function WithChunk(p: Parser, chunk: seq<Byte>): (q: Parser)
    requires p.Parsing?
    ensures q.Parsing?
  {
    PastChunk(InChunk(p, |chunk|), chunk)
  }

  lemma ChunkHeadTaken(o: Options, p: Parser, data: seq<Byte>, size: nat)
    requires AtLine(p, data) && p.phase == ChunkHead && size < SIZE_LIMIT && At(data, p.scan, Hex(size) + EOL)
    ensures AtLine(InChunk(p, size), data) && Whole(o, p, data) == Whole(o, InChunk(p, size), data)
  {
    hide Hex, ScanLine, ParseHex, Find, OneLine, Whole, At;
    ChunkLine(size);
    ReadsLine(data, p.scan, Hex(size), 256);
    assert ChunkHeadStep(p, data) == Again(InChunk(p, size));
    LoopAgain(o, p, InChunk(p, size), data);
  }

  lemma ChunkTaken(o: Options, p: Parser, data: seq<Byte>, chunk: seq<Byte>)
    requires AtLine(p, data) && p.phase == ChunkHead && chunk != []
    requires ChunkAt(data, p.scan, chunk) && |p.request.body| + |chunk| <= o.maxBody
    requires |p.request.body| < SIZE_LIMIT / 2
    ensures AtLine(WithChunk(p, chunk), data)
    ensures Whole(o, p, data) == Whole(o, WithChunk(p, chunk), data)
  {
    hide Hex, Whole, At, Inv, PastChunk, ChunkAt;
    ChunkParts(data, p.scan, chunk);
    ChunkHeadTaken(o, p, data, |chunk|);
    ChunkBodyTaken(o, InChunk(p, |chunk|), data, chunk);
  }

  predicate ChunkAt(data: seq<Byte>, at: nat, chunk: seq<Byte>) {
    At(data, at, Hex(|chunk|) + EOL + chunk + EOL)
  }

  lemma ChunkParts(data: seq<Byte>, at: nat, chunk: seq<Byte>)
    requires ChunkAt(data, at, chunk)
    ensures var head := Hex(|chunk|) + EOL;
            && At(data, at, head) && At(data, at + |head|, chunk)
            && |head| == |Hex(|chunk|)| + 2 && at + |head| + |chunk| + 2 <= |data|
  {
    hide Hex;
    var head := Hex(|chunk|) + EOL;
    AtSplit(data, at, head + chunk, EOL);
    AtSplit(data, at, head, chunk);
  }

  lemma ChunkBodyTaken(o: Options, p: Parser, data: seq<Byte>, chunk: seq<Byte>)
    requires AtLine(p, data) && p.phase == ChunkBody && p.chunkSize == |chunk| && At(data, p.scan, chunk)
    requires p.scan + |chunk| + 2 <= |data| && |p.request.body| + |chunk| <= o.maxBody && |p.request.body| < SIZE_LIMIT / 2
    ensures AtLine(PastChunk(p, chunk), data) && Whole(o, p, data) == Whole(o, PastChunk(p, chunk), data)
  {
    hide Whole;
    var q := PastChunk(p, chunk);
    assert Wrap64(p.chunkBody + p.chunkSize + 2) == q.scan;
    assert ChunkBodyStep(o, p, data) == Again(q);
    LoopAgain(o, p, q, data);
  }

  lemma EmptyTrailerTaken(o: Options, p: Parser, data: seq<Byte>)
    requires AtLine(p, data) && p.phase == ChunkTrailer && At(data, p.scan, EOL)
    ensures Whole(o, p, data) == (START, Complete(p.request, p.scan + 2), false)
  {
    hide ScanLine, Whole;
    assert [] + EOL == EOL;
    ReadsLine(data, p.scan, [], o.maxHeader);
    var q := p.(scan := p.scan + 2, lineStart := p.scan + 2, phase := ChunkEnd);
    assert TrailerStep(o, p, data) == Again(q);
    LoopAgain(o, p, q, data);
    LoopEnds(o, q, data);
  }

  lemma LoopEnds(o: Options, p: Parser, data: seq<Byte>)
    requires Runs(p, data) && p.phase == ChunkEnd
    ensures Whole(o, p, data) == (START, Complete(p.request, p.scan), false)
  {
  }

  /** The last chunk and the empty trailer. */
  lemma LastChunkTaken(o: Options, p: Parser, data: seq<Byte>)
    requires AtLine(p, data) && p.phase == ChunkHead && At(data, p.scan, [48] + EOL + EOL)
    ensures Whole(o, p, data) == (START, Complete(p.request, p.scan + 5), false)
  {
    hide Whole;
    assert Hex(0) == [48];
    AtSplit(data, p.scan, [48] + EOL, EOL);
    ChunkHeadTaken(o, p, data, 0);
    EmptyTrailerTaken(o, InChunk(p, 0), data);
  }

  lemma {:induction false} ChunksTaken(o: Options, p: Parser, data: seq<Byte>, chunks: seq<seq<Byte>>)
    requires AtLine(p, data) && p.phase == ChunkHead && At(data, p.scan, PrintChunks(chunks))
    requires forall i :: 0 <= i < |chunks| ==> chunks[i] != []
    requires |p.request.body| + |Flatten(chunks)| <= o.maxBody && |p.request.body| + |Flatten(chunks)| < SIZE_LIMIT / 2
    ensures Whole(o, p, data) ==
            (START, Complete(p.request.(body := p.request.body + Flatten(chunks)), p.scan + |PrintChunks(chunks)|), false)
    decreases |chunks|
  {
    hide Hex, Whole;
    if chunks == [] {
      LastChunkTaken(o, p, data);
      assert p.request.body + [] == p.request.body;
    } else {
      var chunk, rest := chunks[0], chunks[1..];
      var head := Hex(|chunk|) + EOL + chunk + EOL;
      AtSplit(data, p.scan, head, PrintChunks(rest));
      ChunkTaken(o, p, data, chunk);
      ChunksTaken(o, WithChunk(p, chunk), data, rest);
      Assoc(p.request.body, chunk, Flatten(rest));
    }
  }

  // ---- a whole request ----

  /** Whether the client waits for 100 Continue before the body. */
  ghost predicate Asks(m: Message) {
    Expects(m.headers) && (m.framing.InChunks? || (m.framing.WithLength? && m.body != []))
  }

  ghost function AfterHeaders(m: Message): (q: Parser)
    ensures q.Parsing?
  {
    WithHeaders(AfterLine(m), AllHeaders(m))
  }

  /** The parser after the empty line, when a body follows. */
  ghost function BeforeBody(m: Message): (q: Parser)
    ensures q.Parsing?
  {
    var p := AfterHeaders(m);
    p.(scan := p.scan + 2, lineStart := p.scan + 2, headerBytes := p.headerBytes + 2,
       contentLength := if m.framing.WithLength? then |m.body| else 0, chunked := m.framing.InChunks?,
       expect_ := Expects(m.headers), expectSent := Expects(m.headers), bodyOffset := p.scan + 2,
       request := p.request.(keepAlive := !Closes(m.headers)),
       phase := if m.framing.InChunks? then ChunkHead else Body)
  }

  function Head(m: Message): seq<Byte> {
    RequestLineOf(m) + EOL + PrintHeaders(AllHeaders(m)) + EOL
  }

  lemma HeadTaken(o: Options, m: Message, data: seq<Byte>)
    requires AtLine(START, data) && Canonical(m) && WithinLimits(o, m) && At(data, 0, Head(m))
    requires |m.body| < SIZE_LIMIT / 2
    ensures AtLine(AfterHeaders(m), data) && Whole(o, START, data) == Whole(o, AfterHeaders(m), data)
    ensures At(data, AfterHeaders(m).scan, EOL)
  {
    hide RequestLineOf, Meaning, Canonical, PrintHeaders, AllHeaders, Whole, CanonicalHeader;
    AtSplit(data, 0, RequestLineOf(m) + EOL + PrintHeaders(AllHeaders(m)), EOL);
    AtSplit(data, 0, RequestLineOf(m) + EOL, PrintHeaders(AllHeaders(m)));
    LineTaken(o, m, data);
    HeadersCanonical(m);
    HeadersTaken(o, AfterLine(m), data, AllHeaders(m));
  }

  predicate HasBody(m: Message) {
    m.framing.InChunks? || (m.framing.WithLength? && m.body != [])
  }

  lemma HeadSize(m: Message)
    ensures AfterHeaders(m).scan + 2 == |Head(m)| && |Print(m)| == |Head(m)| + |PrintBody(m)|
    ensures Print(m) == Head(m) + PrintBody(m)
  {
    hide RequestLineOf, PrintHeaders, AllHeaders, PrintBody, Meaning;
  }

  lemma RequestRead(m: Message)
    ensures var r := AfterHeaders(m).request;
            r == Meaning(m).(body := [], keepAlive := true)
    ensures Meaning(m).body == m.body && Meaning(m).keepAlive == !Closes(m.headers)
  {
    hide RequestLineOf, PrintHeaders, AllHeaders, Closes, Find;
    assert [] + AllRead(AllHeaders(m)) == AllRead(AllHeaders(m));
  }

  /** After the empty line: done, or waiting for leave to send, or on to the body. */
  lemma BlankOutcome(o: Options, m: Message, data: seq<Byte>)
    requires AtLine(START, data) && Canonical(m) && WithinLimits(o, m) && At(data, 0, Head(m))
    requires |m.body| < SIZE_LIMIT / 2
    ensures Runs(AfterHeaders(m), data)
    ensures Step(o, AfterHeaders(m), data) ==
            if !HasBody(m) then Return(START, Complete(Meaning(m), |Head(m)|))
            else if Asks(m) then Return(BeforeBody(m), HeadersComplete(|Head(m)|))
            else Again(BeforeBody(m))
  {
    hide RequestLineOf, PrintHeaders, AllHeaders, AllRead, Closes, Expects, Meaning, Finalize, AfterHeaders,
         Canonical, Head,
         At, Step;
    HeadTaken(o, m, data);
    HeadSize(m);
    RequestRead(m);
    var p := AfterHeaders(m);
    assert p.phase == Headers && p.headerBytes + 2 <= o.maxHeader && !p.expectSent && p.request.headers == AllRead(AllHeaders(m)) by {
      HeadersState(m);
    }
    BlankTaken(o, p, data);
    FinalizeRead(o, m);
    BodyFacts(m);
  }

  lemma BodyFacts(m: Message)
    requires Canonical(m)
    ensures m.framing.Bare? ==> m.body == []
    ensures m.framing.InChunks? ==>
              m.body == Flatten(m.framing.chunks) && forall i :: 0 <= i < |m.framing.chunks| ==> m.framing.chunks[i] != []
  {
    hide IsToken, OneLine, Hosts, UserHeader, CanonicalHeader, Lists, Lowered, Ascii;
  }

  lemma HeadersState(m: Message)
    ensures var p := AfterHeaders(m);
            p.phase == Headers && p.headerBytes == |PrintHeaders(AllHeaders(m))| && !p.expectSent && p.request.headers == AllRead(AllHeaders(m))
  {
    hide RequestLineOf, PrintHeaders, AllHeaders, Meaning;
    assert [] + AllRead(AllHeaders(m)) == AllRead(AllHeaders(m));
  }

  lemma BodyRead(o: Options, m: Message, data: seq<Byte>)
    requires AtLine(BeforeBody(m), data) && Canonical(m) && WithinLimits(o, m) && HasBody(m)
    requires |m.body| < SIZE_LIMIT / 2 && At(data, |Head(m)|, PrintBody(m))
    ensures Whole(o, BeforeBody(m), data) == (START, Complete(Meaning(m), |Print(m)|), false)
  {
    hide RequestLineOf, PrintHeaders, AllHeaders, AllRead, Closes, Expects, Meaning, Canonical, Head, At, Whole,
         PrintChunks;
    BodyFacts(m);
    HeadSize(m);
    RequestRead(m);
    var p := BeforeBody(m);
    if m.framing.InChunks? {
      ChunksTaken(o, p, data, m.framing.chunks);
      assert [] + m.body == m.body;
    } else {
      BodyTaken(o, p, data, m.body);
    }
  }

  /** Octets that begin with a printed message are read as that message, exactly to its end; a message
      that asks for 100 Continue is announced first and read on from there. */
  ghost predicate ReadsBack(o: Options, m: Message, data: seq<Byte>) {
    hide Whole, Head, Print, Meaning, BeforeBody, Asks;
    var done := (START, Complete(Meaning(m), |Print(m)|), false);
    && Runs(START, data)
    && if Asks(m) then
         && Runs(BeforeBody(m), data)
         && Whole(o, START, data) == (BeforeBody(m), HeadersComplete(|Head(m)|), false)
         && Whole(o, BeforeBody(m), data) == done
       else Whole(o, START, data) == done
  }

  /** A written request, whatever follows it, is read back as it was meant and its octets used up; a
      client that asks gets its 100 Continue first. */
  lemma RequestRoundTrip(o: Options, m: Message, rest: seq<Byte>)
    requires Canonical(m) && WithinLimits(o, m) && |m.body| < SIZE_LIMIT / 2 && Addressable(Print(m) + rest)
    ensures ReadsBack(o, m, Print(m) + rest)
  {
    hide Canonical, WithinLimits, Whole, Head, PrintBody, Meaning, AfterHeaders, BeforeBody;
    var data := Print(m) + rest;
    HeadSize(m);
    PrintedAt(Head(m), PrintBody(m), rest);
    assert Print(m) + rest == Head(m) + PrintBody(m) + rest;
    assert AtLine(START, data);
    HeadTaken(o, m, data);
    BlankOutcome(o, m, data);
    var p := AfterHeaders(m);
    StepKeeps(o, p, data);
    HeadersState(m);
    BlankWhole(o, p, data);
    if HasBody(m) {
      BodyAtLine(o, m, data);
      BodyRead(o, m, data);
    } else {
      NoBody(m);
    }
  }

  lemma NoBody(m: Message)
    requires Canonical(m) && !HasBody(m)
    ensures |Print(m)| == |Head(m)|
  {
    hide RequestLineOf, PrintHeaders, AllHeaders;
    HeadSize(m);
  }

  lemma PrintedAt(head: seq<Byte>, body: seq<Byte>, rest: seq<Byte>)
    ensures var data := head + body + rest; At(data, 0, head) && At(data, |head|, body)
  {
    var data := head + body + rest;
    assert data[0..|head|] == head && data[|head|..|head| + |body|] == body;
  }

  /** One unfolding of a parse at a place that is not a trailer. */
  lemma BlankWhole(o: Options, p: Parser, data: seq<Byte>)
    requires Runs(p, data) && Step(o, p, data).next.Parsing? && Inv(Step(o, p, data).next, |data|) && p.phase == Headers
    ensures match Step(o, p, data)
            case Again(q) => Whole(o, p, data) == Whole(o, q, data)
            case Return(q, r) => Whole(o, p, data) == (q, r, false)
  {
    hide Step;
  }

  lemma BodyAtLine(o: Options, m: Message, data: seq<Byte>)
    requires Runs(AfterHeaders(m), data) && HasBody(m)
    requires var m0 := Step(o, AfterHeaders(m), data); m0.next == BeforeBody(m)
    ensures AtLine(BeforeBody(m), data)
  {
    hide Step, AfterHeaders;
    StepKeeps(o, AfterHeaders(m), data);
  }
}

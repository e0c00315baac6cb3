/** Exactly when an HTTP/1.1 session does the same however its input is cut. */
module HttpSessionSplit {
  import opened Bytes
  import opened Protocol
  import opened Text
  import opened HttpText
  import opened HttpParser
  import opened HttpSplit
  import opened HttpSession
  import HttpOrder

  // ---- the octets a parse needs ----

  /** Where a parse that ended got to. */
  function Reached(outcome: Outcome): nat {
    match outcome
    case Complete(_, n) => n
    case HeadersComplete(n) => n
    case _ => 0
  }

  predicate Ended(outcome: Outcome) { outcome.Complete? || outcome.HeadersComplete? }

  /** A turn that ends a parse needs no more octets than it uses. */
  lemma ReturnLocal(o: Options, p: Parser, input: seq<Byte>, more: seq<Byte>)
    requires Inv(p, |input|) && p.Parsing? && Addressable(input + more)
    requires var m := Step(o, p, input + more); m.Return? && Ended(m.outcome) && Reached(m.outcome) <= |input|
    ensures Step(o, p, input) == Step(o, p, input + more)
  {
    hide LineStep, HeaderStep, ChunkHeadStep, ChunkBodyStep, TrailerStep;
    StepStable(o, p, input, more);
    OnlyThere(o, p, input + more);
    if p.phase == Headers {
      BlankLocal(o, p, input, more);
    }
  }

  /** Requests end after the headers, after the body or after the trailer. */
  lemma OnlyThere(o: Options, p: Parser, input: seq<Byte>)
    requires Inv(p, |input|) && p.Parsing?
    ensures var m := Step(o, p, input); m.Return? && Ended(m.outcome) ==> p.phase in [Headers, Body, ChunkEnd]
  {
    hide ScanLine, ParseRequestLine, HeaderStep, ParseHex, Find;
  }

  lemma BlankLocal(o: Options, p: Parser, input: seq<Byte>, more: seq<Byte>)
    requires Inv(p, |input|) && p.Parsing? && p.phase == Headers
    requires var m := HeaderStep(o, p, input + more); m.Return? && Ended(m.outcome) && Reached(m.outcome) <= |input|
    ensures !Open(HeaderStep(o, p, input))
  {
    hide ScanLine, ParseHeaderLine, Finalize;
    var room := if p.headerBytes >= o.maxHeader then 0 else o.maxHeader - p.headerBytes;
    LineLocal(input, more, p.lineStart, p.scan, room);
  }

  /** It got at least as far as it had scanned; after the headers, exactly as far. */
  lemma ReturnReaches(o: Options, p: Parser, input: seq<Byte>)
    requires Inv(p, |input|) && p.Parsing? && Addressable(input)
    ensures var m := Step(o, p, input);
            m.Return? && Ended(m.outcome) ==>
              && p.scan <= Reached(m.outcome)
              && (m.outcome.HeadersComplete? ==> m.next.Parsing? && m.next.scan == m.next.lineStart == Reached(m.outcome))
  {
    hide ScanLine, ParseRequestLine, ParseHeaderLine, ParseHex, Find, Finalize;
  }

  lemma {:induction false} LoopReaches(o: Options, p: Parser, input: seq<Byte>)
    requires Inv(p, |input|) && p.Parsing? && Addressable(input)
    ensures var r := Loop(o, p, input);
            Ended(r.1) ==>
              && p.scan <= Reached(r.1)
              && (r.1.HeadersComplete? ==> r.0.Parsing? && r.0.scan == r.0.lineStart == Reached(r.1))
    decreases |input| - p.scan, Rank(p)
  {
    hide Step;
    StepKeeps(o, p, input);
    ReturnReaches(o, p, input);
    match Step(o, p, input)
    case Again(q) => LoopReaches(o, q, input);
    case Return(_, _) =>
  }

  lemma {:induction false} LoopLocal(o: Options, p: Parser, input: seq<Byte>, more: seq<Byte>)
    requires Inv(p, |input|) && p.Parsing? && Addressable(input + more) && !MeetsLongTrailer(o, p, input + more)
    requires var outcome := Loop(o, p, input + more).1; Ended(outcome) && Reached(outcome) <= |input|
    ensures Loop(o, p, input) == Loop(o, p, input + more)
    decreases |input| - p.scan, Rank(p)
  {
    hide Step, LongTrailer, Reached;
    StepKeeps(o, p, input + more);
    match Step(o, p, input + more)
    case Again(q) =>
      LoopReaches(o, q, input + more);
      StepLocal(o, p, input, more);
      StepKeeps(o, p, input);
      LoopLocal(o, q, input, more);
    case Return(_, _) => ReturnLocal(o, p, input, more);
  }

  // ---- the method tells where a request began ----

  /** The octets before the first space. */
  predicate Method(m: seq<Byte>, data: seq<Byte>) {
    0 < |m| < |data| && data[|m|] == SP && forall i :: 0 <= i < |m| ==> data[i] != SP
  }

  predicate Methodical(p: Parser, data: seq<Byte>) {
    p.Parsing? && if p.phase == RequestLine then p.lineStart == 0 else Method(p.request.methodText, data)
  }

  lemma LineMethod(data: seq<Byte>, at: nat)
    requires at <= |data| && ParseRequestLine(data[..at]).StartLine?
    ensures Method(ParseRequestLine(data[..at]).methodText, data)
  {
    hide AllTokens, Find;
    var line := data[..at];
    FindFirst(line, SP, 0);
    assert line[..Find(line, SP, 0)] == data[..Find(line, SP, 0)];
  }

  lemma {:induction false} FindFirst(s: seq<Byte>, b: Byte, from: nat)
    requires from <= |s|
    ensures var i := Find(s, b, from); from <= i <= |s| && (i < |s| ==> s[i] == b) && forall k :: from <= k < i ==> s[k] != b
    decreases |s| - from
  {
    if from < |s| && s[from] != b {
      FindFirst(s, b, from + 1);
    }
  }

  lemma StepMethod(o: Options, p: Parser, data: seq<Byte>)
    requires Inv(p, |data|) && Addressable(data) && Methodical(p, data)
    ensures var m := Step(o, p, data);
            && (m.Again? || (m.Return? && m.outcome.HeadersComplete?) ==> Methodical(m.next, data))
            && (m.Return? && m.outcome.Complete? ==> Method(m.outcome.request.methodText, data))
  {
    hide ScanLine, ParseRequestLine, ParseHeaderLine, ParseHex, Find, Finalize, Method;
    if p.phase == RequestLine {
      var line := ScanLine(data, p.lineStart, p.scan, o.maxLine);
      if line.LineEnd? && ParseRequestLine(data[..line.at]).StartLine? {
        LineMethod(data, line.at);
      }
    }
  }

  lemma {:induction false} LoopMethod(o: Options, p: Parser, data: seq<Byte>)
    requires Inv(p, |data|) && Addressable(data) && Methodical(p, data)
    ensures var r := Loop(o, p, data);
            && (r.1.HeadersComplete? ==> Methodical(r.0, data))
            && (r.1.Complete? ==> Method(r.1.request.methodText, data))
    decreases |data| - p.scan, Rank(p)
  {
    hide Step, Methodical, Method;
    assert p.Parsing? by { MethodicalParses(p, data); }
    StepKeeps(o, p, data);
    StepMethod(o, p, data);
    match Step(o, p, data)
    case Again(q) => LoopMethod(o, q, data);
    case Return(_, _) =>
  }

  lemma MethodicalParses(p: Parser, data: seq<Byte>)
    requires Methodical(p, data)
    ensures p.Parsing?
  {
  }

  /** The method of the first request dispatched. */
  function FirstMethod(events: seq<Event>): Option<seq<Byte>> {
    if events == [] then None
    else if events[0].Dispatched? then Some(events[0].request.methodText)
    else FirstMethod(events[1..])
  }

  /** Either nothing is dispatched and nothing used up, or the first method is that of the octets. */
  lemma {:induction false} FirstMethodRead(s: Session, env: Env, data: seq<Byte>)
    requires Ok(s, data) && !s.stopped && Methodical(s.parser, data)
    ensures var d := Drain(s, env, data);
            match FirstMethod(d.events)
            case None => d.buffer == data
            case Some(m) => Method(m, data)
    decreases Early(s)
  {
    hide Loop, Methodical, Method, StatusCode, FeedStatus;
    LoopMethod(s.config.parser, s.parser, data);
    assert data[0..] == data;
    var d := Drain(s, env, data);
    match TurnOf(s, env, data)
    case Wait(_) =>
    case Stop(_, used, _, event) => assert d.events == [event];
    case Go(t, used, event) =>
      var rest := Drain(t, env, data[used..]);
      assert d.events == [event] + rest.events && d.events[1..] == rest.events;
      if event == SentContinue {
        FirstMethodRead(t, env, data);
      }
  }

  /** Octets and the same octets without the first are never drained alike. */
  lemma RestDiffers(s: Session, env: Env, rest: seq<Byte>)
    requires s.parser == START && !s.stopped && rest != [] && Addressable(rest)
    ensures Ok(s, rest) && Ok(s, rest[1..])
    ensures var a, b := Drain(s, env, rest), Drain(s, env, rest[1..]); a.events != b.events || a.buffer != b.buffer
  {
    hide Drain;
    FirstMethodRead(s, env, rest);
    FirstMethodRead(s, env, rest[1..]);
    var a, b := Drain(s, env, rest), Drain(s, env, rest[1..]);
    if a.events == b.events {
      match FirstMethod(a.events)
      case None => assert |a.buffer| != |b.buffer|;
      case Some(m) => Shifted(m, rest);
    }
  }

  lemma Shifted(m: seq<Byte>, rest: seq<Byte>)
    requires rest != [] && Method(m, rest)
    ensures !Method(m, rest[1..])
  {
    assert rest[1..][|m| - 1] == rest[|m|];
  }

  // ---- the cut ----

  /** Feeding in two pieces and at once, seen from outside: what happened, and the octets not used up. */
  ghost predicate CutTells(s: Session, env: Env, data: seq<Byte>, k: nat)
    requires Ok(s, data) && !s.stopped && k <= |data|
  {
    hide Drain;
    && Ok(s, data[..k])
    && var first := Drain(s, env, data[..k]);
    && !first.s.stopped && Ok(first.s, first.buffer + data[k..])
    && var rest, whole := Drain(first.s, env, first.buffer + data[k..]), Drain(s, env, data);
    first.events + rest.events != whole.events || rest.buffer != whole.buffer
  }

  /** The long trailer is in the request now being read. */
  lemma CutNow(s: Session, env: Env, data: seq<Byte>) returns (k: nat)
    requires Ok(s, data) && !s.stopped && s.parser.scan == s.parser.lineStart && s.config.parser.maxHeader >= 2
    requires MeetsLongTrailer(s.config.parser, s.parser, data)
    ensures s.parser.scan < k <= |data| && CutTells(s, env, data, k)
  {
    hide Loop, MeetsLongTrailer, Deliver;
    k := CutShows(s.config.parser, s.parser, data);
    var waiting := Loop(s.config.parser, s.parser, data[..k]).0;
    var t := s.(parser := waiting);
    var whole, cut := Loop(s.config.parser, s.parser, data), Loop(s.config.parser, waiting, data);
    assert data[..k] + data[k..] == data;
    assert TurnOf(s, env, data[..k]) == Wait(t);
    var n := whole.1.consumed;
    var u := s.(parser := START);
    assert TurnOf(s, env, data) == Deliver(u, env, whole.1.request, n);
    assert TurnOf(t, env, data) == Deliver(u, env, whole.1.request, n + 1);
    DeliveredApart(s, t, u, env, data, whole.1.request, n);
    assert [] + Drain(t, env, data).events == Drain(t, env, data).events;
  }

  /** The same request, one octet apart. */
  lemma DeliveredApart(s: Session, t: Session, u: Session, env: Env, data: seq<Byte>, request: HttpRequest, n: nat)
    requires Ok(s, data) && Ok(t, data) && !s.stopped && !t.stopped && !u.stopped && u.parser == START && n < |data|
    requires TurnOf(s, env, data) == Deliver(u, env, request, n) && TurnOf(t, env, data) == Deliver(u, env, request, n + 1)
    ensures var a, b := Drain(s, env, data), Drain(t, env, data); a.events != b.events || a.buffer != b.buffer
  {
    hide TurnOf, FeedStatus;
    var turn := Deliver(u, env, request, n);
    if turn.Go? {
      var rest := data[n..];
      assert rest[1..] == data[n + 1..];
      RestDiffers(turn.s, env, rest);
      var x, y := Drain(turn.s, env, rest), Drain(turn.s, env, rest[1..]);
      SameTail(turn.event, x.events, y.events);
    } else {
      assert |data[n..]| != |data[n + 1..]|;
    }
  }

  lemma SameTail(e: Event, x: seq<Event>, y: seq<Event>)
    ensures [e] + x == [e] + y ==> x == y
  {
    if [e] + x == [e] + y {
      assert x == ([e] + x)[1..] && y == ([e] + y)[1..];
    }
  }

  /** A turn that goes on is the same on the octets up to any later cut. */
  lemma TurnLocal(s: Session, env: Env, data: seq<Byte>, k: nat)
    requires Ok(s, data) && !MeetsLongTrailer(s.config.parser, s.parser, data) && s.parser.scan <= k <= |data|
    requires var turn := TurnOf(s, env, data); turn.Go? && turn.used <= k && (turn.used == 0 ==> turn.s.parser.scan <= k)
    ensures Ok(s, data[..k]) && TurnOf(s, env, data[..k]) == TurnOf(s, env, data)
  {
    hide Loop, MeetsLongTrailer, StatusCode, FeedStatus;
    assert data[..k] + data[k..] == data;
    LoopReaches(s.config.parser, s.parser, data);
    LoopLocal(s.config.parser, s.parser, data[..k], data[k..]);
  }

  lemma GoesOn(s: Session, env: Env, data: seq<Byte>)
    requires Ok(s, data) && TurnOf(s, env, data).Go?
    ensures var turn := TurnOf(s, env, data);
            && turn.s.parser.scan == turn.s.parser.lineStart && turn.s.config == s.config
            && (turn.used == 0 ==> s.parser.scan <= turn.s.parser.scan) && (turn.used > 0 ==> s.parser.scan <= turn.used)
  {
    hide Loop, StatusCode, FeedStatus;
    LoopReaches(s.config.parser, s.parser, data);
  }

  /** With a long trailer anywhere on the way, some cut can be told from outside. */
  lemma {:induction false} CutSession(s: Session, env: Env, data: seq<Byte>) returns (k: nat)
    requires Ok(s, data) && !s.stopped && s.parser.scan == s.parser.lineStart && s.config.parser.maxHeader >= 2
    requires !ShortTrailers(s, env, data)
    ensures s.parser.scan < k <= |data| && CutTells(s, env, data, k)
    decreases |data|, Early(s)
  {
    hide TurnOf, MeetsLongTrailer, Drain, CutTells;
    if MeetsLongTrailer(s.config.parser, s.parser, data) {
      k := CutNow(s, env, data);
    } else {
      var turn := TurnOf(s, env, data);
      GoesOn(s, env, data);
      var j := CutSession(turn.s, env, data[turn.used..]);
      k := turn.used + j;
      TurnLocal(s, env, data, k);
      CutLater(s, env, data, turn, j);
    }
  }

  lemma CutLater(s: Session, env: Env, data: seq<Byte>, turn: Turn, j: nat)
    requires Ok(s, data) && !s.stopped && turn == TurnOf(s, env, data) && turn.Go?
    requires turn.used + j <= |data| && Ok(s, data[..turn.used + j]) && TurnOf(s, env, data[..turn.used + j]) == turn
    requires CutTells(turn.s, env, data[turn.used..], j)
    ensures CutTells(s, env, data, turn.used + j)
  {
    hide TurnOf;
    var k := turn.used + j;
    var rest := data[turn.used..];
    assert data[..k][turn.used..] == rest[..j] && data[k..] == rest[j..];
    var first := Drain(turn.s, env, rest[..j]);
    var after := Drain(first.s, env, first.buffer + rest[j..]);
    var whole := Drain(turn.s, env, rest);
    Assoc([turn.event], first.events, after.events);
    SameTail(turn.event, first.events + after.events, whole.events);
  }

  // ---- sessions ----

  /** The octets a session did not use up, those that came after it stopped included. */
  ghost function Unread(s: Session, env: Env, buffer: seq<Byte>, pieces: seq<seq<Byte>>): seq<Byte>
    requires (Ok(s, buffer) || s.stopped) && s.config.maxBuffer < SIZE_LIMIT / 2
    decreases |pieces|
  {
    if s.stopped || pieces == [] then buffer + Flatten(pieces)
    else
      var first := Feed(s, env, buffer, pieces[0]);
      Unread(first.s, env, first.buffer, pieces[1..])
  }

  lemma {:induction false} UnreadIsDrain(s: Session, env: Env, buffer: seq<Byte>, pieces: seq<seq<Byte>>)
    requires Ok(s, buffer) && !s.stopped && Ok(s, buffer + Flatten(pieces)) && s.config.maxBuffer < SIZE_LIMIT / 2
    requires NeverOverflows(s, env, buffer, pieces) && ShortTrailers(s, env, buffer + Flatten(pieces))
    requires Drain(s, env, buffer) == Drained(s, buffer, Ready, [])
    ensures Unread(s, env, buffer, pieces) == Drain(s, env, buffer + Flatten(pieces)).buffer
    decreases |pieces|
  {
    hide TurnOf, ShortTrailers;
    if pieces == [] {
      assert buffer + Flatten(pieces) == buffer;
    } else {
      var first := Feed(s, env, buffer, pieces[0]);
      var rest := Flatten(pieces[1..]);
      assert buffer + Flatten(pieces) == (buffer + pieces[0]) + rest;
      DrainResumes(s, env, buffer + pieces[0], rest);
      if !first.s.stopped {
        Settled(s, env, buffer + pieces[0]);
        UnreadIsDrain(first.s, env, first.buffer, pieces[1..]);
      }
    }
  }

  /** A fresh session fed in pieces does what draining the stream at once does, as far as can be told. */
  ghost predicate Same(config: Config, env: Env, pieces: seq<seq<Byte>>, data: seq<Byte>)
    requires config.maxBuffer < SIZE_LIMIT / 2 && Addressable(data)
  {
    hide Drain, FeedAll, Unread;
    var fed, whole := FeedAll(Fresh(config), env, [], pieces), Drain(Fresh(config), env, data);
    fed.events == whole.events && fed.s == whole.s && Unread(Fresh(config), env, [], pieces) == whole.buffer
  }

  lemma ShortIsSame(config: Config, env: Env, pieces: seq<seq<Byte>>, data: seq<Byte>)
    requires config.maxBuffer < SIZE_LIMIT / 2 && |data| <= config.maxBuffer && Flatten(pieces) == data
    requires ShortTrailers(Fresh(config), env, data)
    ensures Same(config, env, pieces, data)
  {
    hide FeedAll, Unread, NeverOverflows, ShortTrailers, Drain;
    var s := Fresh(config);
    assert [] + data == data;
    FreshSettled(s, env);
    HttpOrder.ShortStreamFits(s, env, [], pieces);
    FeedAllIsDrain(s, env, [], pieces);
    UnreadIsDrain(s, env, [], pieces);
  }

  lemma OnePiece(s: Session, env: Env, buffer: seq<Byte>, bytes: seq<Byte>)
    requires Ok(s, buffer) && !s.stopped && s.config.maxBuffer < SIZE_LIMIT / 2
    ensures var r := Feed(s, env, buffer, bytes);
            FeedAll(s, env, buffer, [bytes]).events == r.events && Unread(s, env, buffer, [bytes]) == r.buffer
  {
    hide Feed;
    var one := [bytes];
    var r := Feed(s, env, buffer, bytes);
    assert one[1..] == [] && one[0] == bytes;
    assert FeedAll(r.s, env, r.buffer, []).events == [] && r.events + [] == r.events;
    assert Unread(r.s, env, r.buffer, []) == r.buffer + Flatten([]) == r.buffer;
  }

  /** What two pieces do, step by step. */
  lemma InTwoPieces(config: Config, env: Env, data: seq<Byte>, k: nat)
    requires config.maxBuffer < SIZE_LIMIT / 2 && k <= |data| <= config.maxBuffer
    requires !Drain(Fresh(config), env, data[..k]).s.stopped
    ensures var s := Fresh(config);
            var first := Drain(s, env, data[..k]);
            |first.buffer| <= k && Ok(first.s, first.buffer + data[k..]) &&
            var rest := Drain(first.s, env, first.buffer + data[k..]);
            var pieces := [data[..k], data[k..]];
            FeedAll(s, env, [], pieces).events == first.events + rest.events && Unread(s, env, [], pieces) == rest.buffer
  {
    hide TurnOf, Drain;
    var s := Fresh(config);
    var pieces := [data[..k], data[k..]];
    var tail := pieces[1..];
    assert tail == [data[k..]] && tail[1..] == [] && [] + data[..k] == data[..k];
    HttpOrder.DrainAdds(s, env, data[..k]);
    var first := Drain(s, env, data[..k]);
    var rest := Drain(first.s, env, first.buffer + data[k..]);
    assert Feed(s, env, [], pieces[0]) == first && Feed(first.s, env, first.buffer, tail[0]) == rest;
    OnePiece(first.s, env, first.buffer, data[k..]);
  }

  /** A stream that the receive buffer can hold makes a fresh session do the same (same requests with the
      same numbers, same responses, same session afterwards, same octets used up) however it is cut, if and
      only if no request on the way has a trailer line beyond the header limit. */
  lemma SessionSplitIndependentIff(config: Config, env: Env, data: seq<Byte>)
    requires config.maxBuffer < SIZE_LIMIT / 2 && |data| <= config.maxBuffer && config.parser.maxHeader >= 2
    ensures (forall pieces: seq<seq<Byte>> :: Flatten(pieces) == data ==> Same(config, env, pieces, data))
            <==> ShortTrailers(Fresh(config), env, data)
  {
    hide Same, ShortTrailers;
    if ShortTrailers(Fresh(config), env, data) {
      forall pieces: seq<seq<Byte>> | Flatten(pieces) == data ensures Same(config, env, pieces, data) {
        ShortIsSame(config, env, pieces, data);
      }
    } else {
      var k := CutSession(Fresh(config), env, data);
      FlattenPair(data[..k], data[k..]);
      assert data[..k] + data[k..] == data;
      CutIsSeen(config, env, data, k);
    }
  }

  lemma CutIsSeen(config: Config, env: Env, data: seq<Byte>, k: nat)
    requires config.maxBuffer < SIZE_LIMIT / 2 && k <= |data| <= config.maxBuffer && CutTells(Fresh(config), env, data, k)
    ensures !Same(config, env, [data[..k], data[k..]], data)
  {
    hide FeedAll, Unread, Drain;
    InTwoPieces(config, env, data, k);
  }

  lemma FlattenPair(a: seq<Byte>, b: seq<Byte>)
    ensures Flatten([a, b]) == a + b
  {
    assert [a, b] == [a] + [b];
    FlattenAppend([a], [b]);
    FlattenSingle(a);
    FlattenSingle(b);
  }
}

/** What an HTTP/1.1 connection does with the octets it is sent, in terms of the messages in them: http_session.cpp
    HttpSession and its parser together. */
module HttpConversation {
  import opened Bytes
  import opened Protocol
  import opened HttpParser
  import opened HttpGrammar
  import opened HttpSession

  /** The answer to a message that cannot be read. */
  function ErrorCode(e: ParseError): nat {
    if e == RequestLineTooLarge || e == InvalidTarget then 414
    else if e == HeaderTooLarge || e == TooManyHeaders then 431
    else if e == BodyTooLarge then 413
    else 400
  }

  /** How an executor's answer shows in the result. */
  predicate Reports(status: Status, answer: Answer, otherwise: Status) {
    && (answer == Accepted <==> status == otherwise) && (answer == Saturated <==> status == ExecutorSaturated)
    && (answer == Stopped <==> status == ExecutorStopped)
  }

  /** The events of a stream, whether the session then reads on, and the octets it leaves unread. */
  datatype Said = Said(events: seq<Event>, open: bool, rest: seq<Byte>)

  /** The `k` requests before had the numbers 1 to `k`. A body that is announced but held back is asked for once. */
  ghost function Conversation(config: Config, env: Env, k: nat, stream: seq<Byte>): (r: Said)
    requires Addressable(stream)
    decreases |stream|, 1
  {
    var ask := if Message(config.parser, stream, false).HeadersComplete? then [SentContinue] else [];
    var r := Exchange(config, env, k, stream);
    r.(events := ask + r.events)
  }

  /** The connection ends with a request that says so, with the last allowed one, with one the executor does not
      take, and with a message that cannot be read. */
  ghost function Exchange(config: Config, env: Env, k: nat, stream: seq<Byte>): (r: Said)
    requires Addressable(stream)
    decreases |stream|, 0
  {
    ParseReadsMessage(config.parser, stream);
    match Message(config.parser, stream, true)
    case Incomplete => Said([], true, stream)
    case HeadersComplete(_) => Said([], true, stream)
    case Error(e) => Said([PostedError(ErrorCode(e), env.post)], false, stream)
    case Threw => Said([Raised], false, stream)
    case Complete(request, n) =>
      var close := !request.keepAlive || k + 1 >= config.maxRequests;
      var handed := Dispatched(k + 1, request, close, env.dispatch(k));
      if env.dispatch(k) != Accepted || close then Said([handed], false, stream[n..])
      else
        var later := Conversation(config, env, k + 1, stream[n..]);
        later.(events := [handed] + later.events)
  }

  /** A message never asks again once asked. */
  lemma NeverAsksAgain(o: Options, input: seq<Byte>)
    requires Addressable(input)
    ensures !Message(o, input, true).HeadersComplete?
  {
    hide CutOf, ReadHead, Finalize, ParseRequestLine, ReadChunks, ReadFixed;
  }

  ghost predicate Says(r: Drained, said: Said) {
    r.events == said.events && (r.s.stopped <==> !said.open) && r.buffer == said.rest
  }

  /** One message, and the second attempt at it. */
  lemma FirstTurn(s: Session, env: Env, stream: seq<Byte>)
    requires Ok(s, stream) && s.parser == START && !s.stopped
    ensures var o := s.config.parser;
            match Message(o, stream, false)
            case HeadersComplete(_) =>
              var t := TurnOf(s, env, stream);
              && t == Go(s.(parser := t.s.parser), 0, SentContinue) && t.s.parser.Parsing?
              && Parse(o, t.s.parser, stream).1 == Message(o, stream, true)
            case outcome => Parse(o, START, stream).1 == outcome == Message(o, stream, true)
  {
    hide Loop, Message;
    ParseReadsMessage(s.config.parser, stream);
  }

  /** What the session does with an outcome. */
  lemma OutcomeHandled(s: Session, env: Env, stream: seq<Byte>)
    requires Ok(s, stream) && !s.stopped && !Parse(s.config.parser, s.parser, stream).1.HeadersComplete?
    ensures var r := Drain(s, env, stream);
            var parsed := Parse(s.config.parser, s.parser, stream);
            match parsed.1
            case Incomplete => r == Drained(s.(parser := parsed.0), stream, Ready, [])
            case Error(e) =>
              && r == Drained(r.s, stream, r.status, [PostedError(ErrorCode(e), env.post)]) && r.s.stopped
              && r.s.lastError == Some(e) && Reports(r.status, env.post, ProtocolError)
            case Threw => r == Drained(r.s, stream, ProtocolError, [Raised]) && r.s.stopped
            case Complete(request, n) =>
              var close := !request.keepAlive || s.dispatched + 1 >= s.config.maxRequests;
              var answer := env.dispatch(s.dispatched);
              var t := s.(parser := START, dispatched := s.dispatched + 1, nextId := s.nextId + 1);
              var event := Dispatched(s.nextId, request, close, answer);
              && 0 < n <= |stream|
              && (answer != Accepted || close ==>
                    && r == Drained(t.(stopped := true), stream[n..], r.status, [event])
                    && (answer != Accepted ==> Reports(r.status, answer, Ready)) && (answer == Accepted ==> r.status == Ready))
              && (answer == Accepted && !close ==>
                    && Ok(t, stream[n..])
                    && var rest := Drain(t, env, stream[n..]);
                       r == rest.(events := [event] + rest.events))
            case HeadersComplete(_) => true
  {
    hide Loop;
  }

  /** The loop of Feed over a whole stream. */
  lemma {:induction false} DrainConverses(s: Session, env: Env, stream: seq<Byte>)
    requires Ok(s, stream) && s.parser == START && !s.stopped && s.nextId == s.dispatched + 1
    ensures Says(Drain(s, env, stream), Conversation(s.config, env, s.dispatched, stream))
    decreases |stream|, 1
  {
    hide Loop, Message, TurnOf, Parse, Exchange;
    FirstTurn(s, env, stream);
    if Message(s.config.parser, stream, false).HeadersComplete? {
      var t := TurnOf(s, env, stream).s;
      assert stream[0..] == stream;
      DrainExchanges(t, env, stream);
    } else {
      DrainExchanges(s, env, stream);
      assert [] + Exchange(s.config, env, s.dispatched, stream).events == Exchange(s.config, env, s.dispatched, stream).events;
    }
  }

  lemma {:induction false} DrainExchanges(s: Session, env: Env, stream: seq<Byte>)
    requires Ok(s, stream) && !s.stopped && s.nextId == s.dispatched + 1
    requires Parse(s.config.parser, s.parser, stream).1 == Message(s.config.parser, stream, true)
    ensures Says(Drain(s, env, stream), Exchange(s.config, env, s.dispatched, stream))
    decreases |stream|, 0
  {
    hide Loop, Message, TurnOf, Parse, ErrorCode, Conversation, Drain;
    NeverAsksAgain(s.config.parser, stream);
    OutcomeHandled(s, env, stream);
    match Message(s.config.parser, stream, true)
    case Complete(request, n) =>
      if env.dispatch(s.dispatched) == Accepted && request.keepAlive && s.dispatched + 1 < s.config.maxRequests {
        var next := s.(parser := START, dispatched := s.dispatched + 1, nextId := s.nextId + 1);
        DrainConverses(next, env, stream[n..]);
      }
    case _ =>
  }

  /** Whatever the pieces, as long as none overflows the buffer and no trailer line is beyond the header limit: a
      fresh connection says exactly what the messages in its stream call for. */
  lemma EveryLifeConverses(config: Config, env: Env, pieces: seq<seq<Byte>>)
    requires config.maxBuffer < SIZE_LIMIT / 2 && Addressable(Flatten(pieces))
    requires NeverOverflows(Fresh(config), env, [], pieces) && ShortTrailers(Fresh(config), env, Flatten(pieces))
    ensures var r := FeedAll(Fresh(config), env, [], pieces);
            var said := Conversation(config, env, 0, Flatten(pieces));
            r.events == said.events && (r.s.stopped <==> !said.open) && (said.open ==> r.buffer == said.rest)
  {
    hide FeedAll, NeverOverflows, ShortTrailers, Drain, Conversation;
    var s := Fresh(config);
    assert [] + Flatten(pieces) == Flatten(pieces);
    FreshSettled(s, env);
    FeedAllIsDrain(s, env, [], pieces);
    DrainConverses(s, env, Flatten(pieces));
  }

  /** A piece that overflows the buffer is answered with 413 and ends the connection; a connection that has ended
      takes nothing. */
  lemma FeedRefusesIff(s: Session, env: Env, buffer: seq<Byte>, bytes: seq<Byte>)
    requires (Ok(s, buffer) || s.stopped) && s.config.maxBuffer < SIZE_LIMIT / 2
    ensures var r := Feed(s, env, buffer, bytes);
            && (s.stopped ==> r == Drained(s, buffer, FeedStopped, []))
            && (!s.stopped && |buffer| + |bytes| > s.config.maxBuffer ==>
                  && r == Drained(s.(stopped := true), buffer, r.status, [PostedError(413, env.post)])
                  && Reports(r.status, env.post, BufferLimit))
            && (!s.stopped && |buffer| + |bytes| <= s.config.maxBuffer ==> r == Drain(s, env, buffer + bytes))
  {
    hide Drain;
  }
}

/** One HTTP/1.1 connection: http_session.cpp HttpSession, over its receive buffer and parser. */
module HttpSession {
  import opened Bytes
  import opened Protocol
  import opened HttpParser
  import opened HttpSplit

  datatype Config = Config(parser: Options, maxBuffer: nat, maxRequests: nat)

  /** The k-th answer of the router's dispatch, and the executor's answer to the one error response. */
  datatype Env = Env(dispatch: nat -> Answer, post: Answer)

  datatype Session = Session(
    config: Config, parser: Parser, dispatched: nat, nextId: nat, stopped: bool, lastError: Option<ParseError>)

  function Fresh(config: Config): Session {
    Session(config, START, 0, 1, false, None)
  }

  datatype Event =
    | SentContinue                                                            // 100 Continue
    | Dispatched(id: nat, request: HttpRequest, close: bool, answer: Answer)
    | PostedError(code: nat, answer: Answer)
    | Raised                                                                  // an exception leaves Feed

  /** StatusCodeFor. */
  function StatusCode(e: ParseError): nat {
    match e
    case RequestLineTooLarge => 414
    case InvalidTarget => 414
    case HeaderTooLarge => 431
    case TooManyHeaders => 431
    case BodyTooLarge => 413
    case _ => 400
  }

  function FeedStatus(answer: Answer, otherwise: Status): Status {
    match answer
    case Accepted => otherwise
    case Saturated => ExecutorSaturated
    case Stopped => ExecutorStopped
  }

  /** One turn of the loop of Feed. */
  datatype Turn =
    | Wait(s: Session)
    | Go(s: Session, used: nat, event: Event)
    | Stop(s: Session, used: nat, status: Status, event: Event)

  /** A complete request: counted, numbered, handed on; the connection may end with it. */
  function Deliver(s: Session, env: Env, request: HttpRequest, used: nat): Turn {
    var close := !request.keepAlive || s.dispatched + 1 >= s.config.maxRequests;
    var answer := env.dispatch(s.dispatched);
    var event := Dispatched(s.nextId, request, close, answer);
    var t := s.(dispatched := s.dispatched + 1, nextId := s.nextId + 1);
    if answer != Accepted then Stop(t.(stopped := true), used, FeedStatus(answer, Ready), event)
    else if close then Stop(t.(stopped := true), used, Ready, event)
    else Go(t, used, event)
  }

  ghost predicate Ok(s: Session, buffer: seq<Byte>) {
    Addressable(buffer) && s.parser.Parsing? && Inv(s.parser, |buffer|)
  }

  ghost function TurnOf(s: Session, env: Env, buffer: seq<Byte>): (t: Turn)
    requires Ok(s, buffer)
    ensures t.Go? ==> t.used <= |buffer| && Ok(t.s, buffer[t.used..]) && t.s.stopped == s.stopped
    ensures t.Go? ==> (t.used > 0 || (Late(t.s.parser) && !Late(s.parser)))
    ensures t.Stop? ==> t.used <= |buffer| && t.s.stopped
    ensures t.Wait? ==> t.s == s.(parser := t.s.parser) && Ok(t.s, buffer)
    ensures t.s.config == s.config
  {
    hide Loop;
    var r := Parse(s.config.parser, s.parser, buffer);
    match r.1
    case Incomplete => Wait(s.(parser := r.0))
    case HeadersComplete(_) => Go(s.(parser := r.0), 0, SentContinue)
    case Error(e) =>
      Stop(s.(parser := r.0, stopped := true, lastError := Some(e)), 0, FeedStatus(env.post, ProtocolError),
           PostedError(StatusCode(e), env.post))
    case Complete(request, n) => Deliver(s.(parser := r.0), env, request, n)
    case Threw => Stop(s.(parser := r.0, stopped := true), 0, ProtocolError, Raised)
  }

  function Early(s: Session): nat { if Late(s.parser) then 0 else 1 }

  datatype Drained = Drained(s: Session, buffer: seq<Byte>, status: Status, events: seq<Event>)

  /** The loop of Feed. It ends: each turn uses up octets or the one 100 Continue of a request. */
  ghost function Drain(s: Session, env: Env, buffer: seq<Byte>): (r: Drained)
    requires Ok(s, buffer) && !s.stopped
    ensures !r.s.stopped ==> r.status == Ready && Ok(r.s, r.buffer)
    ensures r.s.config == s.config
    decreases |buffer|, Early(s)
  {
    hide TurnOf;
    match TurnOf(s, env, buffer)
    case Wait(t) => Drained(t, buffer, Ready, [])
    case Stop(t, used, status, event) => Drained(t, buffer[used..], status, [event])
    case Go(t, used, event) =>
      var rest := Drain(t, env, buffer[used..]);
      rest.(events := [event] + rest.events)
  }

  /** HttpSession::Feed. */
  ghost function Feed(s: Session, env: Env, buffer: seq<Byte>, bytes: seq<Byte>): (r: Drained)
    requires Ok(s, buffer) || s.stopped
    requires s.config.maxBuffer < SIZE_LIMIT / 2
    ensures !r.s.stopped ==> Ok(r.s, r.buffer)
    ensures r.s.config == s.config
  {
    if s.stopped then Drained(s, buffer, FeedStopped, [])
    else if |buffer| + |bytes| > s.config.maxBuffer then
      Drained(s.(stopped := true), buffer, FeedStatus(env.post, BufferLimit), [PostedError(413, env.post)])
    else Drain(s, env, buffer + bytes)
  }

  /** The request handed on by an event, counted if the executor took it. */
  function Counts(e: Event): nat {
    if e.Dispatched? && e.answer == Accepted then 1 else 0
  }

  function AcceptedIn(log: seq<Event>): nat {
    if log == [] then 0 else AcceptedIn(log[..|log| - 1]) + Counts(log[|log| - 1])
  }

  lemma AcceptedLast(log: seq<Event>, e: Event)
    ensures AcceptedIn(log + [e]) == AcceptedIn(log) + Counts(e)
  {
    assert (log + [e])[..|log|] == log;
  }

  /** What Feed answers: a stopped session still tells the octets it holds. */
  function Result(d: Drained): FeedResult {
    FeedResult(d.status, AcceptedIn(d.events), |d.buffer|)
  }

  /** Feeding one piece after another, whatever the results. */
  ghost function FeedAll(s: Session, env: Env, buffer: seq<Byte>, pieces: seq<seq<Byte>>): (r: Drained)
    requires Ok(s, buffer) || s.stopped
    requires s.config.maxBuffer < SIZE_LIMIT / 2
    ensures r.s.config == s.config && (!r.s.stopped ==> Ok(r.s, r.buffer))
    decreases |pieces|
  {
    if pieces == [] then Drained(s, buffer, Ready, [])
    else
      var first := Feed(s, env, buffer, pieces[0]);
      var rest := FeedAll(first.s, env, first.buffer, pieces[1..]);
      rest.(events := first.events + rest.events)
  }

  /** No piece overflows the receive buffer while the session still reads. */
  ghost predicate NeverOverflows(s: Session, env: Env, buffer: seq<Byte>, pieces: seq<seq<Byte>>)
    requires Ok(s, buffer) || s.stopped
    requires s.config.maxBuffer < SIZE_LIMIT / 2
    decreases |pieces|
  {
    pieces == [] || s.stopped ||
    (|buffer| + |pieces[0]| <= s.config.maxBuffer &&
     var first := Feed(s, env, buffer, pieces[0]);
     NeverOverflows(first.s, env, first.buffer, pieces[1..]))
  }

  // ---- independence of the splitting ----

  /** No request on the way has a trailer line beyond the header limit. */
  ghost predicate ShortTrailers(s: Session, env: Env, buffer: seq<Byte>)
    requires Ok(s, buffer)
    decreases |buffer|, Early(s)
  {
    && !MeetsLongTrailer(s.config.parser, s.parser, buffer)
    && match TurnOf(s, env, buffer)
       case Go(t, used, _) => ShortTrailers(t, env, buffer[used..])
       case _ => true
  }

  lemma TurnStable(s: Session, env: Env, buffer: seq<Byte>, more: seq<Byte>)
    requires Ok(s, buffer + more) && Inv(s.parser, |buffer|)
    ensures !TurnOf(s, env, buffer).Wait? ==> TurnOf(s, env, buffer + more) == TurnOf(s, env, buffer)
  {
    hide Loop, StatusCode, FeedStatus, Deliver;
    ParseStable(s.config.parser, s.parser, buffer, more);
  }

  lemma TurnResumes(s: Session, env: Env, buffer: seq<Byte>, more: seq<Byte>)
    requires Ok(s, buffer + more) && Inv(s.parser, |buffer|)
    requires !MeetsLongTrailer(s.config.parser, s.parser, buffer + more)
    ensures var t := TurnOf(s, env, buffer);
            t.Wait? ==>
              && Ok(t.s, buffer + more)
              && TurnOf(t.s, env, buffer + more) == TurnOf(s, env, buffer + more)
              && !MeetsLongTrailer(s.config.parser, t.s.parser, buffer + more)
  {
    hide Loop, MeetsLongTrailer, StatusCode, FeedStatus;
    ParseResumes(s.config.parser, s.parser, buffer, more);
  }

  /** Draining in two instalments is draining at once. */
  lemma {:induction false} DrainResumes(s: Session, env: Env, buffer: seq<Byte>, more: seq<Byte>)
    requires Ok(s, buffer + more) && Inv(s.parser, |buffer|) && !s.stopped && ShortTrailers(s, env, buffer + more)
    ensures var r := Drain(s, env, buffer);
            var all := Drain(s, env, buffer + more);
            if r.s.stopped then all == r.(buffer := r.buffer + more)
            else
              && Ok(r.s, r.buffer + more) && ShortTrailers(r.s, env, r.buffer + more)
              && var rest := Drain(r.s, env, r.buffer + more);
                 all == rest.(events := r.events + rest.events)
    decreases |buffer|, Early(s)
  {
    hide TurnOf, MeetsLongTrailer;
    TurnStable(s, env, buffer, more);
    TurnResumes(s, env, buffer, more);
    match TurnOf(s, env, buffer)
    case Wait(t) => NoEvents(Drain(s, env, buffer + more));
    case Stop(t, used, _, _) => assert (buffer + more)[used..] == buffer[used..] + more;
    case Go(t, used, event) =>
      assert (buffer + more)[used..] == buffer[used..] + more;
      DrainResumes(t, env, buffer[used..], more);
      var r := Drain(t, env, buffer[used..]);
      if !r.s.stopped {
        Assoc([event], r.events, Drain(r.s, env, r.buffer + more).events);
      }
  }

  lemma NoEvents(d: Drained)
    ensures d.(events := [] + d.events) == d
  {
    assert [] + d.events == d.events;
  }

  lemma StoppedForGood(s: Session, env: Env, buffer: seq<Byte>, pieces: seq<seq<Byte>>)
    requires s.stopped && s.config.maxBuffer < SIZE_LIMIT / 2
    ensures FeedAll(s, env, buffer, pieces).s == s && FeedAll(s, env, buffer, pieces).events == []
    decreases |pieces|
  {
  }

  /** However a stream is cut into pieces, the session does what draining the whole stream does. */
  lemma {:induction false} FeedAllIsDrain(s: Session, env: Env, buffer: seq<Byte>, pieces: seq<seq<Byte>>)
    requires Ok(s, buffer) && !s.stopped && Ok(s, buffer + Flatten(pieces)) && s.config.maxBuffer < SIZE_LIMIT / 2
    requires NeverOverflows(s, env, buffer, pieces) && ShortTrailers(s, env, buffer + Flatten(pieces))
    requires Drain(s, env, buffer) == Drained(s, buffer, Ready, [])
    ensures var fed := FeedAll(s, env, buffer, pieces);
            var all := Drain(s, env, buffer + Flatten(pieces));
            fed.events == all.events && fed.s == all.s && (!all.s.stopped ==> fed.buffer == all.buffer)
    decreases |pieces|
  {
    hide TurnOf, ShortTrailers;
    if pieces == [] {
      assert buffer + Flatten(pieces) == buffer;
    } else {
      var first := Feed(s, env, buffer, pieces[0]);
      var rest := Flatten(pieces[1..]);
      assert buffer + Flatten(pieces) == (buffer + pieces[0]) + rest;
      DrainResumes(s, env, buffer + pieces[0], rest);
      if first.s.stopped {
        StoppedForGood(first.s, env, first.buffer, pieces[1..]);
      } else {
        Settled(s, env, buffer + pieces[0]);
        FeedAllIsDrain(first.s, env, first.buffer, pieces[1..]);
      }
    }
  }

  lemma TurnIdles(s: Session, env: Env, buffer: seq<Byte>)
    requires Ok(s, buffer) && TurnOf(s, env, buffer).Wait?
    ensures TurnOf(TurnOf(s, env, buffer).s, env, buffer) == TurnOf(s, env, buffer)
  {
    hide Loop, StatusCode, FeedStatus;
    ParseIdles(s.config.parser, s.parser, buffer);
  }

  /** After a piece is drained there is nothing to do until the next one. */
  lemma {:induction false} Settled(s: Session, env: Env, buffer: seq<Byte>)
    requires Ok(s, buffer) && !s.stopped
    ensures var r := Drain(s, env, buffer);
            !r.s.stopped ==> Drain(r.s, env, r.buffer) == Drained(r.s, r.buffer, Ready, [])
    decreases |buffer|, Early(s)
  {
    hide TurnOf;
    match TurnOf(s, env, buffer)
    case Wait(t) => TurnIdles(s, env, buffer);
    case Stop(t, used, _, _) =>
    case Go(t, used, event) => Settled(t, env, buffer[used..]);
  }

  /** Any two ways of cutting one stream, neither overflowing the buffer, make a fresh session do the
      same: the same requests with the same numbers, the same responses, the same session afterwards. */
  lemma SplitIndependence(config: Config, env: Env, one: seq<seq<Byte>>, other: seq<seq<Byte>>)
    requires config.maxBuffer < SIZE_LIMIT / 2 && Flatten(one) == Flatten(other) && Addressable(Flatten(one))
    requires ShortTrailers(Fresh(config), env, Flatten(one))
    requires NeverOverflows(Fresh(config), env, [], one) && NeverOverflows(Fresh(config), env, [], other)
    ensures var a, b := FeedAll(Fresh(config), env, [], one), FeedAll(Fresh(config), env, [], other);
            a.events == b.events && a.s == b.s && (!a.s.stopped ==> a.buffer == b.buffer)
  {
    hide FeedAll, NeverOverflows, ShortTrailers;
    var s := Fresh(config);
    assert [] + Flatten(one) == Flatten(one);
    FreshSettled(s, env);
    FeedAllIsDrain(s, env, [], one);
    FeedAllIsDrain(s, env, [], other);
  }

  lemma FreshSettled(s: Session, env: Env)
    requires s.parser == START && !s.stopped
    ensures Ok(s, []) && Drain(s, env, []) == Drained(s, [], Ready, [])
  {
    assert Step(s.config.parser, START, []) == Return(START, Incomplete);
  }
}

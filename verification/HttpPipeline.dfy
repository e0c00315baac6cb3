/** Requests written one after another on a connection are dispatched in order, with consecutive numbers,
    however the octets are cut up. */
module HttpPipeline {
  import opened Bytes
  import opened Protocol
  import opened HttpParser
  import opened HttpSplit
  import opened HttpPrint
  import opened HttpRoundTrip
  import opened HttpSession

  function PrintAll(ms: seq<Message>): seq<Byte> {
    if ms == [] then [] else Print(ms[0]) + PrintAll(ms[1..])
  }

  /** Canonical requests within the limits, none but the last of which asks to close. */
  ghost predicate Sendable(config: Config, ms: seq<Message>) {
    && (forall i :: 0 <= i < |ms| ==> Canonical(ms[i]) && WithinLimits(config.parser, ms[i]) && |ms[i].body| < SIZE_LIMIT / 2)
    && (forall i :: 0 <= i < |ms| - 1 ==> !Closes(ms[i].headers))
  }

  /** What the session does about requests `ms`, the first of which gets number `id`; `room` more are allowed. */
  ghost function Served(ms: seq<Message>, id: nat, room: nat): seq<Event>
    requires |ms| <= room
  {
    if ms == [] then []
    else
      var m := ms[0];
      (if Asks(m) then [SentContinue] else [])
      + [Dispatched(id, Meaning(m), Closes(m.headers) || room <= 1, Accepted)]
      + Served(ms[1..], id + 1, room - 1)
  }

  /** The requests handed to the router, in order. */
  function Requests(events: seq<Event>): seq<HttpRequest> {
    if events == [] then []
    else (if events[0].Dispatched? then [events[0].request] else []) + Requests(events[1..])
  }

  ghost function Meanings(ms: seq<Message>): seq<HttpRequest> {
    if ms == [] then [] else [Meaning(ms[0])] + Meanings(ms[1..])
  }

  lemma {:induction false} RequestsAppend(a: seq<Event>, b: seq<Event>)
    ensures Requests(a + b) == Requests(a) + Requests(b)
  {
    if a == [] {
      assert a + b == b;
    } else {
      assert (a + b)[1..] == a[1..] + b && (a + b)[0] == a[0];
      RequestsAppend(a[1..], b);
      Assoc(if a[0].Dispatched? then [a[0].request] else [], Requests(a[1..]), Requests(b));
    }
  }

  lemma {:induction false} RequestsServed(ms: seq<Message>, id: nat, room: nat)
    requires |ms| <= room
    ensures Requests(Served(ms, id, room)) == Meanings(ms)
    decreases |ms|
  {
    hide Meaning, Asks, Closes;
    if ms != [] {
      var m := ms[0];
      var ask: seq<Event> := if Asks(m) then [SentContinue] else [];
      var one := [Dispatched(id, Meaning(m), Closes(m.headers) || room <= 1, Accepted)];
      RequestsServed(ms[1..], id + 1, room - 1);
      RequestsAppend(ask + one, Served(ms[1..], id + 1, room - 1));
      RequestsAppend(ask, one);
      assert one[1..] == [] && (Asks(m) ==> ask[1..] == []);
    }
  }

  // ---- one request at the front of the buffer ----

  /** The first turn, or with a 100 Continue the first two, read exactly the message. */
  ghost predicate TurnsTo(s: Session, env: Env, m: Message, data: seq<Byte>)
    requires s.parser == START
  {
    hide Print, Meaning, BeforeBody, MeetsLongTrailer, Asks, TurnOf, Deliver;
    && Ok(s, data) && !MeetsLongTrailer(s.config.parser, START, data)
    && if Asks(m) then
         var t := s.(parser := BeforeBody(m));
         && TurnOf(s, env, data) == Go(t, 0, SentContinue)
         && Ok(t, data) && !MeetsLongTrailer(s.config.parser, t.parser, data)
         && TurnOf(t, env, data) == Deliver(s, env, Meaning(m), |Print(m)|)
       else TurnOf(s, env, data) == Deliver(s, env, Meaning(m), |Print(m)|)
  }

  lemma FirstTurn(s: Session, env: Env, m: Message, rest: seq<Byte>)
    requires s.parser == START && Canonical(m) && WithinLimits(s.config.parser, m) && |m.body| < SIZE_LIMIT / 2
    requires Addressable(Print(m) + rest)
    ensures TurnsTo(s, env, m, Print(m) + rest)
  {
    hide Canonical, WithinLimits, Print, Meaning, BeforeBody, Deliver, Loop, MeetsLongTrailer, Asks;
    RequestRoundTrip(s.config.parser, m, rest);
    assert s.(parser := BeforeBody(m)).(parser := START) == s;
    assert s.(parser := START) == s;
  }

  /** The session after it delivered one request. */
  function Next(s: Session): Session {
    s.(dispatched := s.dispatched + 1, nextId := s.nextId + 1)
  }

  /** The turn that delivers a request, and what is drained after it. */
  lemma DeliverServed(u: Session, env: Env, data: seq<Byte>, s: Session, request: HttpRequest, used: nat)
    requires Ok(u, data) && !u.stopped && !s.stopped && s.parser == START && 0 < used <= |data|
    requires TurnOf(u, env, data) == Deliver(s, env, request, used) && env.dispatch(s.dispatched) == Accepted
    requires !MeetsLongTrailer(u.config.parser, u.parser, data)
    ensures var close := !request.keepAlive || s.dispatched + 1 >= s.config.maxRequests;
            var event := Dispatched(s.nextId, request, close, Accepted);
            var rest := data[used..];
            && Ok(Next(s), rest)
            && if close then
                 && Drain(u, env, data) == Drained(Next(s).(stopped := true), rest, Ready, [event])
                 && ShortTrailers(u, env, data)
               else
                 var after := Drain(Next(s), env, rest);
                 && Drain(u, env, data) == after.(events := [event] + after.events)
                 && (ShortTrailers(Next(s), env, rest) ==> ShortTrailers(u, env, data))
  {
    hide TurnOf, MeetsLongTrailer;
  }

  /** A turn that only sends 100 Continue. */
  lemma ContinueServed(s: Session, env: Env, data: seq<Byte>, t: Session)
    requires Ok(s, data) && !s.stopped && TurnOf(s, env, data) == Go(t, 0, SentContinue) && Ok(t, data)
    requires !MeetsLongTrailer(s.config.parser, s.parser, data)
    ensures !t.stopped
    ensures var after := Drain(t, env, data); Drain(s, env, data) == after.(events := [SentContinue] + after.events)
    ensures ShortTrailers(t, env, data) ==> ShortTrailers(s, env, data)
  {
    hide TurnOf, MeetsLongTrailer;
    assert data[0..] == data;
  }

  /** The first message is dispatched, and what follows it is served next unless the connection ends. */
  ghost predicate Serves(s: Session, env: Env, m: Message, data: seq<Byte>, rest: seq<Byte>)
    requires !s.stopped
  {
    hide Meaning, Asks, Closes, Drain, ShortTrailers;
    var close := Closes(m.headers) || s.dispatched + 1 >= s.config.maxRequests;
    var ask: seq<Event> := if Asks(m) then [SentContinue] else [];
    var events := ask + [Dispatched(s.nextId, Meaning(m), close, Accepted)];
    && Ok(s, data) && Ok(Next(s), rest)
    && if close then
         && Drain(s, env, data) == Drained(Next(s).(stopped := true), rest, Ready, events)
         && ShortTrailers(s, env, data)
       else
         var after := Drain(Next(s), env, rest);
         && Drain(s, env, data) == after.(events := events + after.events)
         && (ShortTrailers(Next(s), env, rest) ==> ShortTrailers(s, env, data))
  }

  /** Draining a buffer that starts with a written request: that request, then the rest, unless it was the last. */
  lemma FirstServed(s: Session, env: Env, m: Message, rest: seq<Byte>)
    requires s.parser == START && !s.stopped && Canonical(m) && WithinLimits(s.config.parser, m) && |m.body| < SIZE_LIMIT / 2
    requires Addressable(Print(m) + rest) && env.dispatch(s.dispatched) == Accepted
    ensures Serves(s, env, m, Print(m) + rest, rest)
  {
    hide Canonical, WithinLimits, Print, Meaning, BeforeBody, TurnOf, MeetsLongTrailer, Asks, Drain, ShortTrailers,
         Deliver, Closes;
    FirstTurn(s, env, m, rest);
    var data := Print(m) + rest;
    KeepAliveMeant(m);
    PrintSize(m);
    assert data[|Print(m)|..] == rest;
    if Asks(m) {
      var t := s.(parser := BeforeBody(m));
      ContinueServed(s, env, data, t);
      DeliverServed(t, env, data, s, Meaning(m), |Print(m)|);
    } else {
      DeliverServed(s, env, data, s, Meaning(m), |Print(m)|);
    }
  }

  lemma KeepAliveMeant(m: Message)
    ensures Meaning(m).keepAlive == !Closes(m.headers)
  {
    hide AllHeaders, Closes;
  }

  lemma PrintSize(m: Message)
    ensures |Print(m)| > 0
  {
    hide RequestLineOf, PrintHeaders, AllHeaders, PrintBody;
  }

  /** All the requests written are served, and nothing else happens. */
  lemma {:induction false} DrainServed(s: Session, env: Env, ms: seq<Message>)
    requires s.parser == START && !s.stopped && Sendable(s.config, ms) && Addressable(PrintAll(ms))
    requires s.dispatched + |ms| <= s.config.maxRequests && forall k :: env.dispatch(k) == Accepted
    ensures Ok(s, PrintAll(ms)) && ShortTrailers(s, env, PrintAll(ms))
    ensures var r := Drain(s, env, PrintAll(ms));
            && r.events == Served(ms, s.nextId, s.config.maxRequests - s.dispatched)
            && r.buffer == [] && r.s.dispatched == s.dispatched + |ms| && r.s.nextId == s.nextId + |ms|
    decreases |ms|
  {
    hide Canonical, WithinLimits, Print, Meaning, Asks, Closes, Drain, ShortTrailers, TurnOf;
    if ms == [] {
      FreshSettled(s, env);
      FreshShort(s, env);
    } else {
      var m, later := ms[0], ms[1..];
      var rest := PrintAll(later);
      FirstServed(s, env, m, rest);
      SendableTail(s.config, ms);
      if Closes(m.headers) || s.dispatched + 1 >= s.config.maxRequests {
        assert later == [];
      } else {
        DrainServed(Next(s), env, later);
        var ask: seq<Event> := if Asks(m) then [SentContinue] else [];
        Assoc(ask, [Dispatched(s.nextId, Meaning(m), false, Accepted)], Drain(Next(s), env, rest).events);
      }
    }
  }

  lemma SendableTail(config: Config, ms: seq<Message>)
    requires Sendable(config, ms) && ms != []
    ensures Sendable(config, ms[1..])
  {
    hide Canonical, WithinLimits, Closes;
  }

  lemma FreshShort(s: Session, env: Env)
    requires s.parser == START && !s.stopped
    ensures Ok(s, []) && ShortTrailers(s, env, [])
  {
    assert Step(s.config.parser, START, []) == Return(START, Incomplete);
  }

  /** Exactly these requests, in order and numbered from one. */
  ghost predicate AllServed(config: Config, ms: seq<Message>, fed: Drained) {
    && |ms| <= config.maxRequests && fed.events == Served(ms, 1, config.maxRequests)
    && Requests(fed.events) == Meanings(ms) && fed.s.dispatched == |ms|
  }

  /** The pipelined round trip: any canonical requests, each delimited by its length or cut into any
      chunks, written one after another and fed in any pieces that do not overflow the buffer, are
      dispatched exactly, in order, numbered 1, 2, 3 and so on. */
  lemma PipelineRoundTrip(config: Config, env: Env, ms: seq<Message>, pieces: seq<seq<Byte>>)
    requires config.maxBuffer < SIZE_LIMIT / 2 && Sendable(config, ms) && |ms| <= config.maxRequests
    requires Flatten(pieces) == PrintAll(ms) && Addressable(PrintAll(ms)) && forall k :: env.dispatch(k) == Accepted
    requires NeverOverflows(Fresh(config), env, [], pieces)
    ensures AllServed(config, ms, FeedAll(Fresh(config), env, [], pieces))
  {
    hide PrintAll, FeedAll, NeverOverflows, Drain, ShortTrailers, Sendable, Served;
    var s := Fresh(config);
    assert [] + Flatten(pieces) == PrintAll(ms);
    DrainServed(s, env, ms);
    FreshSettled(s, env);
    FeedAllIsDrain(s, env, [], pieces);
    RequestsServed(ms, 1, config.maxRequests);
  }
}

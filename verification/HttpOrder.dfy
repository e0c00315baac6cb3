/** What holds of every life of an HTTP/1.1 session, whatever octets it is fed. */
module HttpOrder {
  import opened Bytes
  import opened Protocol
  import opened HttpParser
  import opened HttpSession

  /** Events after which the session has stopped. */
  predicate Final(e: Event) {
    match e
    case SentContinue => false
    case Dispatched(_, _, close, answer) => close || answer != Accepted
    case PostedError(_, _) => true
    case Raised => true
  }

  function Delivered(events: seq<Event>): nat {
    if events == [] then 0 else (if events[0].Dispatched? then 1 else 0) + Delivered(events[1..])
  }

  /** Requests are numbered consecutively from `id`, and nothing comes after a final event. */
  predicate Orderly(events: seq<Event>, id: nat) {
    events == [] ||
    var e := events[0];
    && (e.Dispatched? ==> e.id == id) && (Final(e) ==> |events| == 1)
    && Orderly(events[1..], if e.Dispatched? then id + 1 else id)
  }

  predicate Unfinished(events: seq<Event>) {
    forall i :: 0 <= i < |events| ==> !Final(events[i])
  }

  lemma {:induction false} OrderlyAppend(a: seq<Event>, b: seq<Event>, id: nat)
    requires Orderly(a, id) && Unfinished(a) && Orderly(b, id + Delivered(a))
    ensures Orderly(a + b, id) && Delivered(a + b) == Delivered(a) + Delivered(b)
    decreases |a|
  {
    if a == [] {
      assert a + b == b;
    } else {
      assert (a + b)[1..] == a[1..] + b;
      OrderlyAppend(a[1..], b, if a[0].Dispatched? then id + 1 else id);
    }
  }

  lemma Single(e: Event, id: nat)
    requires Final(e) && (e.Dispatched? ==> e.id == id)
    ensures Orderly([e], id) && !Unfinished([e]) && Delivered([e]) == if e.Dispatched? then 1 else 0
  {
    var events := [e];
    assert events[1..] == [] && Final(events[0]);
  }

  /** What one call of Feed adds to the record of a session. */
  ghost predicate Added(s: Session, r: Drained) {
    && Orderly(r.events, s.nextId) && r.s.nextId == s.nextId + Delivered(r.events)
    && r.s.dispatched == s.dispatched + Delivered(r.events)
    && (r.s.stopped <==> s.stopped || !Unfinished(r.events))
    && r.s.config == s.config
    && (s.dispatched < s.config.maxRequests ==> r.s.dispatched <= s.config.maxRequests
                                                && (!r.s.stopped ==> r.s.dispatched < s.config.maxRequests))
  }

  lemma {:induction false} DrainAdds(s: Session, env: Env, buffer: seq<Byte>)
    requires Ok(s, buffer) && !s.stopped
    ensures Added(s, Drain(s, env, buffer)) && |Drain(s, env, buffer).buffer| <= |buffer|
    decreases |buffer|, Early(s)
  {
    hide TurnOf, Added;
    TurnAdds(s, env, buffer);
    match TurnOf(s, env, buffer)
    case Wait(t) => NothingAdded(s, Drained(t, buffer, Ready, []));
    case Stop(t, used, status, event) => LastAdded(s, Drained(t, buffer[used..], status, [event]), event);
    case Go(t, used, event) =>
      DrainAdds(t, env, buffer[used..]);
      FirstAdded(s, t, event, Drain(t, env, buffer[used..]));
  }

  /** What one turn does to the counters, and whether it may go on. */
  predicate Moves(s: Session, t: Session, event: Event) {
    var n := if event.Dispatched? then 1 else 0;
    && t.config == s.config && t.nextId == s.nextId + n && t.dispatched == s.dispatched + n
    && (event.Dispatched? ==> event.id == s.nextId && (!Final(event) ==> t.dispatched < s.config.maxRequests))
  }

  lemma TurnAdds(s: Session, env: Env, buffer: seq<Byte>)
    requires Ok(s, buffer) && !s.stopped
    ensures var turn := TurnOf(s, env, buffer);
            && (turn.Wait? ==> turn.s == s.(parser := turn.s.parser))
            && (turn.Go? ==> Moves(s, turn.s, turn.event) && !Final(turn.event) && !turn.s.stopped)
            && (turn.Stop? ==> Moves(s, turn.s, turn.event) && Final(turn.event) && turn.s.stopped)
  {
    hide Parse, StatusCode, FeedStatus;
  }

  lemma NothingAdded(s: Session, r: Drained)
    requires r.events == [] && r.s == s.(parser := r.s.parser) && !s.stopped
    ensures Added(s, r)
  {
  }

  lemma LastAdded(s: Session, r: Drained, event: Event)
    requires r.events == [event] && Moves(s, r.s, event) && Final(event) && r.s.stopped
    ensures Added(s, r)
  {
    Single(event, s.nextId);
  }

  lemma FirstAdded(s: Session, t: Session, event: Event, rest: Drained)
    requires Moves(s, t, event) && !Final(event) && !s.stopped && !t.stopped && Added(t, rest)
    ensures Added(s, rest.(events := [event] + rest.events))
  {
    var all := [event] + rest.events;
    assert all[1..] == rest.events && all[0] == event;
    if Unfinished(rest.events) {
      forall i | 0 <= i < |all| ensures !Final(all[i]) {
        assert i > 0 ==> all[i] == rest.events[i - 1];
      }
    } else {
      var i :| 0 <= i < |rest.events| && Final(rest.events[i]);
      assert all[i + 1] == rest.events[i];
    }
  }

  lemma FeedAdds(s: Session, env: Env, buffer: seq<Byte>, bytes: seq<Byte>)
    requires (Ok(s, buffer) || s.stopped) && s.config.maxBuffer < SIZE_LIMIT / 2
    ensures Added(s, Feed(s, env, buffer, bytes)) && (s.stopped ==> Feed(s, env, buffer, bytes).events == [])
    ensures |Feed(s, env, buffer, bytes).buffer| <= |buffer| + |bytes|
  {
    hide Drain;
    if !s.stopped && |buffer| + |bytes| <= s.config.maxBuffer {
      DrainAdds(s, env, buffer + bytes);
    } else if !s.stopped {
      Single(PostedError(413, env.post), s.nextId);
    }
  }

  /** In every life of a session: requests are numbered consecutively, never more than allowed, and
      nothing at all happens after the event that stopped it. */
  lemma {:induction false} EveryLifeIsOrderly(s: Session, env: Env, buffer: seq<Byte>, pieces: seq<seq<Byte>>)
    requires (Ok(s, buffer) || s.stopped) && s.config.maxBuffer < SIZE_LIMIT / 2
    requires s.stopped || s.dispatched < s.config.maxRequests
    ensures var r := FeedAll(s, env, buffer, pieces);
            && Orderly(r.events, s.nextId) && (s.stopped ==> r.events == [])
            && (!s.stopped ==> s.dispatched + Delivered(r.events) <= s.config.maxRequests)
    decreases |pieces|
  {
    hide Feed;
    if pieces != [] {
      var first := Feed(s, env, buffer, pieces[0]);
      FeedAdds(s, env, buffer, pieces[0]);
      EveryLifeIsOrderly(first.s, env, first.buffer, pieces[1..]);
      var rest := FeedAll(first.s, env, first.buffer, pieces[1..]);
      if first.s.stopped {
        assert first.events + rest.events == first.events;
      } else {
        OrderlyAppend(first.events, rest.events, s.nextId);
      }
    }
  }

  /** A stream no longer than the buffer never overflows it. */
  lemma {:induction false} ShortStreamFits(s: Session, env: Env, buffer: seq<Byte>, pieces: seq<seq<Byte>>)
    requires (Ok(s, buffer) || s.stopped) && s.config.maxBuffer < SIZE_LIMIT / 2
    requires |buffer| + |Flatten(pieces)| <= s.config.maxBuffer
    ensures NeverOverflows(s, env, buffer, pieces)
    decreases |pieces|
  {
    hide Feed;
    if pieces != [] && !s.stopped {
      var first := Feed(s, env, buffer, pieces[0]);
      FeedAdds(s, env, buffer, pieces[0]);
      ShortStreamFits(first.s, env, first.buffer, pieces[1..]);
    }
  }
}

/** Every life of the HTTP/2 receiver is the conversation that the frames taken prescribe, and the outbound
    scheduler is told of exactly the credit in them. */
module H2Answers {
  import opened Bytes
  import opened Frames
  import opened Protocol
  import opened Hpack
  import opened H2Inbound
  import opened H2Lifecycle
  import opened H2Payloads
  import opened H2Replies

  /** A frame as it was taken off the wire. */
  type Frame = (FrameHeader, seq<Byte>)

  /** What is said when these frames are taken one after the other. */
  ghost function Spoken(w: World, frames: seq<Frame>): Log {
    if frames == [] then [SentSettings]
    else
      var before := Spoken(w, frames[..|frames| - 1]);
      var (h, p) := frames[|frames| - 1];
      before + ([Took(h, p)] + Reply(before, w, h, p).0)
  }

  /** Whether the connection survives the last of them. */
  ghost predicate Survives(w: World, frames: seq<Frame>) {
    frames == [] ||
    var (h, p) := frames[|frames| - 1];
    Reply(Spoken(w, frames[..|frames| - 1]), w, h, p).1 != ProtocolError
  }

  ghost predicate AllSurvive(w: World, frames: seq<Frame>) {
    frames == [] || (Survives(w, frames) && AllSurvive(w, frames[..|frames| - 1]))
  }

  function Farewell(log: Log, code: nat): seq<Event> {
    [SentGoaway(Highest(log), code), ClosedOutbound]
  }

  /** The peer has not said GOAWAY, or only with the last of these frames. */
  predicate NoGoaway(frames: seq<Frame>) {
    forall i :: 0 <= i < |frames| ==> frames[i].0.kind != GOAWAY
  }

  predicate GoawayLast(frames: seq<Frame>) {
    frames == [] || NoGoaway(frames[..|frames| - 1])
  }

  /** The conversation so far. While the connection lasts no frame has ended it, and none is taken after GOAWAY. Once
      it is over, GOAWAY with the highest stream opened and the reason came last, unless the peer had not even
      introduced itself. */
  ghost predicate Conversation(log: Log, state: ConnectionState, w: World, frames: seq<Frame>) {
    match state
    case ExpectPreface => log == [] && frames == []
    case Closed =>
      GoawayLast(frames) &&
      (|| log == [ClosedOutbound] || log == Farewell([], PROTOCOL_ERROR)
       || (frames != [] && !Survives(w, frames) && AllSurvive(w, frames[..|frames| - 1])
           && log == Spoken(w, frames) + Farewell(Spoken(w, frames), PROTOCOL_ERROR))
       || (AllSurvive(w, frames)
           && (|| log == Spoken(w, frames) + Farewell(Spoken(w, frames), PROTOCOL_ERROR)
               || log == Spoken(w, frames) + Farewell(Spoken(w, frames), ENHANCE_YOUR_CALM))))
    case Connected => log == Spoken(w, frames) && AllSurvive(w, frames) && NoGoaway(frames)
    case Closing =>
      && log == Spoken(w, frames) && AllSurvive(w, frames)
      && frames != [] && frames[|frames| - 1].0.kind == GOAWAY && GoawayLast(frames)
  }

  ghost predicate Account(s: Session, log: Log, w: World, frames: seq<Frame>) {
    Knows(s, log, w) && Good(s, log) && Ledger(s, log) && Conversation(log, s.state, w, frames)
  }

  // ---- one frame more ----

  lemma SpokenMore(w: World, frames: seq<Frame>, h: FrameHeader, p: seq<Byte>)
    ensures var all := frames + [(h, p)];
            var before := Spoken(w, frames);
            var reply := Reply(before, w, h, p);
            && Spoken(w, all) == before + ([Took(h, p)] + reply.0) && all[..|all| - 1] == frames
            && (Survives(w, all) <==> reply.1 != ProtocolError)
            && (AllSurvive(w, all) <==> AllSurvive(w, frames) && reply.1 != ProtocolError)
  {
    hide Reply;
    var all := frames + [(h, p)];
    assert all[..|all| - 1] == frames;
  }

  lemma FrameAccount(s: Session, log: Log, w: World, frames: seq<Frame>, h: FrameHeader, p: seq<Byte>)
    requires Account(s, log, w, frames) && s.state == Connected
    ensures var r := Handle(s, w.env, h, p);
            var all := log + ([Took(h, p)] + r.events);
            var f := Fail(r.s, PROTOCOL_ERROR);
            if r.status == ProtocolError then Account(f.0, all + f.1, w, frames + [(h, p)])
            else Account(r.s, all, w, frames + [(h, p)])
  {
    hide Handle, Good, Ledger, Reply, Spoken, AllSurvive, Survives, Knows, Highest;
    var r := Handle(s, w.env, h, p);
    var all := log + ([Took(h, p)] + r.events);
    HandleIs(s, log, w, h, p);
    SpokenMore(w, frames, h, p);
    TookGood(s, w.env, log, h, p);
    FrameLedger(s, w.env, log, h, p);
    FrameTold(s, log, w, h, p);
    assert (frames + [(h, p)])[..|frames|] == frames;
    if r.status != ProtocolError {
      FrameState(s, w.env, h, p);
    } else {
      assert Fail(r.s, PROTOCOL_ERROR).1 == Farewell(all, PROTOCOL_ERROR);
    }
  }

  lemma FrameTold(s: Session, log: Log, w: World, h: FrameHeader, p: seq<Byte>)
    requires Informed(s, log, w)
    ensures var r := Handle(s, w.env, h, p);
            var all := log + ([Took(h, p)] + r.events);
            var f := Fail(r.s, PROTOCOL_ERROR);
            && r.s.lastId == Highest(all) && (r.s.state == Connected || r.s.state == Closing)
            && if r.status == ProtocolError then Knows(f.0, all + f.1, w) else Knows(r.s, all, w)
  {
    hide Handle, Good, Ledger, Highest, Remembers, Mirrors, Admitted, Next;
    var r := Handle(s, w.env, h, p);
    var all := log + ([Took(h, p)] + r.events);
    FrameHighest(s, log, w, h, p);
    FrameOrder(s, w.env, h, p);
    if r.status == ProtocolError {
      HighestAppend(all, Fail(r.s, PROTOCOL_ERROR).1);
    } else {
      FrameKnows(s, log, w, h, p);
    }
  }

  // ---- the end of the connection without a frame ----

  lemma FailAccount(s: Session, log: Log, w: World, frames: seq<Frame>, code: nat)
    requires Account(s, log, w, frames) && s.state != Closed && (code == PROTOCOL_ERROR || code == ENHANCE_YOUR_CALM)
    ensures Account(Fail(s, code).0, log + Fail(s, code).1, w, frames)
  {
    hide Inv, Ledger, Highest, Remembers, Mirrors, Spoken, AllSurvive, Survives, OrderlyUntilClosed, AllAdmitted;
    FailGood(s, log, code);
    FailLedger(s, log, code);
    HighestAppend(log, Fail(s, code).1);
    if s.state == ExpectPreface {
      assert [] + ([] + [ClosedOutbound]) == [ClosedOutbound];
    } else {
      assert Fail(s, code).1 == Farewell(log, code);
    }
  }

  lemma AbortedAccount(s: Session, log: Log, w: World, frames: seq<Frame>)
    requires Account(s, log, w, frames) && Reading(s)
    ensures var f := Fail(s.(state := Closing), PROTOCOL_ERROR);
            Account(f.0, log + f.1, w, frames)
  {
    hide Good, Ledger, Highest, Remembers, Mirrors, Spoken, AllSurvive, Survives;
    Aborted(s, log);
    AbortedLedger(s, log);
    var f := Fail(s.(state := Closing), PROTOCOL_ERROR);
    HighestAppend(log, f.1);
    assert f.1 == Farewell(log, PROTOCOL_ERROR);
    assert [] + Farewell([], PROTOCOL_ERROR) == Farewell([], PROTOCOL_ERROR);
  }

  lemma PrefaceAccount(s: Session, log: Log, w: World, frames: seq<Frame>, buffer: seq<Byte>, preface: seq<Byte>)
    requires Account(s, log, w, frames) && s.state == ExpectPreface
    ensures var t := PrefaceTurn(s, buffer, preface);
            !t.Wait? ==> Account(t.s, log + t.events, w, frames)
  {
    hide Fail, Good, Ledger, Knows, Spoken, AllSurvive;
    AbortedAccount(s, log, w, frames);
    PrefaceKeeps(s, log, buffer, preface);
    PrefaceLedger(s, log, buffer, preface);
    Introduced(s, w);
    assert [] + [SentSettings] == [SentSettings];
  }

  lemma Introduced(s: Session, w: World)
    requires Knows(s, [], w) && s.state != Closed
    ensures Knows(s.(state := Connected), [SentSettings], w) && Spoken(w, []) == [SentSettings] && AllSurvive(w, [])
  {
    hide DecodeBlock;
    var one: Log := [SentSettings];
    assert one[..0] == [] && [] + one == one;
    forall id: nat ensures Untouched(one, id) {
      SameBlocks([], one, w, id);
    }
  }

  // ---- every life ----

  lemma TurnAccount(s: Session, log: Log, w: World, frames: seq<Frame>, buffer: seq<Byte>) returns (more: seq<Frame>)
    requires Account(s, log, w, frames) && Reading(s)
    ensures var t := TurnOf(s, w.env, buffer);
            !t.Wait? ==> Account(t.s, log + t.events, w, frames + more)
  {
    hide Account, Fail, Handle, DecodeHeader, Preface;
    more := [];
    assert frames + [] == frames;
    if s.state == ExpectPreface {
      PrefaceAccount(s, log, w, frames, buffer, Preface());
    } else if |buffer| >= HEADER_SIZE {
      var h := DecodeHeader(buffer);
      AbortedAccount(s, log, w, frames);
      if h.length <= s.config.maxFrame && HEADER_SIZE + h.length <= |buffer| {
        var p := buffer[HEADER_SIZE..HEADER_SIZE + h.length];
        var r := Handle(s, w.env, h, p);
        FrameAccount(s, log, w, frames, h, p);
        Assoc(log, [Took(h, p)] + r.events, Fail(r.s, PROTOCOL_ERROR).1);
        more := [(h, p)];
      }
    }
  }

  lemma {:induction false} DrainAccount(s: Session, log: Log, w: World, frames: seq<Frame>, buffer: seq<Byte>)
      returns (more: seq<Frame>)
    requires Account(s, log, w, frames)
    ensures var r := Drain(s, w.env, buffer);
            Account(r.s, log + r.events, w, frames + more)
    decreases |buffer|
  {
    hide Account, TurnOf;
    more := [];
    assert log + [] == log && frames + [] == frames;
    if buffer != [] && Reading(s) {
      var first := TurnAccount(s, log, w, frames, buffer);
      match TurnOf(s, w.env, buffer)
      case Go(t, used, events) =>
        var rest := DrainAccount(t, log + events, w, frames + first, buffer[used..]);
        Assoc(log, events, Drain(t, w.env, buffer[used..]).events);
        Assoc(frames, first, rest);
        more := first + rest;
      case Stop(_, _, _, _) => more := first;
      case Wait =>
    }
  }

  /** Whatever octets come, in whatever pieces, and whatever executor and scheduler answer: the session says
      exactly what the frames taken prescribe. */
  lemma {:induction false} EveryLifeIsConversation(w: World, pieces: seq<seq<Byte>>) returns (frames: seq<Frame>)
    ensures var r := Life(w.config, w.decoder, w.env, pieces);
            Account(r.s, r.events, w, frames) && Conversation(r.events, r.s.state, w, frames)
    decreases |pieces|
  {
    hide Account, Drain, Fail, Conversation;
    if pieces == [] {
      FreshAccount(w);
      frames := [];
    } else {
      var before := Life(w.config, w.decoder, w.env, pieces[..|pieces| - 1]);
      var last := pieces[|pieces| - 1];
      frames := EveryLifeIsConversation(w, pieces[..|pieces| - 1]);
      assert before.events + [] == before.events;
      if before.s.state != Closed {
        if |before.buffer| + |last| > before.s.config.maxBuffer {
          FailAccount(before.s, before.events, w, frames, ENHANCE_YOUR_CALM);
        } else {
          var more := DrainAccount(before.s, before.events, w, frames, before.buffer + last);
          frames := frames + more;
        }
      }
    }
    Recounted(Life(w.config, w.decoder, w.env, pieces).s, Life(w.config, w.decoder, w.env, pieces).events, w, frames);
  }

  lemma Recounted(s: Session, log: Log, w: World, frames: seq<Frame>)
    requires Account(s, log, w, frames)
    ensures Conversation(log, s.state, w, frames)
  {
  }

  lemma FreshAccount(w: World)
    ensures Account(H2Inbound.Fresh(w.config, w.decoder), [], w, [])
  {
    FreshIsGood(w.config, w.decoder);
    FreshLedger(w.config, w.decoder);
  }

  // ---- what Feed reports ----

  /** The turn that a frame leads to: its answer, and its status reported. */
  ghost predicate Answers(t: Turn, log: Log, w: World, h: FrameHeader, p: seq<Byte>) {
    var reply := Reply(log, w, h, p);
    var events := [Took(h, p)] + reply.0;
    match reply.1
    case Ready => t.Go? && t == Go(t.s, 9 + |p|, events) && t.s.state != Closed
    case ProtocolError =>
      t.Stop? && t == Stop(t.s, 9 + |p|, CloseRequired, events + Farewell(log + events, PROTOCOL_ERROR)) && t.s.state == Closed
    case status => t.Stop? && t == Stop(t.s, 9 + |p|, status, events) && t.s.state != Closed
  }

  /** The octets at hand: too few for a header or its payload and they wait; a payload beyond the limit ends
      the connection before it is read; otherwise the frame is answered. */
  ghost predicate Tells(t: Turn, log: Log, w: World, buffer: seq<Byte>) {
    if |buffer| < 9 then t == Wait
    else
      var h := DecodeHeader(buffer);
      if h.length > w.config.maxFrame
      then t.Stop? && t == Stop(t.s, 0, CloseRequired, Farewell(log, PROTOCOL_ERROR)) && t.s.state == Closed
      else if |buffer| < 9 + h.length then t == Wait
      else Answers(t, log, w, h, buffer[9..9 + h.length])
  }

  lemma FrameTells(s: Session, log: Log, w: World, buffer: seq<Byte>)
    requires Informed(s, log, w)
    ensures Tells(TurnOf(s, w.env, buffer), log, w, buffer)
  {
    hide TurnOf, Good, Ledger, Highest, Remembers, Mirrors, DecodeHeader, Answers;
    NoFrameTells(s, w.env, buffer);
    if |buffer| >= 9 {
      var h := DecodeHeader(buffer);
      if h.length <= s.config.maxFrame && |buffer| >= 9 + h.length {
        WholeFrameTells(s, log, w, buffer, h);
      }
    }
  }

  lemma NoFrameTells(s: Session, env: Env, buffer: seq<Byte>)
    requires s.state == Connected
    ensures var t := TurnOf(s, env, buffer);
            if |buffer| < 9 then t == Wait
            else
              var length := DecodeHeader(buffer).length;
              if length > s.config.maxFrame
              then t == Stop(t.s, 0, CloseRequired, [SentGoaway(s.lastId, PROTOCOL_ERROR), ClosedOutbound]) && t.s.state == Closed
              else |buffer| < 9 + length ==> t == Wait
  {
    hide Handle, DecodeHeader, Preface, PrefaceTurn;
  }

  lemma WholeFrameTells(s: Session, log: Log, w: World, buffer: seq<Byte>, h: FrameHeader)
    requires Informed(s, log, w) && |buffer| >= 9 && h == DecodeHeader(buffer)
    requires h.length <= s.config.maxFrame && |buffer| >= 9 + h.length
    ensures Answers(TurnOf(s, w.env, buffer), log, w, h, buffer[9..9 + h.length])
  {
    hide Handle, Knows, Good, Ledger, Highest, Reply, DecodeHeader, Preface, PrefaceTurn;
    var p := buffer[9..9 + h.length];
    HandleIs(s, log, w, h, p);
    FrameTold(s, log, w, h, p);
    FrameLasts(s, w.env, h, p);
  }

  lemma FrameLasts(s: Session, env: Env, h: FrameHeader, p: seq<Byte>)
    requires s.state == Connected
    ensures Handle(s, env, h, p).s.state != Closed
  {
    hide Handle;
  }

  /** Before that, the connection preface: waited for as long as it may still come, refused once it cannot. */
  ghost predicate Introduces(s: Session, buffer: seq<Byte>, preface: seq<Byte>, t: Turn) {
    if preface <= buffer then t == Go(s.(state := Connected), |preface|, [SentSettings])
    else if buffer <= preface then t == Wait
    else t.Stop? && t == Stop(t.s, 0, CloseRequired, [SentGoaway(s.lastId, PROTOCOL_ERROR), ClosedOutbound]) && t.s.state == Closed
  }

  lemma PrefaceTells(s: Session, env: Env, buffer: seq<Byte>)
    requires s.state == ExpectPreface
    ensures Introduces(s, buffer, Preface(), TurnOf(s, env, buffer))
  {
    hide Preface, PrefaceTurn, Introduces;
    PrefaceTurnTells(s, buffer, Preface());
  }

  lemma PrefaceSpelled()
    ensures Preface() == [80, 82, 73, 32, 42, 32, 72, 84, 84, 80, 47, 50, 46, 48, 13, 10, 13, 10, 83, 77, 13, 10, 13, 10]
  {
    hide Ascii;
  }

  lemma PrefaceTurnTells(s: Session, buffer: seq<Byte>, preface: seq<Byte>)
    ensures Introduces(s, buffer, preface, PrefaceTurn(s, buffer, preface))
  {
    var n := Min(|buffer|, |preface|);
    if buffer[..n] == preface[..n] {
      if |buffer| < |preface| {
        assert buffer[..n] == buffer;
      } else {
        assert preface[..n] == preface;
      }
    }
  }

  /** A closed session takes nothing; a piece beyond the buffer ends the connection; any other is drained. */
  lemma FeedTells(s: Session, env: Env, buffer: seq<Byte>, bytes: seq<Byte>)
    ensures var r := Feed(s, env, buffer, bytes);
            if s.state == Closed then r == Drained(s, buffer, FeedStopped, [])
            else if |buffer| + |bytes| > s.config.maxBuffer then
              && r == Drained(r.s, [], CloseRequired,
                              if s.state == ExpectPreface then [ClosedOutbound]
                              else [SentGoaway(s.lastId, ENHANCE_YOUR_CALM), ClosedOutbound])
              && r.s.state == Closed
            else r == Drain(s, env, buffer + bytes)
  {
    hide Drain;
  }

  // ---- credit ----

  /** The credit the scheduler was told of, for a stream or (0) the connection. */
  function Credits(log: Log, id: nat): nat {
    if log == [] then 0 else Credits(log[..|log| - 1], id) + Worth(log[|log| - 1], id)
  }

  function Worth(e: Event, id: nat): nat {
    match e
    case PeerConnectionCredit(increment) => if id == 0 then increment else 0
    case PeerStreamCredit(x, increment) => if id == x > 0 then increment else 0
    case _ => 0
  }

  /** What a frame grants: a well-formed WINDOW_UPDATE that comes in time. */
  ghost function Grants(log: Log, e: Event, id: nat): nat {
    if e.Took? && e.header.kind == WINDOW_UPDATE && e.header.id == id && |e.payload| == 4 && Timely(log, e.header)
    then Increment(e.payload) else 0
  }

  /** The increments of the WINDOW_UPDATE frames taken for a stream or the connection. */
  ghost function Increments(log: Log, id: nat): nat {
    if log == [] then 0
    else
      var before, e := log[..|log| - 1], log[|log| - 1];
      Increments(before, id) + Grants(before, e, id)
  }

  lemma {:induction false} CreditsAppend(a: Log, b: seq<Event>, id: nat)
    ensures Credits(a + b, id) == Credits(a, id) + Credits(b, id)
    decreases |b|
  {
    hide Worth;
    if b == [] {
      assert a + b == a;
    } else {
      assert (a + b)[..|a + b| - 1] == a + b[..|b| - 1];
      CreditsAppend(a, b[..|b| - 1], id);
    }
  }

  lemma {:induction false} IncrementsAppend(a: Log, b: seq<Event>, id: nat)
    requires NoTook(b)
    ensures Increments(a + b, id) == Increments(a, id)
    decreases |b|
  {
    hide Timely, Increment;
    if b == [] {
      assert a + b == a;
    } else {
      assert (a + b)[..|a + b| - 1] == a + b[..|b| - 1];
      IncrementsAppend(a, b[..|b| - 1], id);
    }
  }

  lemma IncrementsTook(log: Log, h: FrameHeader, p: seq<Byte>, id: nat)
    ensures Increments(log + [Took(h, p)], id) == Increments(log, id) + Grants(log, Took(h, p), id)
  {
    hide Grants;
    var all := log + [Took(h, p)];
    assert all[..|all| - 1] == log;
  }

  predicate NoCredit(events: seq<Event>) {
    forall i :: 0 <= i < |events| ==> !events[i].PeerConnectionCredit? && !events[i].PeerStreamCredit?
  }

  lemma {:induction false} NoCredits(events: seq<Event>, id: nat)
    requires NoCredit(events)
    ensures Credits(events, id) == 0
  {
    if events != [] {
      NoCredits(events[..|events| - 1], id);
    }
  }

  /** An answer contains no frame, and credit only if the frame grants it. */
  lemma ReplyCredit(log: Log, w: World, h: FrameHeader, p: seq<Byte>)
    ensures var events := Reply(log, w, h, p).0;
            && NoTook(events)
            && if h.kind == WINDOW_UPDATE && |p| == 4 && Timely(log, h) && Increment(p) > 0
               then events == [Credit(h.id, Increment(p))]
               else NoCredit(events)
  {
    hide Timely, Tolerable, Queries, Highest, PeerOf, Ack, Increment, Announced, DecodeBlock, Assemble, OpenIds,
         Unpad, EndHeaders, EndStream, SawEndStream, SawEndHeaders, BlockOf, DecoderOf, RequestOf, TookData,
         CreditLeft, Dispatches, Priority;
  }

  lemma ReplyWorth(log: Log, w: World, h: FrameHeader, p: seq<Byte>, id: nat)
    ensures Credits(Reply(log, w, h, p).0, id) == Grants(log, Took(h, p), id)
  {
    hide Reply, Timely, Increment;
    ReplyCredit(log, w, h, p);
    var events := Reply(log, w, h, p).0;
    if NoCredit(events) {
      NoCredits(events, id);
    } else {
      var one: seq<Event> := [Credit(h.id, Increment(p))];
      assert one[..0] == [];
    }
  }

  lemma {:induction false} SpokenCredit(w: World, frames: seq<Frame>, id: nat)
    ensures Credits(Spoken(w, frames), id) == Increments(Spoken(w, frames), id)
    decreases |frames|
  {
    hide Reply, Grants, Credits, Increments;
    if frames == [] {
      Silence(id);
    } else {
      SpokenCredit(w, frames[..|frames| - 1], id);
      var before := Spoken(w, frames[..|frames| - 1]);
      var (h, p) := frames[|frames| - 1];
      var events := Reply(before, w, h, p).0;
      ReplyCredit(before, w, h, p);
      ReplyWorth(before, w, h, p, id);
      Assoc(before, [Took(h, p)], events);
      IncrementsTook(before, h, p, id);
      IncrementsAppend(before + [Took(h, p)], events, id);
      CreditsAppend(before + [Took(h, p)], events, id);
      CreditsAppend(before, [Took(h, p)], id);
      FrameNoCredit(h, p, id);
    }
  }

  lemma Silence(id: nat)
    ensures Credits([SentSettings], id) == 0 == Increments([SentSettings], id)
    ensures Credits([ClosedOutbound], id) == 0 == Increments([ClosedOutbound], id)
    ensures Credits([], id) == 0 == Increments([], id)
  {
    assert [SentSettings][..0] == [] && [ClosedOutbound][..0] == [];
  }

  lemma FrameNoCredit(h: FrameHeader, p: seq<Byte>, id: nat)
    ensures Credits([Took(h, p)], id) == 0
  {
    assert [Took(h, p)][..0] == [];
  }

  lemma FarewellCredit(log: Log, from: Log, code: nat, id: nat)
    ensures Credits(log + Farewell(from, code), id) == Credits(log, id)
    ensures Increments(log + Farewell(from, code), id) == Increments(log, id)
  {
    hide Credits, Increments;
    CreditsAppend(log, Farewell(from, code), id);
    IncrementsAppend(log, Farewell(from, code), id);
    NoCredits(Farewell(from, code), id);
  }

  /** Over every life the scheduler is told of exactly the increments of the WINDOW_UPDATE frames taken, each
      stream's and the connection's. */
  lemma WindowUpdatesTold(w: World, pieces: seq<seq<Byte>>, id: nat)
    ensures var log := Life(w.config, w.decoder, w.env, pieces).events;
            Credits(log, id) == Increments(log, id)
  {
    hide Life, Account, Spoken, Survives, AllSurvive, Credits, Increments, Farewell;
    var frames := EveryLifeIsConversation(w, pieces);
    SpokenCredit(w, frames, id);
    FarewellCredit(Spoken(w, frames), Spoken(w, frames), PROTOCOL_ERROR, id);
    FarewellCredit(Spoken(w, frames), Spoken(w, frames), ENHANCE_YOUR_CALM, id);
    FarewellCredit([], [], PROTOCOL_ERROR, id);
    assert [] + Farewell([], PROTOCOL_ERROR) == Farewell([], PROTOCOL_ERROR);
    Silence(id);
  }

  /** The scheduler took every increment for the connection. */
  ghost predicate Approved(w: World, log: Log) {
    forall j :: 0 <= j < |log| && log[j].PeerConnectionCredit? ==> w.env.outbound(Queries(log[..j]))
  }

  lemma ReplyApproved(log: Log, w: World, h: FrameHeader, p: seq<Byte>)
    ensures var reply := Reply(log, w, h, p);
            reply.1 != ProtocolError && |reply.0| > 0 && reply.0[0].PeerConnectionCredit? ==> w.env.outbound(Queries(log))
  {
    hide Timely, Tolerable, Queries, Highest, PeerOf, Ack, Increment, Announced, DecodeBlock, Assemble, OpenIds,
         Unpad, EndHeaders, EndStream, SawEndStream, SawEndHeaders, BlockOf, DecoderOf, RequestOf, TookData,
         CreditLeft, Dispatches, Priority;
  }

  lemma ApprovedMore(w: World, log: Log, h: FrameHeader, p: seq<Byte>)
    requires Approved(w, log) && Reply(log, w, h, p).1 != ProtocolError
    ensures Approved(w, log + ([Took(h, p)] + Reply(log, w, h, p).0))
  {
    hide Reply, Queries, Timely, Increment, OpenIds, Dispatches, Highest, PeerOf, Heard;
    var events := Reply(log, w, h, p).0;
    var all := log + ([Took(h, p)] + events);
    ReplyCredit(log, w, h, p);
    ReplyApproved(log, w, h, p);
    SettingsTook(log, h, p, w);
    forall j | 0 <= j < |all| && all[j].PeerConnectionCredit? ensures w.env.outbound(Queries(all[..j])) {
      if j < |log| {
        assert all[..j] == log[..j];
      } else {
        assert all[j] == events[j - |log| - 1];
        assert all[..|log| + 1] == log + [Took(h, p)];
      }
    }
  }

  /** While the connection lasts, it did. */
  lemma {:induction false} SpokenApproved(w: World, frames: seq<Frame>)
    requires AllSurvive(w, frames)
    ensures Approved(w, Spoken(w, frames))
    decreases |frames|
  {
    hide Reply, Queries, Approved;
    if frames == [] {
      NothingToApprove(w);
    } else {
      SpokenApproved(w, frames[..|frames| - 1]);
      ApprovedMore(w, Spoken(w, frames[..|frames| - 1]), frames[|frames| - 1].0, frames[|frames| - 1].1);
    }
  }

  lemma NothingToApprove(w: World)
    ensures Approved(w, [SentSettings]) && Approved(w, [])
  {
  }

  lemma LifeApproved(w: World, pieces: seq<seq<Byte>>)
    requires Life(w.config, w.decoder, w.env, pieces).s.state != Closed
    ensures Approved(w, Life(w.config, w.decoder, w.env, pieces).events)
  {
    hide Life, Account, Spoken, Survives, AllSurvive, Approved;
    var frames := EveryLifeIsConversation(w, pieces);
    NothingToApprove(w);
    if AllSurvive(w, frames) {
      SpokenApproved(w, frames);
    }
  }
}

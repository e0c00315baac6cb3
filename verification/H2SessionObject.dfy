/** H2Session of http2_stream.cpp as an object: its fields change frame by frame inside Feed, and every
    method does what the functions of module H2Inbound say. */
module H2SessionObject {
  import opened Bytes
  import opened Frames
  import opened Protocol
  import opened Hpack
  import opened H2Inbound
  import opened HpackCodecObject

  /** The loop over the decoded header list. */
  method AssembleRequest(id: nat, list: seq<Entry>) returns (built: Built)
    ensures built == Assemble(id, list)
  {
    hide AddHeader, Ascii, FindByte;
    var acc := Partial(None, None, [], false);
    var i := 0;
    while i < |list|
      invariant 0 <= i <= |list|
      invariant AddHeaders(Partial(None, None, [], false), list) == AddHeaders(acc, list[i..])
    {
      var next := AddHeader(acc, list[i]);
      assert list[i..][1..] == list[i + 1..];
      if next.None? {
        return Malformed;
      }
      acc := next.value;
      i := i + 1;
    }
    if acc.methodText.None? || acc.target.None? || acc.methodText.value !in METHODS {
      return Unusable;
    }
    var target := acc.target.value;
    var q := FindOctet(target, 63);
    var query := if q < |target| then target[q + 1..] else [];
    built := Usable(Request(id, acc.methodText.value, target, target[..q], query, acc.headers, []));
  }

  method FindOctet(text: seq<Byte>, octet: Byte) returns (q: nat)
    ensures q == FindByte(text, octet)
  {
    q := 0;
    while q < |text| && text[q] != octet
      invariant 0 <= q <= |text|
      invariant forall k :: 0 <= k < q ==> text[k] != octet
    {
      q := q + 1;
    }
  }

  class H2Session {
    const config: Config
    const env: Env
    const decoder: HpackCodec
    var state: ConnectionState
    var lastId: nat
    var window: nat
    var gotSettings: bool
    var continuation: Option<nat>
    var streams: map<nat, Inflow>
    var peer: Peer
    var buffer: seq<Byte>
    var dispatches: nat
    var queries: nat
    /** The requests accepted since the connection began; Feed reports the difference. */
    var accepted: nat
    /** Frames sent, calls on the scheduler and requests dispatched since the connection began. */
    var log: seq<Event>

    ghost predicate Valid()
      reads this, decoder
    {
      decoder.Valid() && Tallied()
    }

    ghost predicate Tallied()
      reads this`accepted, this`log
    {
      accepted == AcceptedIn(log)
    }

    ghost function Model(): Session
      reads this, decoder
    {
      Session(config, state, lastId, decoder.Model(), window, gotSettings, continuation, streams, peer, dispatches, queries)
    }

    /** The outcome of one step, given the log before it. */
    ghost predicate Did(before: seq<Event>, status: Status, r: Step)
      reads this, decoder
    {
      Model() == r.s && log == before + r.events && status == r.status
    }

    constructor (config: Config, env: Env, statics: seq<Entry>, maxTable: nat, maxList: nat)
      requires |statics| > 0
      ensures Valid() && fresh(decoder) && this.env == env
      ensures Model() == H2Inbound.Fresh(config, Hpack.Fresh(Strings(), statics, maxTable, maxList))
      ensures buffer == [] && log == []
    {
      this.config, this.env := config, env;
      decoder := new HpackCodec(statics, maxTable, maxList);
      state, lastId, window, gotSettings := ExpectPreface, 0, config.window, false;
      continuation, streams, peer, buffer := None, map[], Peer(4096, 65535, 16384, 100, maxList), [];
      dispatches, queries, accepted, log := 0, 0, 0, [];
    }

    /** One more event, other than a dispatch. */
    method Emit(e: Event)
      requires Tallied() && !e.Dispatched?
      modifies this`log
      ensures Tallied() && log == old(log) + [e]
    {
      log := log + [e];
      assert log[..|log| - 1] == old(log);
    }

    /** A dispatch, counted if the executor took it. */
    method EmitDispatch(request: Request, answer: Answer)
      requires Tallied()
      modifies this`log, this`accepted
      ensures Tallied() && log == old(log) + [Dispatched(request, answer)]
    {
      log := log + [Dispatched(request, answer)];
      assert log[..|log| - 1] == old(log);
      if answer == Accepted {
        accepted := accepted + 1;
      }
    }

    method CloseStream(id: nat)
      requires Tallied()
      modifies this`streams, this`log
      ensures Tallied()
      ensures streams == old(streams) - {id} && log == old(log) + [ClosedStream(id)]
    {
      streams := streams - {id};
      Emit(ClosedStream(id));
    }

    /** FailConnection; Goaway is sent while the connection is open or closing. */
    method FailConnection(code: nat) returns (status: Status)
      requires Valid()
      modifies this
      ensures Valid() && buffer == [] && status == CloseRequired
      ensures Model() == Fail(old(Model()), code).0 && log == old(log) + Fail(old(Model()), code).1
    {
      hide decoder.Valid, Strings, AcceptedIn;
      if state == Connected || state == Closing {
        Emit(SentGoaway(lastId, code));
        Assoc(old(log), [SentGoaway(lastId, code)], [ClosedOutbound]);
      } else {
        assert [] + [ClosedOutbound] == [ClosedOutbound];
      }
      Emit(ClosedOutbound);
      Shut();
      status := CloseRequired;
    }

    method Shut()
      modifies this`state, this`streams, this`continuation, this`buffer
      ensures state == Closed && streams == map[] && continuation == None && buffer == []
    {
      state, streams, continuation, buffer := Closed, map[], None, [];
    }

    method DispatchRequest(id: nat) returns (status: Status)
      requires Valid()
      modifies this
      ensures Valid() && buffer == old(buffer)
      ensures Did(old(log), status, Dispatch(old(Model()), env, id))
    {
      hide decoder.Valid, Strings, AcceptedIn;
      if id !in streams || !streams[id].complete || !streams[id].ended || streams[id].request.None? {
        return ProtocolError;
      }
      var answer := env.dispatch(dispatches);
      EmitDispatch(streams[id].request.value.(body := streams[id].body), answer);
      dispatches := dispatches + 1;
      if answer == Accepted {
        streams := streams - {id};
        return Ready;
      }
      CloseStream(id);
      status := if answer == Saturated then ExecutorSaturated else ExecutorStopped;
    }

    method HandleSettingsFrame(h: FrameHeader, p: seq<Byte>) returns (status: Status)
      requires Valid()
      modifies this
      ensures Valid() && buffer == old(buffer)
      ensures Did(old(log), status, HandleSettings(old(Model()), env, h, p))
    {
      hide decoder.Valid, Strings, ReadSettings, Ack, AcceptedIn;
      if h.id != 0 {
        return ProtocolError;
      }
      if Ack(h) {
        return if p == [] then Ready else ProtocolError;
      }
      if |p| % 6 != 0 {
        return ProtocolError;
      }
      gotSettings := true;
      var ok: bool;
      peer, ok := ReadAll(p, peer);
      if !ok {
        return ProtocolError;
      }
      ok := env.outbound(queries);
      queries := queries + 1;
      Emit(PeerSettings(peer));
      if !ok {
        return ProtocolError;
      }
      Emit(SentAck);
      status := Ready;
    }

    /** The tail of HandleHeaders, from a complete header block on. */
    method FinishBlock(id: nat) returns (status: Status)
      requires Valid() && id in streams
      modifies this, decoder
      ensures Valid() && buffer == old(buffer)
      ensures Did(old(log), status, FinishHeaders(old(Model()), env, id))
    {
      hide DecodeBlock, Assemble, Dispatch, decoder.Valid, Strings, AcceptedIn;
      var ok, headers := decoder.Decode(streams[id].block);
      if !ok {
        Emit(SentReset(id, COMPRESSION_ERROR));
        CloseStream(id);
        return Ready;
      }
      var built := AssembleRequest(id, headers);
      match built {
        case Malformed => return ProtocolError;
        case Unusable =>
          CloseStream(id);
          return ProtocolError;
        case Usable(request) =>
          streams := streams[id := streams[id].(request := Some(request), complete := true)];
          if streams[id].ended {
            status := DispatchRequest(id);
          } else {
            status := Ready;
          }
      }
    }

    method AppendFragment(h: FrameHeader, fragment: seq<Byte>, ended: bool) returns (status: Status)
      requires Valid() && h.id in streams
      modifies this, decoder
      ensures Valid() && buffer == old(buffer)
      ensures Did(old(log), status, AddFragment(old(Model()), env, h, fragment, ended))
    {
      hide FinishHeaders, EndHeaders, decoder.Valid, Strings, AcceptedIn;
      var st := streams[h.id];
      streams := streams[h.id := st.(block := st.block + fragment, ended := st.ended || ended)];
      if !EndHeaders(h) {
        continuation := Some(h.id);
        return Ready;
      }
      continuation := None;
      if st.complete {
        return ProtocolError;
      }
      status := FinishBlock(h.id);
    }

    method HandleHeadersFrame(h: FrameHeader, p: seq<Byte>) returns (status: Status)
      requires Valid()
      modifies this, decoder
      ensures Valid() && buffer == old(buffer)
      ensures Did(old(log), status, HandleHeaders(old(Model()), env, h, p))
    {
      hide AddFragment, Unpad, decoder.Valid, Strings, AcceptedIn;
      if h.id % 2 != 1 || h.id <= lastId || h.id in streams || |streams| >= config.maxStreams {
        return ProtocolError;
      }
      streams := streams[h.id := Inflow(config.window, [], [], false, false, None)];
      Emit(OpenedStream(h.id));
      lastId := h.id;
      var fragment := Unpad(h, p, if Priority(h) then 5 else 0);
      if fragment.None? {
        return ProtocolError;
      }
      ghost var r := AddFragment(Model(), env, h, fragment.value, EndStream(h));
      Assoc(old(log), [OpenedStream(h.id)], r.events);
      status := AppendFragment(h, fragment.value, EndStream(h));
    }

    method HandleContinuationFrame(h: FrameHeader, p: seq<Byte>) returns (status: Status)
      requires Valid()
      modifies this, decoder
      ensures Valid() && buffer == old(buffer)
      ensures Did(old(log), status, HandleContinuation(old(Model()), env, h, p))
    {
      hide AddFragment, decoder.Valid, Strings, AcceptedIn;
      if continuation != Some(h.id) || h.id !in streams {
        return ProtocolError;
      }
      status := AppendFragment(h, p, false);
    }

    /** Restores a window that fell below half, telling the peer. */
    method TopUp(id: nat, left: nat) returns (restored: nat)
      requires Tallied()
      modifies this`log
      ensures Tallied()
      ensures forall window: nat, flow: nat :: flow <= window && window - flow == left ==>
        restored == Charge(window, flow, config.window).0
        && log == old(log) + Grant(id, Charge(window, flow, config.window).1)
    {
      if left < config.window / 2 {
        if config.window != left {
          Emit(Granted(id, config.window - left));
        }
        return config.window;
      }
      return left;
    }

    method AcceptData(h: FrameHeader, flow: nat, data: seq<Byte>) returns (status: Status)
      requires Valid() && h.id in streams && flow <= streams[h.id].window && flow <= window
      modifies this
      ensures Valid() && buffer == old(buffer)
      ensures Did(old(log), status, TakeData(old(Model()), env, h, flow, data))
    {
      hide Dispatch, Charge, Grant, EndStream, decoder.Valid, Strings, AcceptedIn;
      var st := streams[h.id];
      Emit(AcceptedData(h.id, flow, data));
      var connection := TopUp(0, window - flow);
      var stream := TopUp(h.id, st.window - flow);
      ghost var c := Charge(window, flow, config.window);
      ghost var t := Charge(st.window, flow, config.window);
      assert log == old(log) + ([AcceptedData(h.id, flow, data)] + Grant(0, c.1) + Grant(h.id, t.1));
      window := connection;
      streams := streams[h.id := st.(window := stream, body := st.body + data, ended := EndStream(h))];
      if EndStream(h) {
        status := DispatchRequest(h.id);
      } else {
        status := Ready;
      }
    }

    method HandleDataFrame(h: FrameHeader, p: seq<Byte>) returns (status: Status)
      requires Valid()
      modifies this
      ensures Valid() && buffer == old(buffer)
      ensures Did(old(log), status, HandleData(old(Model()), env, h, p))
    {
      hide TakeData, Unpad, decoder.Valid, Strings, AcceptedIn;
      if h.id == 0 || h.id !in streams || !streams[h.id].complete || streams[h.id].ended {
        return ProtocolError;
      }
      var st := streams[h.id];
      var data := Unpad(h, p, 0);
      if data.None? {
        return ProtocolError;
      }
      if |p| > st.window || |p| > window {
        CloseStream(h.id);
        return ProtocolError;
      }
      if |data.value| > config.maxBody || |st.body| > config.maxBody - |data.value| {
        CloseStream(h.id);
        return BufferLimit;
      }
      status := AcceptData(h, |p|, data.value);
    }

    method HandleWindowUpdateFrame(h: FrameHeader, p: seq<Byte>) returns (status: Status)
      requires Valid()
      modifies this
      ensures Valid() && buffer == old(buffer)
      ensures Did(old(log), status, HandleWindowUpdate(old(Model()), env, h, p))
    {
      hide ReadIncrement, decoder.Valid, Strings, AcceptedIn;
      if |p| != 4 || ReadIncrement(p) == 0 {
        return ProtocolError;
      }
      var increment := ReadIncrement(p);
      var ok := env.outbound(queries);
      queries := queries + 1;
      Emit(if h.id == 0 then PeerConnectionCredit(increment) else PeerStreamCredit(h.id, increment));
      status := if !ok && (h.id == 0 || h.id > lastId) then ProtocolError else Ready;
    }

    /** RST_STREAM, PING, GOAWAY, PRIORITY, PUSH_PROMISE and unknown types. */
    method HandleOtherFrame(h: FrameHeader, p: seq<Byte>) returns (status: Status)
      requires Valid()
      modifies this
      ensures Valid() && buffer == old(buffer)
      ensures Did(old(log), status, HandleOther(old(Model()), h, p))
    {
      hide decoder.Valid, Strings, AcceptedIn;
      status := Ready;
      if h.kind == RST_STREAM {
        if h.id == 0 || |p| != 4 {
          return ProtocolError;
        }
        CloseStream(h.id);
      } else if h.kind == PING {
        if h.id != 0 || |p| != 8 {
          return ProtocolError;
        }
        if !Ack(h) {
          Emit(SentPong(p));
        }
      } else if h.kind == GOAWAY {
        if h.id != 0 || |p| < 8 {
          return ProtocolError;
        }
        state := Closing;
      } else if h.kind == PRIORITY {
        if h.id == 0 || |p| != 5 {
          return ProtocolError;
        }
      } else if h.kind == PUSH_PROMISE {
        return ProtocolError;
      }
    }

    /** ConsumeFrame once the frame is off the buffer. */
    method HandleFrame(h: FrameHeader, p: seq<Byte>) returns (status: Status)
      requires Valid()
      modifies this, decoder
      ensures Valid() && buffer == old(buffer)
      ensures Did(old(log), status, Handle(old(Model()), env, h, p))
    {
      hide HandleSettings, HandleHeaders, HandleContinuation, HandleData, HandleWindowUpdate, HandleOther, decoder.Valid, Strings, AcceptedIn;
      if !gotSettings && (h.kind != SETTINGS || Ack(h)) {
        state := Closing;
        return ProtocolError;
      }
      if continuation.Some? && (h.kind != CONTINUATION || h.id != continuation.value) {
        state := Closing;
        return ProtocolError;
      }
      if h.kind == SETTINGS {
        status := HandleSettingsFrame(h, p);
      } else if (h.kind == HEADERS || h.kind == CONTINUATION) && h.id == 0 {
        return ProtocolError;
      } else if h.kind == HEADERS {
        status := HandleHeadersFrame(h, p);
      } else if h.kind == CONTINUATION {
        status := HandleContinuationFrame(h, p);
      } else if h.kind == DATA {
        status := HandleDataFrame(h, p);
      } else if h.kind == WINDOW_UPDATE {
        status := HandleWindowUpdateFrame(h, p);
      } else {
        status := HandleOtherFrame(h, p);
      }
    }

    method ConsumePreface() returns (status: Status, consumed: bool)
      requires Valid()
      modifies this
      ensures Valid()
      ensures match PrefaceTurn(old(Model()), old(buffer), Preface())
              case Wait => status == Ready && !consumed && unchanged(this)
              case Go(t, used, events) =>
                && status == Ready && consumed && Model() == t
                && buffer == old(buffer)[used..] && log == old(log) + events
              case Stop(t, _, stop, events) =>
                && status == ProtocolError && stop == CloseRequired
                && t == Fail(Model(), PROTOCOL_ERROR).0 && old(log) + events == log + Fail(Model(), PROTOCOL_ERROR).1
    {
      hide decoder.Valid, Strings, Fail, Preface, AcceptedIn;
      var preface := Preface();
      var compared := Min(|buffer|, |preface|);
      var index := 0;
      while index < compared
        invariant 0 <= index <= compared && unchanged(this)
        invariant buffer[..index] == preface[..index]
      {
        if buffer[index] != preface[index] {
          assert buffer[..compared][index] != preface[..compared][index];
          state := Closing;
          return ProtocolError, false;
        }
        index := index + 1;
      }
      if |buffer| < |preface| {
        return Ready, false;
      }
      buffer, state := buffer[|preface|..], Connected;
      Emit(SentSettings);
      return Ready, true;
    }

    method ConsumeFrame() returns (status: Status, consumed: bool)
      requires Valid() && state == Connected
      modifies this, decoder
      ensures Valid()
      ensures match FrameTurn(old(Model()), env, old(buffer))
              case Wait => status == Ready && !consumed && Model() == old(Model()) && buffer == old(buffer) && log == old(log)
              case Go(t, used, events) =>
                && status == Ready && consumed && Model() == t
                && buffer == old(buffer)[used..] && log == old(log) + events
              case Stop(t, used, stop, events) =>
                if stop == CloseRequired then
                  && status == ProtocolError
                  && t == Fail(Model(), PROTOCOL_ERROR).0 && old(log) + events == log + Fail(Model(), PROTOCOL_ERROR).1
                else
                  && status == stop && status != Ready && status != ProtocolError && Model() == t
                  && buffer == old(buffer)[used..] && log == old(log) + events
    {
      hide decoder.Valid, Strings, Fail, Handle, DecodeHeader, AcceptedIn;
      if |buffer| < HEADER_SIZE {
        return Ready, false;
      }
      var h := DecodeHeader(buffer);
      var total := HEADER_SIZE + h.length;
      if h.length > config.maxFrame {
        state := Closing;
        return ProtocolError, false;
      }
      if |buffer| < total {
        return Ready, false;
      }
      var p := buffer[HEADER_SIZE..total];
      Emit(Took(h, p));
      buffer := buffer[total..];
      ghost var r := Handle(Model(), env, h, p);
      Assoc(old(log), [Took(h, p)], r.events);
      Assoc(old(log), [Took(h, p)] + r.events, Fail(r.s, PROTOCOL_ERROR).1);
      HandleStatus(Model(), env, h, p);
      status := HandleFrame(h, p);
      consumed := true;
    }

    /** What a turn did, given the session, the octets and the log before it. */
    ghost predicate Turned(turn: Turn, s: Session, octets: seq<Byte>, before: seq<Event>, status: Status, consumed: bool)
      requires !turn.Wait? ==> turn.used <= |octets|
      reads this, decoder
    {
      match turn
      case Wait => status == Ready && !consumed && Model() == s && buffer == octets && log == before
      case Go(t, used, events) =>
        status == Ready && consumed && Model() == t && buffer == octets[used..] && log == before + events
      case Stop(t, used, stop, events) =>
        && status == stop && status != Ready && Model() == t
        && buffer == (if t.state == Closed then [] else octets[used..]) && log == before + events
    }

    /** One turn of the loop of Feed. */
    method TakeTurn() returns (status: Status, consumed: bool)
      requires Valid() && Reading(Model())
      modifies this, decoder
      ensures Valid()
      ensures Turned(TurnOf(old(Model()), env, old(buffer)), old(Model()), old(buffer), old(log), status, consumed)
    {
      hide decoder.Valid, Strings, FrameTurn, PrefaceTurn, Preface, AcceptedIn;
      if state == ExpectPreface {
        status, consumed := ConsumePreface();
      } else {
        status, consumed := ConsumeFrame();
      }
      if status == ProtocolError {
        status := FailConnection(PROTOCOL_ERROR);
      }
      TurnShape(old(Model()), env, old(buffer));
    }

    /** The loop of Feed over the receive buffer. */
    method DrainBuffer() returns (status: Status)
      requires Valid()
      modifies this, decoder
      ensures Valid()
      ensures var r := Drain(old(Model()), env, old(buffer));
              Model() == r.s && buffer == r.buffer && status == r.status && log == old(log) + r.events
    {
      hide decoder.Valid, Strings, TurnOf, Drain, AcceptedIn, Ahead;
      ghost var whole := Drain(Model(), env, buffer);
      ghost var did: seq<Event> := [];
      StartsAhead(whole);
      while buffer != [] && (state == ExpectPreface || state == Connected)
        invariant Valid() && log == old(log) + did
        invariant Ahead(whole, Drain(Model(), env, buffer), did)
        decreases |buffer|
      {
        ghost var t := TurnOf(Model(), env, buffer);
        DrainTurns(whole, did, Model(), env, buffer);
        var consumed;
        status, consumed := TakeTurn();
        if status != Ready || !consumed {
          Assoc(old(log), did, if t.Stop? then t.events else []);
          return;
        }
        Assoc(old(log), did, t.events);
        did := did + t.events;
      }
      DrainRests(whole, did, Model(), env, buffer);
      return Ready;
    }

    method FeedBytes(bytes: seq<Byte>) returns (result: FeedResult)
      requires Valid()
      modifies this, decoder
      ensures Valid()
      ensures var r := Feed(old(Model()), env, old(buffer), bytes);
              Model() == r.s && buffer == r.buffer && result == Result(r) && log == old(log) + r.events
    {
      hide decoder.Valid, Strings, Drain, Fail, AcceptedIn;
      ghost var r := Feed(Model(), env, buffer, bytes);
      AcceptedAppend(log, r.events);
      if state == Closed {
        assert log == log + [];
        return FeedResult(FeedStopped, 0, 0);
      }
      var before := accepted;
      var status: Status;
      if |buffer| + |bytes| > config.maxBuffer {
        status := FailConnection(ENHANCE_YOUR_CALM);
      } else {
        buffer := buffer + bytes;
        status := DrainBuffer();
      }
      StaysOpen(old(Model()), env, old(buffer) + bytes);
      result := FeedResult(status, accepted - before, |buffer|);
    }
  }

  /** Draining never answers as a closed session does. */
  lemma {:induction false} StaysOpen(s: Session, env: Env, buffer: seq<Byte>)
    ensures Drain(s, env, buffer).status != FeedStopped
    decreases |buffer|
  {
    hide TurnOf;
    if buffer != [] && Reading(s) {
      TurnShape(s, env, buffer);
      match TurnOf(s, env, buffer)
      case Go(t, used, events) => StaysOpen(t, env, buffer[used..]);
      case _ =>
    }
  }

  /** One turn of a drain of which `did` is done. */
  lemma DrainTurns(whole: Drained, did: seq<Event>, s: Session, env: Env, buffer: seq<Byte>)
    requires buffer != [] && Reading(s) && Ahead(whole, Drain(s, env, buffer), did)
    ensures var turn := TurnOf(s, env, buffer);
            && (turn.Wait? ==> whole == Drained(s, buffer, Ready, did))
            && (turn.Stop? ==>
                  whole == Drained(turn.s, if turn.s.state == Closed then [] else buffer[turn.used..], turn.status,
                                   did + turn.events))
            && (turn.Go? ==> Ahead(whole, Drain(turn.s, env, buffer[turn.used..]), did + turn.events))
  {
    hide TurnOf;
    var turn := TurnOf(s, env, buffer);
    if turn.Go? {
      Assoc(did, turn.events, Drain(turn.s, env, buffer[turn.used..]).events);
    } else if turn.Wait? {
      assert did + [] == did;
    }
  }

  lemma DrainRests(whole: Drained, did: seq<Event>, s: Session, env: Env, buffer: seq<Byte>)
    requires (buffer == [] || !Reading(s)) && Ahead(whole, Drain(s, env, buffer), did)
    ensures whole == Drained(s, buffer, Ready, did)
  {
    hide TurnOf;
    assert did + [] == did;
  }

  /** What is drained altogether is what happened so far, then the rest. */
  ghost predicate Ahead(whole: Drained, rest: Drained, did: seq<Event>) {
    whole == rest.(events := did + rest.events)
  }

  lemma StartsAhead(whole: Drained)
    ensures Ahead(whole, whole, [])
  {
    assert [] + whole.events == whole.events;
  }

  /** A handler never answers CloseRequired, so the feed loop can tell its answer from a failed connection. */
  lemma HandleStatus(s: Session, env: Env, h: FrameHeader, p: seq<Byte>)
    ensures Handle(s, env, h, p).status !in [CloseRequired, FeedStopped]
  {
    hide HandleHeaders, HandleContinuation, HandleData, Ack, ReadSettings, ReadIncrement;
    HeadersStatus(s, env, h, p);
    DataStatus(s, env, h, p);
  }

  lemma DataStatus(s: Session, env: Env, h: FrameHeader, p: seq<Byte>)
    ensures HandleData(s, env, h, p).status !in [CloseRequired, FeedStopped]
  {
    hide Unpad, EndStream, Charge, Grant;
  }

  lemma HeadersStatus(s: Session, env: Env, h: FrameHeader, p: seq<Byte>)
    ensures HandleHeaders(s, env, h, p).status !in [CloseRequired, FeedStopped]
    ensures HandleContinuation(s, env, h, p).status !in [CloseRequired, FeedStopped]
  {
    hide Unpad, EndStream, Priority, AddFragment;
    if h.id in s.streams {
      FragmentStatus(s, env, h, p, false);
    }
    var made := s.(streams := s.streams[h.id := Inflow(s.config.window, [], [], false, false, None)], lastId := h.id);
    match Unpad(h, p, if Priority(h) then 5 else 0)
    case Some(fragment) => FragmentStatus(made, env, h, fragment, EndStream(h));
    case None =>
  }

  lemma FragmentStatus(s: Session, env: Env, h: FrameHeader, fragment: seq<Byte>, ended: bool)
    requires h.id in s.streams
    ensures AddFragment(s, env, h, fragment, ended).status !in [CloseRequired, FeedStopped]
  {
    hide EndHeaders, FinishHeaders;
    var st := s.streams[h.id];
    var grown := s.(streams := s.streams[h.id := st.(block := st.block + fragment, ended := st.ended || ended)]);
    FinishStatus(grown.(continuation := None), env, h.id);
  }

  lemma FinishStatus(s: Session, env: Env, id: nat)
    requires id in s.streams
    ensures FinishHeaders(s, env, id).status !in [CloseRequired, FeedStopped]
  {
    hide DecodeBlock, Assemble;
  }

  lemma TurnShape(s: Session, env: Env, buffer: seq<Byte>)
    requires Reading(s)
    ensures var t := TurnOf(s, env, buffer); t.Stop? ==> t.status != FeedStopped && (t.status == CloseRequired <==> t.s.state == Closed)
  {
    hide Handle, DecodeHeader, Preface;
    if s.state == Connected && |buffer| >= HEADER_SIZE {
      var h := DecodeHeader(buffer);
      if HEADER_SIZE + h.length <= |buffer| {
        HandleStatus(s, env, h, buffer[HEADER_SIZE..HEADER_SIZE + h.length]);
      }
    }
  }

  /** The loop over the settings of a frame; the values before one refused are kept. */
  method ReadAll(p: seq<Byte>, peer: Peer) returns (next: Peer, ok: bool)
    requires |p| % 6 == 0
    ensures (next, ok) == ReadSettings(p, peer)
  {
    hide U32;
    next := peer;
    var i := 0;
    while i + 6 <= |p|
      invariant 0 <= i <= |p| && i % 6 == 0
      invariant ReadSettings(p, peer) == ReadSettings(p[i..], next)
    {
      var name: int := U32(0, 0, p[i], p[i + 1]);
      var value := U32(p[i + 2], p[i + 3], p[i + 4], p[i + 5]);
      assert p[i..][6..] == p[i + 6..];
      assert name == SettingName(p[i..], 0) && value == SettingValue(p[i..], 0);
      if name == 1 {
        next := next.(tableSize := value);
      } else if name == 3 {
        next := next.(maxStreams := value);
      } else if name == 4 {
        if value > 0x7fffffff {
          return next, false;
        }
        next := next.(initialWindow := value);
      } else if name == 5 {
        if value < 16384 || value > 16777215 {
          return next, false;
        }
        next := next.(maxFrame := value);
      } else if name == 6 {
        next := next.(listSize := value);
      }
      i := i + 6;
    }
    ok := true;
  }
}

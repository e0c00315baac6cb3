/** Bodies and receive credit in terms of the DATA frames themselves: what the session counts as accepted
    is what the frames taken off the wire carried. */
module H2Payloads {
  import opened Bytes
  import opened Frames
  import opened Protocol
  import opened Hpack
  import opened H2Inbound
  import opened H2Lifecycle

  // ---- observers of the frames ----

  /** The octets a frame adds to the body of a stream, and the length it charges to its window. */
  function Carried(h: FrameHeader, p: seq<Byte>, id: nat): seq<Byte> {
    if h.kind == DATA && h.id == id && Unpad(h, p, 0).Some? then Unpad(h, p, 0).value else []
  }

  function Charged(h: FrameHeader, p: seq<Byte>, id: nat): nat {
    if h.kind == DATA && h.id == id then |p| else 0
  }

  /** The unpadded payloads of all DATA frames of a stream that left the buffer, in order. */
  function TookData(log: Log, id: nat): seq<Byte> {
    if log == [] then []
    else
      var e := log[|log| - 1];
      TookData(log[..|log| - 1], id) + if e.Took? then Carried(e.header, e.payload, id) else []
  }

  /** Their payload lengths, padding included. */
  function TookFlow(log: Log, id: nat): nat {
    if log == [] then 0
    else
      var e := log[|log| - 1];
      TookFlow(log[..|log| - 1], id) + if e.Took? then Charged(e.header, e.payload, id) else 0
  }

  lemma TookAppend(log: Log, h: FrameHeader, p: seq<Byte>, id: nat)
    ensures TookData(log + [Took(h, p)], id) == TookData(log, id) + Carried(h, p, id)
    ensures TookFlow(log + [Took(h, p)], id) == TookFlow(log, id) + Charged(h, p, id)
    ensures FlowOf(log + [Took(h, p)], Some(id)) == FlowOf(log, Some(id))
  {
    var all := log + [Took(h, p)];
    assert all[..|all| - 1] == log;
  }

  lemma {:induction false} OthersTakeNothing(log: Log, events: seq<Event>, id: nat)
    requires NoTook(events)
    ensures TookData(log + events, id) == TookData(log, id) && TookFlow(log + events, id) == TookFlow(log, id)
    decreases |events|
  {
    hide Carried, Charged;
    var all := log + events;
    if events == [] {
      assert all == log;
    } else {
      assert all[..|all| - 1] == log + events[..|events| - 1];
      OthersTakeNothing(log, events[..|events| - 1], id);
    }
  }

  predicate NoAccepted(events: seq<Event>) {
    forall i :: 0 <= i < |events| ==> !events[i].AcceptedData?
  }

  lemma {:induction false} OthersChargeNothing(log: Log, events: seq<Event>, id: nat)
    requires NoAccepted(events)
    ensures FlowOf(log + events, Some(id)) == FlowOf(log, Some(id))
    decreases |events|
  {
    var all := log + events;
    if events == [] {
      assert all == log;
    } else {
      assert all[..|all| - 1] == log + events[..|events| - 1];
      OthersChargeNothing(log, events[..|events| - 1], id);
    }
  }

  // ---- what one frame does ----

  function BodyOf(s: Session, id: nat): seq<Byte> {
    if id in s.streams then s.streams[id].body else []
  }

  /** Dispatched requests carry the body of their stream, with what the current frame adds to stream `x`. */
  predicate Sends(s: Session, events: seq<Event>, x: nat, data: seq<Byte>) {
    forall i :: 0 <= i < |events| && events[i].Dispatched? ==>
      var q := events[i].request;
      (q.id in s.streams || q.id > s.lastId) && q.body == BodyOf(s, q.id) + if q.id == x then data else []
  }

  /** Streams only disappear, or are new with a higher identifier; bodies grow by `data` on stream `x`. */
  predicate Grows(s: Session, t: Session, x: nat, data: seq<Byte>) {
    && s.lastId <= t.lastId
    && forall id :: id in t.streams ==>
         (id in s.streams || s.lastId < id <= t.lastId) &&
         t.streams[id].body == BodyOf(s, id) + if id == x then data else []
  }

  /** Each open stream's request is its own. */
  predicate Owned(s: Session) {
    forall id :: id in s.streams ==>
      id <= s.lastId && (s.streams[id].request.Some? ==> s.streams[id].request.value.id == id)
  }

  /** A step that adds nothing to any body. */
  predicate Plain(s: Session, r: Step) {
    Sends(s, r.events, 0, []) && Grows(s, r.s, 0, []) && Owned(r.s) && NoAccepted(r.events)
  }

  /** The same bodies, as far as they go. */
  predicate Within(s: Session, t: Session) {
    t.lastId == s.lastId && forall id :: id in t.streams ==> id in s.streams && t.streams[id].body == s.streams[id].body
  }

  lemma Unsent(s: Session, t: Session, events: seq<Event>)
    requires Owned(s) && Owned(t) && Within(s, t) && NoAccepted(events)
    requires forall i :: 0 <= i < |events| ==> !events[i].Dispatched?
    ensures Plain(s, Step(t, Ready, events)) && Sends(s, events, 0, []) && Grows(s, t, 0, [])
  {
  }

  lemma PlainAfter(s: Session, m: Session, r: Step)
    requires Within(s, m) && Within(m, s) && Plain(m, r)
    ensures Plain(s, r)
  {
    hide Owned, NoAccepted;
  }

  lemma DispatchSends(s: Session, env: Env, id: nat)
    requires Owned(s)
    ensures Plain(s, Dispatch(s, env, id))
  {
    hide Sends, Grows;
    var r := Dispatch(s, env, id);
    Unsent(s, r.s, []);
    if id in s.streams && s.streams[id].request.Some? {
      var st := s.streams[id];
      SentWhole(s, r.events, st.request.value.(body := st.body));
    }
  }

  lemma SentWhole(s: Session, events: seq<Event>, request: Request)
    requires request.id in s.streams && request.body == s.streams[request.id].body
    requires forall i :: 0 <= i < |events| && events[i].Dispatched? ==> events[i].request == request
    ensures Sends(s, events, 0, [])
  {
    assert request.body + [] == request.body;
  }

  lemma ReadySends(s: Session, env: Env, id: nat, decoder: Codec, request: Request)
    requires Owned(s) && id in s.streams && request.id == id
    ensures var st := s.streams[id];
            var ready := s.(decoder := decoder, streams := s.streams[id := st.(request := Some(request), complete := true)]);
            Plain(s, if st.ended then Dispatch(ready, env, id) else Step(ready, Ready, []))
  {
    hide Dispatch, Plain, Sends, Grows;
    var st := s.streams[id];
    var ready := s.(decoder := decoder, streams := s.streams[id := st.(request := Some(request), complete := true)]);
    DispatchSends(ready, env, id);
    Unsent(ready, ready, []);
    PlainAfter(s, ready, if st.ended then Dispatch(ready, env, id) else Step(ready, Ready, []));
  }

  lemma FinishSends(s: Session, env: Env, id: nat)
    requires Owned(s) && id in s.streams
    ensures Plain(s, FinishHeaders(s, env, id))
  {
    hide DecodeBlock, Assemble, Dispatch, Plain, Sends, Grows;
    var st := s.streams[id];
    var out := DecodeBlock(s.decoder, st.block);
    var r := FinishHeaders(s, env, id);
    if out.ok && Assemble(id, out.headers).Usable? {
      ReadySends(s, env, id, out.codec, Assemble(id, out.headers).request);
    } else {
      Unsent(s, r.s, r.events);
      StatusAside(s, r);
    }
  }

  lemma StatusAside(s: Session, r: Step)
    requires Plain(s, Step(r.s, Ready, r.events))
    ensures Plain(s, r)
  {
  }

  lemma FragmentSends(s: Session, env: Env, h: FrameHeader, fragment: seq<Byte>, ended: bool)
    requires Owned(s) && h.id in s.streams
    ensures Plain(s, AddFragment(s, env, h, fragment, ended))
  {
    hide FinishHeaders, EndHeaders, Plain, Sends, Grows;
    var st := s.streams[h.id];
    var grown := s.(streams := s.streams[h.id := st.(block := st.block + fragment, ended := st.ended || ended)]);
    var r := AddFragment(s, env, h, fragment, ended);
    if EndHeaders(h) && !st.complete {
      var here := grown.(continuation := None);
      FinishSends(here, env, h.id);
      PlainAfter(s, here, r);
    } else {
      Unsent(s, r.s, r.events);
      StatusAside(s, r);
    }
  }

  lemma OpenedSends(s: Session, id: nat, r: Step)
    requires Owned(s) && id > s.lastId && Plain(Opened(s, id), r)
    ensures Plain(s, r.(events := [OpenedStream(id)] + r.events))
  {
  }

  lemma HeadersSends(s: Session, env: Env, h: FrameHeader, p: seq<Byte>)
    requires Owned(s)
    ensures Plain(s, HandleHeaders(s, env, h, p))
  {
    hide AddFragment, EndStream, Unpad, Priority, Plain, Sends, Grows;
    var r := HandleHeaders(s, env, h, p);
    if r.events == [] {
      Unsent(s, s, []);
      StatusAside(s, r);
    } else {
      var made := Opened(s, h.id);
      match Unpad(h, p, if Priority(h) then 5 else 0)
      case None =>
        Unsent(made, made, []);
        OpenedSends(s, h.id, Step(made, Ready, []));
        assert [OpenedStream(h.id)] + [] == [OpenedStream(h.id)];
        StatusAside(s, r);
      case Some(fragment) =>
        FragmentSends(made, env, h, fragment, EndStream(h));
        OpenedSends(s, h.id, AddFragment(made, env, h, fragment, EndStream(h)));
    }
  }

  /** An event of acceptance comes first and tells the frame. */
  predicate Reports(h: FrameHeader, p: seq<Byte>, events: seq<Event>) {
    && (events != [] && events[0].AcceptedData? ==>
          h.kind == DATA && events[0] == AcceptedData(h.id, |p|, events[0].data) && Unpad(h, p, 0) == Some(events[0].data))
    && forall i :: 0 < i < |events| ==> !events[i].AcceptedData?
  }

  /** What one frame does to bodies and credit. */
  predicate Effect(s: Session, h: FrameHeader, p: seq<Byte>, r: Step) {
    && Owned(r.s) && Sends(s, r.events, h.id, Carried(h, p, h.id)) && Reports(h, p, r.events)
    && (r.status != ProtocolError ==>
          && Grows(s, r.s, h.id, Carried(h, p, h.id))
          && (h.kind == DATA ==> h.id in s.streams)
          && (h.kind == DATA && h.id in r.s.streams ==> r.events != [] && r.events[0].AcceptedData?))
  }

  lemma TakeEffect(s: Session, env: Env, h: FrameHeader, flow: nat, data: seq<Byte>)
    requires Owned(s) && h.id in s.streams && flow <= s.streams[h.id].window && flow <= s.window
    ensures var r := TakeData(s, env, h, flow, data);
            && Owned(r.s) && Sends(s, r.events, h.id, data) && Grows(s, r.s, h.id, data)
            && r.events != [] && r.events[0] == AcceptedData(h.id, flow, data)
            && forall i :: 0 < i < |r.events| ==> !r.events[i].AcceptedData?
  {
    hide Dispatch, Charge, EndStream;
    var st := s.streams[h.id];
    var connection, stream := Charge(s.window, flow, s.config.window), Charge(st.window, flow, s.config.window);
    var next := st.(window := stream.0, body := st.body + data, ended := EndStream(h));
    var done := s.(window := connection.0, streams := s.streams[h.id := next]);
    var events := [AcceptedData(h.id, flow, data)] + Grant(0, connection.1) + Grant(h.id, stream.1);
    DispatchSends(done, env, h.id);
  }

  lemma DataEffect(s: Session, env: Env, h: FrameHeader, p: seq<Byte>)
    requires Owned(s) && h.kind == DATA
    ensures Effect(s, h, p, HandleData(s, env, h, p))
  {
    hide TakeData, Unpad;
    if h.id in s.streams && |p| <= s.streams[h.id].window && |p| <= s.window && Unpad(h, p, 0).Some? {
      TakeEffect(s, env, h, |p|, Unpad(h, p, 0).value);
    }
  }

  lemma QuietEffect(s: Session, h: FrameHeader, p: seq<Byte>, r: Step)
    requires h.kind != DATA && Plain(s, r)
    ensures Effect(s, h, p, r)
  {
    hide Unpad;
  }

  /** The other handlers, which send no request. */
  lemma OtherEffect(s: Session, h: FrameHeader, p: seq<Byte>, r: Step)
    requires Owned(s) && h.kind != DATA && (r.s.streams == s.streams || r.s.streams == s.streams - {h.id}) && r.s.lastId == s.lastId
    requires NoAccepted(r.events) && forall i :: 0 <= i < |r.events| ==> !r.events[i].Dispatched?
    ensures Effect(s, h, p, r)
  {
    hide Plain, Sends, Grows, Effect;
    Unsent(s, r.s, r.events);
    StatusAside(s, r);
    QuietEffect(s, h, p, r);
  }

  lemma SettingsEffect(s: Session, env: Env, h: FrameHeader, p: seq<Byte>)
    requires Owned(s) && h.kind != DATA
    ensures Effect(s, h, p, HandleSettings(s, env, h, p))
  {
    hide ReadSettings, Ack, Effect, Owned;
    OtherEffect(s, h, p, HandleSettings(s, env, h, p));
  }

  lemma UpdateEffect(s: Session, env: Env, h: FrameHeader, p: seq<Byte>)
    requires Owned(s) && h.kind != DATA
    ensures Effect(s, h, p, HandleWindowUpdate(s, env, h, p))
    ensures Effect(s, h, p, HandleOther(s, h, p))
  {
    hide ReadIncrement, Ack, Effect, Owned;
    OtherEffect(s, h, p, HandleWindowUpdate(s, env, h, p));
    OtherEffect(s, h, p, HandleOther(s, h, p));
  }

  lemma HandleEffect(s: Session, env: Env, h: FrameHeader, p: seq<Byte>)
    requires Owned(s)
    ensures Effect(s, h, p, Handle(s, env, h, p))
  {
    hide HandleSettings, HandleHeaders, HandleContinuation, HandleData, HandleWindowUpdate, HandleOther, Ack, Effect, Owned;
    var r := Handle(s, env, h, p);
    if h.kind == DATA {
      if !s.gotSettings || s.continuation.Some? {
        RefusedEffect(s, h, p, r);
      } else {
        DataEffect(s, env, h, p);
      }
    } else {
      SettingsEffect(s, env, h, p);
      UpdateEffect(s, env, h, p);
      HeadersSends(s, env, h, p);
      QuietEffect(s, h, p, HandleHeaders(s, env, h, p));
      ContinuationEffect(s, env, h, p);
      OtherEffect(s, h, p, Step(s.(state := Closing), ProtocolError, []));
      OtherEffect(s, h, p, Step(s, ProtocolError, []));
    }
  }

  lemma RefusedEffect(s: Session, h: FrameHeader, p: seq<Byte>, r: Step)
    requires Owned(s) && r == Step(s.(state := Closing), ProtocolError, [])
    ensures Effect(s, h, p, r)
  {
    hide Unpad;
  }

  lemma ContinuationEffect(s: Session, env: Env, h: FrameHeader, p: seq<Byte>)
    requires Owned(s) && h.kind != DATA
    ensures Effect(s, h, p, HandleContinuation(s, env, h, p))
  {
    hide AddFragment, Effect, Owned, Plain;
    OtherEffect(s, h, p, Step(s, ProtocolError, []));
    if h.id in s.streams {
      FragmentSends(s, env, h, p, false);
      QuietEffect(s, h, p, AddFragment(s, env, h, p, false));
    }
  }

  // ---- whole runs ----

  /** While the connection lives, each open stream holds what its DATA frames carried and was charged
      what they weighed; and streams not yet opened had none. */
  ghost predicate Paid(s: Session, log: Log) {
    s.state != Closed ==>
      && Owned(s)
      && forall id: nat :: id in s.streams || id > s.lastId ==>
           TookData(log, id) == BodyOf(s, id) && TookFlow(log, id) == FlowOf(log, Some(id))
  }

  /** Every request went out with the payloads of all DATA frames of its stream up to then. */
  ghost predicate Whole(log: Log) {
    forall i :: 0 <= i < |log| && log[i].Dispatched? ==> log[i].request.body == TookData(log[..i], log[i].request.id)
  }

  /** Each acceptance directly follows its own DATA frame and tells its length and unpadded payload. */
  predicate Tied(log: Log) {
    forall i :: 0 <= i < |log| && log[i].AcceptedData? ==>
      0 < i && log[i - 1].Took? && var h, p := log[i - 1].header, log[i - 1].payload;
      h.kind == DATA && h.id == log[i].id && |p| == log[i].flow && Unpad(h, p, 0) == Some(log[i].data)
  }

  ghost predicate Ledger(s: Session, log: Log) {
    Paid(s, log) && Whole(log) && Tied(log)
  }

  predicate Silent(events: seq<Event>) {
    NoTook(events) && NoAccepted(events) && forall i :: 0 <= i < |events| ==> !events[i].Dispatched?
  }

  lemma SilentKeeps(s: Session, t: Session, log: Log, events: seq<Event>)
    requires Ledger(s, log) && Silent(events)
    requires t.state == Closed || (s.state != Closed && t.streams == s.streams && t.lastId == s.lastId)
    ensures Ledger(t, log + events)
  {
    hide TookData, TookFlow, FlowOf, Unpad;
    forall id: nat ensures TookData(log + events, id) == TookData(log, id) && TookFlow(log + events, id) == TookFlow(log, id)
                           && FlowOf(log + events, Some(id)) == FlowOf(log, Some(id)) {
      OthersTakeNothing(log, events, id);
      OthersChargeNothing(log, events, id);
    }
    var all := log + events;
    forall i | 0 <= i < |all| && all[i].Dispatched? ensures all[i].request.body == TookData(all[..i], all[i].request.id) {
      assert all[..i] == log[..i];
    }
  }

  lemma TookWhole(s: Session, log: Log, h: FrameHeader, p: seq<Byte>, r: Step)
    requires Ledger(s, log) && s.state != Closed && Effect(s, h, p, r) && NoTook(r.events)
    ensures Whole(log + [Took(h, p)] + r.events)
  {
    hide TookData, TookFlow, FlowOf, Unpad, Tied, Carried, Charged;
    var taken := log + [Took(h, p)];
    var all := taken + r.events;
    forall i | 0 <= i < |all| && all[i].Dispatched? ensures all[i].request.body == TookData(all[..i], all[i].request.id) {
      if i < |log| {
        assert all[..i] == log[..i] && all[i] == log[i];
      } else {
        var j := i - |taken|;
        assert r.events[j] == all[i];
        assert all[..i] == taken + r.events[..j];
        var id := all[i].request.id;
        OthersTakeNothing(taken, r.events[..j], id);
        TookAppend(log, h, p, id);
        CarriedElsewhere(h, p, id);
      }
    }
  }

  lemma CarriedElsewhere(h: FrameHeader, p: seq<Byte>, id: nat)
    ensures id != h.id || h.kind != DATA ==> Carried(h, p, id) == [] && Charged(h, p, id) == 0
  {
  }

  lemma TookTied(s: Session, log: Log, h: FrameHeader, p: seq<Byte>, r: Step)
    requires Tied(log) && Effect(s, h, p, r)
    ensures Tied(log + [Took(h, p)] + r.events)
  {
    hide Unpad, Sends, Grows, Owned, Carried;
    var all := log + [Took(h, p)] + r.events;
    assert forall i :: 0 <= i < |log| ==> all[i] == log[i];
    assert forall j :: 0 <= j < |r.events| ==> all[|log| + 1 + j] == r.events[j];
  }

  lemma EventsFlow(log: Log, h: FrameHeader, p: seq<Byte>, events: seq<Event>, id: nat)
    requires Reports(h, p, events)
    ensures FlowOf(log + events, Some(id)) == FlowOf(log, Some(id))
              + if events != [] && events[0].AcceptedData? && h.id == id then |p| else 0
  {
    hide Unpad, FlowOf;
    if events == [] {
      assert log + events == log;
    } else {
      Appended(log, events[0], id);
      OthersChargeNothing(log + [events[0]], events[1..], id);
      assert log + [events[0]] + events[1..] == log + events;
    }
  }

  lemma TookPaid(s: Session, log: Log, h: FrameHeader, p: seq<Byte>, r: Step)
    requires Ledger(s, log) && s.state != Closed && Effect(s, h, p, r) && NoTook(r.events) && r.status != ProtocolError
    ensures Paid(r.s, log + [Took(h, p)] + r.events)
  {
    hide TookData, TookFlow, FlowOf, Unpad, Whole, Tied, Sends, Carried;
    var taken := log + [Took(h, p)];
    forall id: nat | id in r.s.streams || id > r.s.lastId
      ensures TookData(taken + r.events, id) == BodyOf(r.s, id) && TookFlow(taken + r.events, id) == FlowOf(taken + r.events, Some(id))
    {
      TookAppend(log, h, p, id);
      OthersTakeNothing(taken, r.events, id);
      EventsFlow(taken, h, p, r.events, id);
      assert BodyOf(s, id) + [] == BodyOf(s, id);
      CarriedElsewhere(h, p, id);
    }
  }

  lemma FrameLedger(s: Session, env: Env, log: Log, h: FrameHeader, p: seq<Byte>)
    requires Ledger(s, log) && s.state != Closed
    ensures var r := Handle(s, env, h, p);
            var all := log + ([Took(h, p)] + r.events);
            var f := Fail(r.s, PROTOCOL_ERROR);
            if r.status == ProtocolError then Ledger(f.0, all + f.1) else Ledger(r.s, all)
  {
    hide Handle, Effect, Whole, Tied, Owned, TookData, TookFlow, FlowOf, Admitted, Next;
    var r := Handle(s, env, h, p);
    HandleEffect(s, env, h, p);
    FrameOrder(s, env, h, p);
    TookWhole(s, log, h, p, r);
    TookTied(s, log, h, p, r);
    Assoc(log, [Took(h, p)], r.events);
    if r.status == ProtocolError {
      var all := log + ([Took(h, p)] + r.events);
      var f := Fail(r.s, PROTOCOL_ERROR);
      assert Ledger(f.0, all);
      SilentKeeps(f.0, f.0, all, f.1);
    } else {
      TookPaid(s, log, h, p, r);
    }
  }

  lemma FailLedger(s: Session, log: Log, code: nat)
    requires Ledger(s, log)
    ensures var f := Fail(s, code);
            Ledger(f.0, log + f.1)
  {
    hide Ledger;
    SilentKeeps(s, Fail(s, code).0, log, Fail(s, code).1);
  }

  lemma PrefaceLedger(s: Session, log: Log, buffer: seq<Byte>, preface: seq<Byte>)
    requires Ledger(s, log) && s.state == ExpectPreface
    ensures var t := PrefaceTurn(s, buffer, preface);
            !t.Wait? ==> Ledger(t.s, log + t.events)
  {
    hide Ledger, Fail;
    AbortedLedger(s, log);
    SilentKeeps(s, s.(state := Connected), log, [SentSettings]);
  }

  lemma AbortedLedger(s: Session, log: Log)
    requires Ledger(s, log) && s.state != Closed
    ensures var f := Fail(s.(state := Closing), PROTOCOL_ERROR);
            Ledger(f.0, log + f.1)
  {
    hide Ledger, Fail;
    SilentKeeps(s, s.(state := Closing), log, []);
    assert log + [] == log;
    FailLedger(s.(state := Closing), log, PROTOCOL_ERROR);
  }

  lemma TurnLedger(s: Session, env: Env, log: Log, buffer: seq<Byte>)
    requires Ledger(s, log) && Reading(s)
    ensures var t := TurnOf(s, env, buffer);
            !t.Wait? ==> Ledger(t.s, log + t.events)
  {
    hide Ledger, Fail, Handle, DecodeHeader, Preface;
    if s.state == ExpectPreface {
      PrefaceLedger(s, log, buffer, Preface());
    } else if |buffer| >= HEADER_SIZE {
      var h := DecodeHeader(buffer);
      AbortedLedger(s, log);
      if HEADER_SIZE + h.length <= |buffer| {
        var p := buffer[HEADER_SIZE..HEADER_SIZE + h.length];
        var r := Handle(s, env, h, p);
        FrameLedger(s, env, log, h, p);
        Assoc(log, [Took(h, p)] + r.events, Fail(r.s, PROTOCOL_ERROR).1);
      }
    }
  }

  lemma {:induction false} DrainLedger(s: Session, env: Env, log: Log, buffer: seq<Byte>)
    requires Ledger(s, log)
    ensures var r := Drain(s, env, buffer);
            Ledger(r.s, log + r.events)
    decreases |buffer|
  {
    hide Ledger, TurnOf;
    assert log + [] == log;
    if buffer != [] && Reading(s) {
      TurnLedger(s, env, log, buffer);
      match TurnOf(s, env, buffer)
      case Go(t, used, events) =>
        DrainLedger(t, env, log + events, buffer[used..]);
        Assoc(log, events, Drain(t, env, buffer[used..]).events);
      case _ =>
    }
  }

  lemma {:induction false} LifeLedger(config: Config, decoder: Codec, env: Env, pieces: seq<seq<Byte>>)
    ensures var r := Life(config, decoder, env, pieces);
            Ledger(r.s, r.events)
    decreases |pieces|
  {
    hide Ledger, Drain, Fail;
    if pieces == [] {
      FreshLedger(config, decoder);
    } else {
      var before := Life(config, decoder, env, pieces[..|pieces| - 1]);
      var last := pieces[|pieces| - 1];
      LifeLedger(config, decoder, env, pieces[..|pieces| - 1]);
      assert before.events + [] == before.events;
      DrainLedger(before.s, env, before.events, before.buffer + last);
      FailLedger(before.s, before.events, ENHANCE_YOUR_CALM);
    }
  }

  lemma FreshLedger(config: Config, decoder: Codec)
    ensures Ledger(H2Inbound.Fresh(config, decoder), [])
  {
  }

  /** Every dispatched request was dispatched once; before that its stream had been opened, and frames that
      end its header block and the stream had been taken; and its body is the unpadded payloads of all the
      DATA frames of its stream that came before, in order. */
  ghost predicate OnceWithWholeBody(log: Log) {
    && (forall i, j :: 0 <= i < j < |DispatchedIds(log)| ==> DispatchedIds(log)[i] != DispatchedIds(log)[j])
    && forall i :: 0 <= i < |log| && log[i].Dispatched? ==>
         var request := log[i].request;
         && request.id in Ids(log[..i]) && request.body == TookData(log[..i], request.id)
         && SawEndHeaders(log[..i], request.id) && SawEndStream(log[..i], request.id)
  }

  lemma DispatchedOnceWithWholeBody(config: Config, decoder: Codec, env: Env, pieces: seq<seq<Byte>>)
    ensures OnceWithWholeBody(Life(config, decoder, env, pieces).events)
  {
    hide Life, Ids, DispatchedIds, DataOf, TookData, SawEndHeaders, SawEndStream, Paid, Tied;
    LifeLedger(config, decoder, env, pieces);
    DispatchedOnce(config, decoder, env, pieces);
    var log := Life(config, decoder, env, pieces).events;
    forall i | 0 <= i < |log| && log[i].Dispatched? ensures Due(log[..i], log[i].request) {
      assert DispatchOk(log, i);
    }
  }

  /** Receive credit in every reachable state: each window is its initial size plus the increments sent
      minus the payload lengths of DATA frames, padding included, and lies between half its initial size
      and it. For an open stream these are all its DATA frames; for the connection, those that were
      accepted, each of which directly precedes its acceptance. */
  ghost predicate FramesCredited(s: Session, log: Log, initial: nat, id: nat) {
    && s.window == initial + GrantsOf(log, 0) - FlowOf(log, None) && initial / 2 <= s.window <= initial && Tied(log)
    && (s.state != Closed && id in s.streams ==>
          var st := s.streams[id];
          && st.window == initial + GrantsOf(log, id) - TookFlow(log, id) && initial / 2 <= st.window <= initial
          && st.body == TookData(log, id))
  }

  lemma ReceiveCredit(config: Config, decoder: Codec, env: Env, pieces: seq<seq<Byte>>, id: nat)
    ensures FramesCredited(Life(config, decoder, env, pieces).s, Life(config, decoder, env, pieces).events, config.window, id)
  {
    hide Life, FlowOf, GrantsOf, TookFlow, TookData, Whole, Owned, Tied;
    LifeLedger(config, decoder, env, pieces);
    AcceptedCredit(config, decoder, env, pieces, id);
  }
}

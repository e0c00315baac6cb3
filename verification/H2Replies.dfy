/** The HTTP/2 receiver as a function of the frames it takes: what each frame is answered with, given those before it,
    and the frame behind each event. The session keeps tables, buffers and windows; none of them appears here. */
module H2Replies {
  import opened Bytes
  import opened Frames
  import opened Protocol
  import opened Hpack
  import opened H2Inbound
  import opened H2Lifecycle
  import opened H2Payloads

  /** What a session is given when it is made, and the answers of executor and scheduler. */
  datatype World = World(env: Env, config: Config, decoder: Codec)

  // ---- what the frames so far say ----

  predicate Sets(e: Event) {
    e.Took? && e.header.kind == SETTINGS && !Ack(e.header)
  }

  ghost predicate Heard(log: Log) {
    exists i :: 0 <= i < |log| && Sets(log[i])
  }

  /** The settings of a frame over those in force: the last of each name counts. */
  function Announced(p: seq<Byte>, before: Peer): Peer {
    var n := |p| / 6;
    Peer(LastOf(p, 1, n, before.tableSize), LastOf(p, 4, n, before.initialWindow), LastOf(p, 5, n, before.maxFrame),
         LastOf(p, 3, n, before.maxStreams), LastOf(p, 6, n, before.listSize))
  }

  function PeerOf(log: Log, w: World): Peer {
    if log == [] then Peer(4096, 65535, 16384, 100, w.decoder.maxList)
    else
      var e := log[|log| - 1];
      var before := PeerOf(log[..|log| - 1], w);
      if Sets(e) then Announced(e.payload, before) else before
  }

  /** The events that ask the scheduler for an answer. */
  predicate Asks(e: Event) {
    e.PeerSettings? || e.PeerConnectionCredit? || e.PeerStreamCredit?
  }

  function Queries(log: Log): nat {
    if log == [] then 0 else Queries(log[..|log| - 1]) + if Asks(log[|log| - 1]) then 1 else 0
  }

  function Dispatches(log: Log): nat {
    if log == [] then 0 else Dispatches(log[..|log| - 1]) + if log[|log| - 1].Dispatched? then 1 else 0
  }

  /** The highest stream opened. */
  function Highest(log: Log): nat {
    if log == [] then 0
    else
      var e := log[|log| - 1];
      if e.OpenedStream? then e.id else Highest(log[..|log| - 1])
  }

  /** The streams opened and neither closed nor dispatched. */
  function OpenIds(log: Log): set<nat> {
    if log == [] then {}
    else
      var e := log[|log| - 1];
      var before := OpenIds(log[..|log| - 1]);
      if e.OpenedStream? then before + {e.id} else before - Leaving(e)
  }

  function Leaving(e: Event): set<nat> {
    if e.ClosedStream? then {e.id} else if e.Dispatched? then {e.request.id} else {}
  }

  predicate Heads(h: FrameHeader) {
    h.kind == HEADERS || h.kind == CONTINUATION
  }

  /** What a frame adds to the header block of its stream. */
  function Fragment(h: FrameHeader, p: seq<Byte>): seq<Byte> {
    if h.kind == CONTINUATION then p
    else
      match Unpad(h, p, if Priority(h) then 5 else 0)
      case None => []
      case Some(fragment) => fragment
  }

  /** The fragments of a stream's header block, joined. */
  function BlockOf(log: Log, id: nat): seq<Byte> {
    if log == [] then []
    else
      var e := log[|log| - 1];
      BlockOf(log[..|log| - 1], id) +
      if e.Took? && Heads(e.header) && e.header.id == id then Fragment(e.header, e.payload) else []
  }

  /** The header decoder once every finished block has been through it, in order. */
  ghost function DecoderOf(log: Log, w: World): Codec {
    if log == [] then w.decoder
    else
      var e := log[|log| - 1];
      var before := DecoderOf(log[..|log| - 1], w);
      if e.Took? && Heads(e.header) && EndHeaders(e.header) then DecodeBlock(before, BlockOf(log, e.header.id)).codec else before
  }

  /** The request that a stream's header block stands for. */
  ghost function RequestOf(log: Log, w: World, id: nat): Option<Request> {
    if log == [] then None
    else
      var e := log[|log| - 1];
      var before := log[..|log| - 1];
      if e.Took? && Heads(e.header) && EndHeaders(e.header) && e.header.id == id
      then Requested(id, DecodeBlock(DecoderOf(before, w), BlockOf(log, id)).headers)
      else RequestOf(before, w, id)
  }

  function Requested(id: nat, list: seq<Entry>): Option<Request> {
    match Assemble(id, list)
    case Usable(request) => Some(request)
    case _ => None
  }

  /** What is left of the peer's credit: the initial window and what was granted, less what was charged. */
  function CreditLeft(log: Log, w: World, id: Option<nat>): int {
    w.config.window + GrantsOf(log, if id.Some? then id.value else 0) - FlowOf(log, id)
  }

  /** The 31 bits of a WINDOW_UPDATE payload. */
  function Increment(p: seq<Byte>): nat
    requires |p| == 4
  {
    var high: nat, mid: nat, low: nat := p[0] % 128, p[1], p[2];
    ((high * 256 + mid) * 256 + low) * 256 + p[3]
  }

  // ---- the answer to a frame (sections 5 and 6 of RFC 9113) ----

  /** The first frame is SETTINGS, and nothing but its CONTINUATION follows an unfinished header block. */
  ghost predicate Timely(log: Log, h: FrameHeader) {
    && (Heard(log) || (h.kind == SETTINGS && !Ack(h)))
    && (OpenBlock(log).None? || (h.kind == CONTINUATION && OpenBlock(log) == Some(h.id)))
  }

  function Credit(id: nat, increment: nat): Event {
    if id == 0 then PeerConnectionCredit(increment) else PeerStreamCredit(id, increment)
  }

  predicate Tolerable(p: seq<Byte>) {
    |p| % 6 == 0 && forall i :: 0 <= i < |p| / 6 ==> !Refused(SettingName(p, i), SettingValue(p, i))
  }

  /** Events and the status of the frame; ProtocolError ends the connection. */
  ghost function SimpleReply(log: Log, w: World, h: FrameHeader, p: seq<Byte>): (seq<Event>, Status) {
    var granted := w.env.outbound(Queries(log));
    if h.kind == SETTINGS then
      if h.id != 0 then Refusal()
      else if Ack(h) then ([], Only(p == []))
      else if !Tolerable(p) then Refusal()
      else
        var told := PeerSettings(Announced(p, PeerOf(log, w)));
        (if granted then [told, SentAck] else [told], Only(granted))
    else if h.kind == WINDOW_UPDATE then
      if |p| != 4 || Increment(p) == 0 then Refusal()
      else ([Credit(h.id, Increment(p))], Only(granted || 0 < h.id <= Highest(log)))
    else if h.kind == PING then
      if h.id != 0 || |p| != 8 then Refusal() else (if Ack(h) then [] else [SentPong(p)], Ready)
    else if h.kind == RST_STREAM then
      if h.id == 0 || |p| != 4 then Refusal() else ([ClosedStream(h.id)], Ready)
    else if h.kind == GOAWAY then ([], Only(h.id == 0 && |p| >= 8))
    else if h.kind == PRIORITY then ([], Only(h.id != 0 && |p| == 5))
    else ([], Only(h.kind != PUSH_PROMISE))
  }

  function Refusal(): (seq<Event>, Status) {
    ([], ProtocolError)
  }

  function Only(good: bool): Status {
    if good then Ready else ProtocolError
  }

  /** A request goes to the executor; what it does not accept is closed. */
  ghost function DispatchReply(log: Log, w: World, request: Request): (seq<Event>, Status) {
    var answer := w.env.dispatch(Dispatches(log));
    var sent := Dispatched(request, answer);
    match answer
    case Accepted => ([sent], Ready)
    case Saturated => ([sent, ClosedStream(request.id)], ExecutorSaturated)
    case Stopped => ([sent, ClosedStream(request.id)], ExecutorStopped)
  }

  /** A fragment of a header block, the last of which makes the request. */
  ghost function HeadReply(log: Log, w: World, h: FrameHeader, p: seq<Byte>): (seq<Event>, Status) {
    var all := log + [Took(h, p)];
    var out := DecodeBlock(DecoderOf(log, w), BlockOf(all, h.id));
    if !EndHeaders(h) then ([], Ready)
    else if !out.ok then ([SentReset(h.id, COMPRESSION_ERROR), ClosedStream(h.id)], Ready)
    else
      match Assemble(h.id, out.headers)
      case Malformed => Refusal()
      case Unusable => ([ClosedStream(h.id)], ProtocolError)
      case Usable(request) => if SawEndStream(all, h.id) then DispatchReply(log, w, request) else ([], Ready)
  }

  /** A new stream is odd, higher than all before, and one of at most `maxStreams`. */
  ghost function HeadersReply(log: Log, w: World, h: FrameHeader, p: seq<Byte>): (seq<Event>, Status) {
    if h.id % 2 == 0 || h.id <= Highest(log) || |OpenIds(log)| >= w.config.maxStreams then Refusal()
    else if Unpad(h, p, if Priority(h) then 5 else 0).None? then ([OpenedStream(h.id)], ProtocolError)
    else
      var r := HeadReply(log, w, h, p);
      ([OpenedStream(h.id)] + r.0, r.1)
  }

  /** The top-up after a charge, once less than half is left. */
  function TopUp(id: nat, left: int, initial: nat): seq<Event> {
    if left < initial / 2 then [Granted(id, initial - left)] else []
  }

  /** DATA is for an open stream with complete headers, within both windows and the body limit. */
  ghost function DataReply(log: Log, w: World, h: FrameHeader, p: seq<Byte>): (seq<Event>, Status) {
    if h.id !in OpenIds(log) || !SawEndHeaders(log, h.id) || SawEndStream(log, h.id) || Unpad(h, p, 0).None? then Refusal()
    else
      var data := Unpad(h, p, 0).value;
      var body := TookData(log, h.id) + data;
      var stream, connection := CreditLeft(log, w, Some(h.id)) - |p|, CreditLeft(log, w, None) - |p|;
      if stream < 0 || connection < 0 then ([ClosedStream(h.id)], ProtocolError)
      else if |body| > w.config.maxBody then ([ClosedStream(h.id)], BufferLimit)
      else
        var taken := [AcceptedData(h.id, |p|, data)] + TopUp(0, connection, w.config.window)
                     + TopUp(h.id, stream, w.config.window);
        if EndStream(h) && RequestOf(log, w, h.id).Some? then
          var r := DispatchReply(log, w, RequestOf(log, w, h.id).value.(body := body));
          (taken + r.0, r.1)
        else (taken, Ready)
  }

  /** The answer to any frame. */
  ghost function Reply(log: Log, w: World, h: FrameHeader, p: seq<Byte>): (seq<Event>, Status) {
    if !Timely(log, h) then Refusal()
    else if h.kind == DATA then DataReply(log, w, h, p)
    else if h.kind == HEADERS then HeadersReply(log, w, h, p)
    else if h.kind == CONTINUATION then (if OpenBlock(log) == Some(h.id) then HeadReply(log, w, h, p) else Refusal())
    else SimpleReply(log, w, h, p)
  }

  // ---- the session remembers what the frames said ----

  ghost predicate Remembers(s: Session, log: Log, w: World) {
    && (s.gotSettings <==> Heard(log)) && s.peer == PeerOf(log, w) && s.queries == Queries(log)
    && s.dispatches == Dispatches(log) && s.decoder == DecoderOf(log, w)
  }

  ghost predicate StreamMirrored(s: Session, log: Log, w: World, id: nat)
    requires id in s.streams
  {
    var st := s.streams[id];
    && st.block == BlockOf(log, id) && (st.ended <==> SawEndStream(log, id)) && (st.complete <==> SawEndHeaders(log, id))
    && (st.complete ==> st.request.Some? && st.request == RequestOf(log, w, id))
    && (!st.complete ==> st.body == [])
  }

  /** No frame of a request came for a stream that was not opened. */
  ghost predicate Untouched(log: Log, id: nat) {
    BlockOf(log, id) == [] && !SawEndStream(log, id) && !SawEndHeaders(log, id)
  }

  ghost predicate Mirrors(s: Session, log: Log, w: World) {
    && s.streams.Keys == OpenIds(log)
    && (forall id :: id in s.streams ==> StreamMirrored(s, log, w, id))
    && (forall id: nat :: id > Highest(log) ==> Untouched(log, id))
  }

  ghost predicate Knows(s: Session, log: Log, w: World) {
    && s.lastId == Highest(log) && s.config == w.config
    && (s.state == ExpectPreface ==> log == [])
    && (s.state != Closed ==> Remembers(s, log, w) && Mirrors(s, log, w))
  }

  /** With the invariants of the lifecycle and of the payloads, everything the handlers look at. */
  ghost predicate Informed(s: Session, log: Log, w: World) {
    Knows(s, log, w) && Good(s, log) && Ledger(s, log) && s.state == Connected
  }

  // ---- the handlers give these answers ----

  lemma DispatchIs(s: Session, log: Log, w: World, id: nat)
    requires s.dispatches == Dispatches(log) && id in s.streams
    requires s.streams[id].complete && s.streams[id].ended && s.streams[id].request.Some? && s.streams[id].request.value.id == id
    ensures var st := s.streams[id];
            var r := Dispatch(s, w.env, id);
            (r.events, r.status) == DispatchReply(log, w, st.request.value.(body := st.body))
  {
    hide Dispatches;
  }

  /** The end of a header block, given what was collected. */
  lemma FinishIs(s: Session, log: Log, w: World, h: FrameHeader, p: seq<Byte>)
    requires h.id in s.streams && EndHeaders(h) && s.decoder == DecoderOf(log, w) && s.dispatches == Dispatches(log)
    requires var all := log + [Took(h, p)];
             var st := s.streams[h.id];
             st.block == BlockOf(all, h.id) && (st.ended <==> SawEndStream(all, h.id)) && st.body == []
    ensures var r := FinishHeaders(s, w.env, h.id);
            (r.events, r.status) == HeadReply(log, w, h, p)
  {
    hide DecodeBlock, Assemble, Dispatch, DispatchReply, SawEndStream, BlockOf, DecoderOf, Dispatches;
    var st := s.streams[h.id];
    var out := DecodeBlock(s.decoder, st.block);
    if out.ok {
      match Assemble(h.id, out.headers)
      case Usable(request) =>
        var ready := s.(decoder := out.codec, streams := s.streams[h.id := st.(request := Some(request), complete := true)]);
        if st.ended {
          DispatchIs(ready, log, w, h.id);
          assert request.(body := st.body) == request;
        }
      case _ =>
    }
  }

  lemma FragmentIs(s: Session, log: Log, w: World, h: FrameHeader, p: seq<Byte>, fragment: seq<Byte>, ended: bool)
    requires h.id in s.streams && s.decoder == DecoderOf(log, w) && s.dispatches == Dispatches(log)
    requires var all := log + [Took(h, p)];
             var st := s.streams[h.id];
             && st.block + fragment == BlockOf(all, h.id) && (st.ended || ended <==> SawEndStream(all, h.id))
             && st.body == [] && !st.complete
    ensures var r := AddFragment(s, w.env, h, fragment, ended);
            (r.events, r.status) == HeadReply(log, w, h, p)
  {
    hide FinishHeaders, EndHeaders, SawEndStream, BlockOf, DecoderOf, Dispatches, DecodeBlock, DispatchReply;
    var st := s.streams[h.id];
    var grown := s.(streams := s.streams[h.id := st.(block := st.block + fragment, ended := st.ended || ended)]);
    if EndHeaders(h) {
      FinishIs(grown.(continuation := None), log, w, h, p);
    }
  }

  // ---- one more frame, as the observers see it ----

  lemma BlockTook(log: Log, h: FrameHeader, p: seq<Byte>, id: nat)
    ensures BlockOf(log + [Took(h, p)], id) == BlockOf(log, id) + if Heads(h) && h.id == id then Fragment(h, p) else []
  {
    var all := log + [Took(h, p)];
    assert all[..|all| - 1] == log;
  }

  predicate Closes(h: FrameHeader) {
    (h.kind == HEADERS || h.kind == DATA) && EndStream(h)
  }

  lemma EndsTook(log: Log, h: FrameHeader, p: seq<Byte>, id: nat)
    ensures var all := log + [Took(h, p)];
            && (SawEndStream(all, id) <==> (SawEndStream(log, id) || (Closes(h) && h.id == id)))
            && (SawEndHeaders(all, id) <==> (SawEndHeaders(log, id) || (Heads(h) && EndHeaders(h) && h.id == id)))
  {
    hide EndStream, EndHeaders;
    var all := log + [Took(h, p)];
    assert all[|log|] == Took(h, p) && forall i :: 0 <= i < |log| ==> all[i] == log[i];
  }

  lemma HeadersIs(s: Session, log: Log, w: World, h: FrameHeader, p: seq<Byte>)
    requires Informed(s, log, w) && h.kind == HEADERS
    ensures var r := HandleHeaders(s, w.env, h, p);
            (r.events, r.status) == HeadersReply(log, w, h, p)
  {
    hide AddFragment, EndStream, Unpad, Priority, HeadReply, Highest, OpenIds, BlockOf, SawEndStream, SawEndHeaders,
         Ledger, Ordered, DecoderOf, Dispatches, Heard, PeerOf, Queries, Ids, DispatchedIds, StreamMirrored,
         DispatchInv, Unheard;
    KeysCount(s, log);
    StreamsBelow(s, log);
    var made := Opened(s, h.id);
    if h.id % 2 == 1 && h.id > s.lastId && |s.streams| < s.config.maxStreams {
      match Unpad(h, p, if Priority(h) then 5 else 0)
      case None =>
      case Some(fragment) =>
        assert Untouched(log, h.id);
        BlockTook(log, h, p, h.id);
        EndsTook(log, h, p, h.id);
        FragmentIs(made, log, w, h, p, fragment, EndStream(h));
    }
  }

  lemma KeysCount(s: Session, log: Log)
    ensures s.streams.Keys == OpenIds(log) ==> |s.streams| == |OpenIds(log)|
  {
    hide OpenIds;
  }

  lemma StreamsBelow(s: Session, log: Log)
    requires Inv(s, log)
    ensures forall id :: id in s.streams ==> 0 < id <= s.lastId
  {
    hide DispatchInv, Unheard, DataOf, FlowOf, GrantsOf, SawEndStream, SawEndHeaders, DispatchedIds, Ids;
    forall id | id in s.streams ensures 0 < id <= s.lastId {
      assert StreamInv(s, log, id);
    }
  }

  lemma ContinuationIs(s: Session, log: Log, w: World, h: FrameHeader, p: seq<Byte>)
    requires Informed(s, log, w) && h.kind == CONTINUATION && s.continuation == Some(h.id)
    ensures var r := HandleContinuation(s, w.env, h, p);
            (r.events, r.status) == HeadReply(log, w, h, p) && h.id != 0
  {
    hide AddFragment, EndStream, HeadReply, Highest, OpenIds, BlockOf, SawEndStream, SawEndHeaders, Ledger, Ordered,
         DecoderOf, Dispatches, Heard, PeerOf, Queries, Ids, DispatchedIds, DispatchInv, Unheard, RequestOf,
         StreamInv;
    StreamsBelow(s, log);
    assert h.id in s.streams && !s.streams[h.id].complete;
    assert StreamMirrored(s, log, w, h.id);
    BlockTook(log, h, p, h.id);
    EndsTook(log, h, p, h.id);
    FragmentIs(s, log, w, h, p, p, false);
  }

  /** What the windows and the body hold, in frames. */
  lemma StreamHolds(s: Session, log: Log, w: World, id: nat)
    requires Informed(s, log, w) && id in s.streams
    ensures var st := s.streams[id];
            && st.body == TookData(log, id) && st.window == CreditLeft(log, w, Some(id)) && s.window == CreditLeft(log, w, None)
            && 0 < id && (st.request.Some? ==> st.request.value.id == id) && StreamMirrored(s, log, w, id)
            && (st.complete ==> st.request.Some?)
  {
    hide DispatchInv, Unheard, DataOf, FlowOf, GrantsOf, SawEndStream, SawEndHeaders, DispatchedIds, Ids, TookData,
         TookFlow, Whole, Tied, Remembers, OpenIds, Highest, BlockOf, RequestOf, Ordered, IdsInv;
    assert StreamInv(s, log, id);
  }

  lemma TakeIs(s: Session, log: Log, w: World, h: FrameHeader, flow: nat, data: seq<Byte>)
    requires h.id in s.streams && flow <= s.streams[h.id].window && flow <= s.window
    requires var st := s.streams[h.id];
             && s.dispatches == Dispatches(log) && s.config == w.config
             && st.complete && st.request.Some? && st.request.value.id == h.id
    ensures var st := s.streams[h.id];
            var r := TakeData(s, w.env, h, flow, data);
            var taken := [AcceptedData(h.id, flow, data)] + TopUp(0, s.window - flow, w.config.window)
                         + TopUp(h.id, st.window - flow, w.config.window);
            var sent := DispatchReply(log, w, st.request.value.(body := st.body + data));
            (r.events, r.status) == if EndStream(h) then (taken + sent.0, sent.1) else (taken, Ready)
  {
    hide Dispatch, DispatchReply, EndStream, Dispatches;
    var st := s.streams[h.id];
    var connection, stream := Charge(s.window, flow, s.config.window), Charge(st.window, flow, s.config.window);
    var next := st.(window := stream.0, body := st.body + data, ended := EndStream(h));
    if EndStream(h) {
      DispatchIs(s.(window := connection.0, streams := s.streams[h.id := next]), log, w, h.id);
    }
  }

  lemma DataIs(s: Session, log: Log, w: World, h: FrameHeader, p: seq<Byte>)
    requires Informed(s, log, w) && h.kind == DATA
    ensures var r := HandleData(s, w.env, h, p);
            (r.events, r.status) == DataReply(log, w, h, p)
  {
    hide TakeData, Unpad, EndStream, Good, Ledger, DispatchReply, TookData, CreditLeft, RequestOf, BlockOf,
         SawEndStream, SawEndHeaders, OpenIds, Highest, Dispatches, Heard, PeerOf, Queries, DecoderOf;
    StreamsPositive(s, log, w);
    if h.id in s.streams {
      StreamHolds(s, log, w, h.id);
      var st := s.streams[h.id];
      if |p| <= st.window && |p| <= s.window && Unpad(h, p, 0).Some? && st.complete {
        TakeIs(s, log, w, h, |p|, Unpad(h, p, 0).value);
      }
    }
  }

  lemma StreamsPositive(s: Session, log: Log, w: World)
    requires Informed(s, log, w)
    ensures 0 !in s.streams
  {
    hide Knows, Inv, Ledger, Ordered;
    StreamsBelow(s, log);
  }

  lemma SettingsIs(s: Session, log: Log, w: World, h: FrameHeader, p: seq<Byte>)
    requires s.peer == PeerOf(log, w) && s.queries == Queries(log) && h.kind == SETTINGS
    ensures var r := HandleSettings(s, w.env, h, p);
            (r.events, r.status) == SimpleReply(log, w, h, p)
  {
    hide PeerOf, Queries, Highest, ReadSettings, Refused, SettingName, SettingValue, LastOf, Ack;
    if |p| % 6 == 0 {
      SettingsReadIff(p, s.peer);
    }
  }

  lemma OtherIs(s: Session, log: Log, w: World, h: FrameHeader, p: seq<Byte>)
    requires s.lastId == Highest(log) && s.queries == Queries(log) && h.kind != SETTINGS
    ensures var r := if h.kind == WINDOW_UPDATE then HandleWindowUpdate(s, w.env, h, p) else HandleOther(s, h, p);
            (r.events, r.status) == SimpleReply(log, w, h, p)
  {
    hide PeerOf, Queries, Highest, Ack, Announced, Tolerable;
  }

  /** Every frame is answered as the frames before it demand. */
  lemma HandleIs(s: Session, log: Log, w: World, h: FrameHeader, p: seq<Byte>)
    requires Informed(s, log, w)
    ensures var r := Handle(s, w.env, h, p);
            (r.events, r.status) == Reply(log, w, h, p)
  {
    hide HandleSettings, HandleHeaders, HandleContinuation, HandleData, HandleWindowUpdate, HandleOther, Ack, Mirrors,
         Ledger, Inv, SimpleReply, HeadReply, HeadersReply, DataReply, Heard, PeerOf, Queries, Highest, OpenBlock,
         DecoderOf, Dispatches, AllAdmitted;
    if h.kind == SETTINGS {
      SettingsIs(s, log, w, h, p);
    } else if h.kind == HEADERS {
      HeadersIs(s, log, w, h, p);
      ZeroRefused(log, w, h, p);
    } else if h.kind == CONTINUATION {
      if s.continuation == Some(h.id) {
        ContinuationIs(s, log, w, h, p);
      } else {
        StrayContinuation(s, w.env, h, p);
      }
    } else if h.kind == DATA {
      DataIs(s, log, w, h, p);
    } else {
      OtherIs(s, log, w, h, p);
    }
  }

  lemma ZeroRefused(log: Log, w: World, h: FrameHeader, p: seq<Byte>)
    ensures h.id == 0 ==> HeadersReply(log, w, h, p) == Refusal()
  {
  }

  lemma StrayContinuation(s: Session, env: Env, h: FrameHeader, p: seq<Byte>)
    requires s.continuation != Some(h.id)
    ensures var r := HandleContinuation(s, env, h, p);
            (r.events, r.status) == Refusal()
  {
  }

  // ---- and remembers them ----

  lemma DecoderTook(log: Log, w: World, h: FrameHeader, p: seq<Byte>, id: nat)
    ensures var all := log + [Took(h, p)];
            var out := DecodeBlock(DecoderOf(log, w), BlockOf(all, h.id));
            && DecoderOf(all, w) == (if Heads(h) && EndHeaders(h) then out.codec else DecoderOf(log, w))
            && RequestOf(all, w, id)
               == if Heads(h) && EndHeaders(h) && h.id == id then Requested(id, out.headers) else RequestOf(log, w, id)
  {
    hide BlockOf, DecodeBlock, EndHeaders, Heads, Requested;
    var all := log + [Took(h, p)];
    assert all[..|all| - 1] == log;
  }

  /** What is not a frame tells nothing of header blocks. */
  lemma {:induction false} SameBlocks(log: Log, events: seq<Event>, w: World, id: nat)
    requires NoTook(events)
    ensures var all := log + events;
            && BlockOf(all, id) == BlockOf(log, id) && DecoderOf(all, w) == DecoderOf(log, w)
            && RequestOf(all, w, id) == RequestOf(log, w, id)
            && (SawEndStream(all, id) <==> SawEndStream(log, id)) && (SawEndHeaders(all, id) <==> SawEndHeaders(log, id))
    decreases |events|
  {
    hide DecodeBlock, EndHeaders, Heads, Requested, Fragment, EndStream;
    var all := log + events;
    if events == [] {
      assert all == log;
    } else {
      assert all[..|all| - 1] == log + events[..|events| - 1];
      SameBlocks(log, events[..|events| - 1], w, id);
    }
    assert forall i :: 0 <= i < |log| ==> all[i] == log[i];
    assert forall i :: |log| <= i < |all| ==> all[i] == events[i - |log|];
  }

  lemma {:induction false} HighestAppend(log: Log, events: seq<Event>)
    requires forall i :: 0 <= i < |events| ==> !events[i].OpenedStream?
    ensures Highest(log + events) == Highest(log)
    decreases |events|
  {
    var all := log + events;
    if events == [] {
      assert all == log;
    } else {
      assert all[..|all| - 1] == log + events[..|events| - 1];
      HighestAppend(log, events[..|events| - 1]);
    }
  }

  function Gone(events: seq<Event>): set<nat> {
    if events == [] then {} else Gone(events[..|events| - 1]) + Leaving(events[|events| - 1])
  }

  lemma {:induction false} OpenAppend(log: Log, events: seq<Event>)
    requires forall i :: 0 <= i < |events| ==> !events[i].OpenedStream?
    ensures OpenIds(log + events) == OpenIds(log) - Gone(events)
    decreases |events|
  {
    var all := log + events;
    if events == [] {
      assert all == log;
    } else {
      assert all[..|all| - 1] == log + events[..|events| - 1];
      OpenAppend(log, events[..|events| - 1]);
    }
  }

  /** How many events ask the scheduler, and how many dispatch. */
  function Counts(events: seq<Event>): (nat, nat) {
    if events == [] then (0, 0)
    else
      var e := events[|events| - 1];
      var before := Counts(events[..|events| - 1]);
      (before.0 + if Asks(e) then 1 else 0, before.1 + if e.Dispatched? then 1 else 0)
  }

  lemma {:induction false} CountsAppend(log: Log, events: seq<Event>)
    ensures Queries(log + events) == Queries(log) + Counts(events).0
    ensures Dispatches(log + events) == Dispatches(log) + Counts(events).1
    decreases |events|
  {
    hide Asks;
    var all := log + events;
    if events == [] {
      assert all == log;
    } else {
      assert all[..|all| - 1] == log + events[..|events| - 1];
      CountsAppend(log, events[..|events| - 1]);
    }
  }

  lemma {:induction false} SettingsAppend(log: Log, events: seq<Event>, w: World)
    requires NoTook(events)
    ensures PeerOf(log + events, w) == PeerOf(log, w) && (Heard(log + events) <==> Heard(log))
    decreases |events|
  {
    hide Announced, Ack;
    var all := log + events;
    if events == [] {
      assert all == log;
    } else {
      assert all[..|all| - 1] == log + events[..|events| - 1];
      SettingsAppend(log, events[..|events| - 1], w);
    }
    assert forall i :: 0 <= i < |log| ==> all[i] == log[i];
    assert forall i :: |log| <= i < |all| ==> all[i] == events[i - |log|];
  }

  lemma SettingsTook(log: Log, h: FrameHeader, p: seq<Byte>, w: World)
    ensures var all := log + [Took(h, p)];
            && PeerOf(all, w) == (if h.kind == SETTINGS && !Ack(h) then Announced(p, PeerOf(log, w)) else PeerOf(log, w))
            && (Heard(all) <==> Heard(log) || (h.kind == SETTINGS && !Ack(h)))
            && Queries(all) == Queries(log) && Dispatches(all) == Dispatches(log)
            && Highest(all) == Highest(log) && OpenIds(all) == OpenIds(log)
  {
    hide Announced, Ack;
    var all := log + [Took(h, p)];
    assert all[..|all| - 1] == log && all[|log|] == Took(h, p);
    assert forall i :: 0 <= i < |log| ==> all[i] == log[i];
  }

  /** Streams other than the frame's are seen as before. */
  lemma OtherMirrored(s: Session, t: Session, log: Log, w: World, h: FrameHeader, p: seq<Byte>, events: seq<Event>, id: nat)
    requires id in s.streams && id in t.streams && t.streams[id] == s.streams[id] && StreamMirrored(s, log, w, id)
    requires NoTook(events) && (id != h.id || !(Heads(h) || h.kind == DATA))
    ensures StreamMirrored(t, log + ([Took(h, p)] + events), w, id)
  {
    hide BlockOf, SawEndStream, SawEndHeaders, RequestOf, DecoderOf, DecodeBlock, Fragment, EndStream, EndHeaders,
         Requested;
    Assoc(log, [Took(h, p)], events);
    BlockTook(log, h, p, id);
    EndsTook(log, h, p, id);
    DecoderTook(log, w, h, p, id);
    SameBlocks(log + [Took(h, p)], events, w, id);
    assert BlockOf(log, id) + [] == BlockOf(log, id);
  }

  lemma StillUntouched(log: Log, w: World, h: FrameHeader, p: seq<Byte>, events: seq<Event>, id: nat)
    requires Untouched(log, id) && NoTook(events) && (id != h.id || !(Heads(h) || h.kind == DATA))
    ensures Untouched(log + ([Took(h, p)] + events), id)
  {
    hide BlockOf, SawEndStream, SawEndHeaders, RequestOf, DecoderOf, DecodeBlock, Fragment, EndStream, EndHeaders,
         Requested;
    Assoc(log, [Took(h, p)], events);
    BlockTook(log, h, p, id);
    EndsTook(log, h, p, id);
    SameBlocks(log + [Took(h, p)], events, w, id);
    assert BlockOf(log, id) + [] == BlockOf(log, id);
  }

  /** What is left to show of one frame: which streams stay, and how the frame's own looks. */
  lemma MirrorsStep(s: Session, t: Session, log: Log, w: World, h: FrameHeader, p: seq<Byte>, events: seq<Event>)
    requires Mirrors(s, log, w) && NoTook(events)
    requires var all := log + ([Took(h, p)] + events);
             && t.streams.Keys == OpenIds(all) && Highest(log) <= Highest(all)
             && (Heads(h) || h.kind == DATA ==> h.id <= Highest(all) && (h.id in t.streams ==> StreamMirrored(t, all, w, h.id)))
    requires forall id :: id in t.streams && (id != h.id || !(Heads(h) || h.kind == DATA)) ==>
               id in s.streams && t.streams[id] == s.streams[id]
    ensures Mirrors(t, log + ([Took(h, p)] + events), w)
  {
    hide StreamMirrored, Untouched, OpenIds, Highest;
    var all := log + ([Took(h, p)] + events);
    forall id | id in t.streams ensures StreamMirrored(t, all, w, id) {
      if id != h.id || !(Heads(h) || h.kind == DATA) {
        OtherMirrored(s, t, log, w, h, p, events, id);
      }
    }
    forall id: nat | id > Highest(all) ensures Untouched(all, id) {
      StillUntouched(log, w, h, p, events, id);
    }
  }

  predicate OpensNone(events: seq<Event>) {
    forall i :: 0 <= i < |events| ==> !events[i].OpenedStream?
  }

  lemma {:induction false} TallyAppend(a: seq<Event>, b: seq<Event>)
    ensures Gone(a + b) == Gone(a) + Gone(b)
    ensures Counts(a + b) == (Counts(a).0 + Counts(b).0, Counts(a).1 + Counts(b).1)
    decreases |b|
  {
    hide Asks, Leaving;
    if b == [] {
      assert a + b == a;
    } else {
      assert (a + b)[..|a + b| - 1] == a + b[..|b| - 1];
      TallyAppend(a, b[..|b| - 1]);
    }
  }

  lemma TallyOne(e: Event)
    ensures Gone([e]) == Leaving(e) && Counts([e]) == (if Asks(e) then 1 else 0, if e.Dispatched? then 1 else 0)
  {
    hide Asks, Leaving;
    assert [e][..0] == [];
  }

  lemma TallyTwo(e: Event, f: Event)
    requires !Asks(e) && !Asks(f) && !f.Dispatched?
    ensures Gone([e, f]) == Leaving(e) + Leaving(f) && Counts([e, f]) == (0, if e.Dispatched? then 1 else 0)
  {
    hide Asks, Leaving;
    TallyOne(e);
    TallyOne(f);
    TallyAppend([e], [f]);
    assert [e] + [f] == [e, f];
  }

  /** A step of a request's frame: the stream is gone, or is as given. */
  ghost predicate Settled(s: Session, r: Step, id: nat, st: Inflow, decoder: Codec) {
    && r.s.gotSettings == s.gotSettings && r.s.peer == s.peer && r.s.queries == s.queries
    && r.s.lastId == s.lastId && r.s.config == s.config && r.s.decoder == decoder
    && Counts(r.events) == (0, r.s.dispatches - s.dispatches) && OpensNone(r.events)
    && (|| (Gone(r.events) == {id} && r.s.streams == s.streams - {id})
        || (Gone(r.events) == {} && r.s.streams == s.streams[id := st]))
  }

  lemma DispatchSettles(s: Session, env: Env, id: nat)
    requires id in s.streams && s.streams[id].complete && s.streams[id].ended
    requires s.streams[id].request.Some? && s.streams[id].request.value.id == id
    ensures Settled(s, Dispatch(s, env, id), id, s.streams[id], s.decoder) && Gone(Dispatch(s, env, id).events) == {id}
  {
    var r := Dispatch(s, env, id);
    var sent := r.events[0];
    TallyOne(sent);
    TallyTwo(sent, ClosedStream(id));
  }

  lemma FinishSettles(s: Session, env: Env, id: nat)
    requires id in s.streams
    ensures var out := DecodeBlock(s.decoder, s.streams[id].block);
            var r := FinishHeaders(s, env, id);
            && r.s.lastId == s.lastId && r.s.config == s.config && OpensNone(r.events)
            && (r.status != ProtocolError ==>
                  Settled(s, r, id, s.streams[id].(request := Requested(id, out.headers), complete := true), out.codec)
                  && (r.s.streams == s.streams - {id} || Requested(id, out.headers).Some?))
  {
    hide DecodeBlock, Assemble, Dispatch, Gone, Counts;
    var st := s.streams[id];
    var out := DecodeBlock(s.decoder, st.block);
    NoTally();
    if !out.ok {
      TallyTwo(SentReset(id, COMPRESSION_ERROR), ClosedStream(id));
    } else {
      match Assemble(id, out.headers)
      case Usable(request) =>
        var ready := s.(decoder := out.codec, streams := s.streams[id := st.(request := Some(request), complete := true)]);
        if st.ended {
          DispatchSettles(ready, env, id);
          assert ready.streams - {id} == s.streams - {id};
        }
      case _ =>
    }
  }

  lemma NoTally()
    ensures Gone([]) == {} && Counts([]) == (0, 0)
  {
  }

  /** The stream once a fragment has been added to its header block. */
  ghost function Fragmented(s: Session, h: FrameHeader, fragment: seq<Byte>, ended: bool): Inflow
    requires h.id in s.streams
  {
    var st := s.streams[h.id];
    var grown := st.(block := st.block + fragment, ended := st.ended || ended);
    if EndHeaders(h)
    then grown.(request := Requested(h.id, DecodeBlock(s.decoder, grown.block).headers), complete := true)
    else grown
  }

  lemma FragmentSettles(s: Session, env: Env, h: FrameHeader, fragment: seq<Byte>, ended: bool)
    requires h.id in s.streams && !s.streams[h.id].complete
    ensures var r := AddFragment(s, env, h, fragment, ended);
            var out := DecodeBlock(s.decoder, s.streams[h.id].block + fragment);
            var st := Fragmented(s, h, fragment, ended);
            && r.s.lastId == s.lastId && r.s.config == s.config && OpensNone(r.events)
            && (r.status != ProtocolError ==>
                  && Settled(s, r, h.id, st, if EndHeaders(h) then out.codec else s.decoder)
                  && (r.s.streams == s.streams - {h.id} || (st.complete ==> st.request.Some?)))
  {
    hide DecodeBlock, FinishHeaders, EndHeaders, Gone, Counts, Requested;
    var st := s.streams[h.id];
    var grown := s.(streams := s.streams[h.id := st.(block := st.block + fragment, ended := st.ended || ended)]);
    NoTally();
    if EndHeaders(h) {
      var open := grown.(continuation := None);
      FinishSettles(open, env, h.id);
      assert open.streams - {h.id} == s.streams - {h.id};
    }
  }

  lemma TakeSettles(s: Session, env: Env, h: FrameHeader, flow: nat, data: seq<Byte>)
    requires h.id in s.streams && flow <= s.streams[h.id].window && flow <= s.window
    requires s.streams[h.id].complete && s.streams[h.id].request.Some? && s.streams[h.id].request.value.id == h.id
    ensures var r := TakeData(s, env, h, flow, data);
            exists st ::
              && Settled(s, r, h.id, st, s.decoder)
              && st == s.streams[h.id].(window := st.window, body := st.body, ended := EndStream(h))
  {
    hide Dispatch, Charge, EndStream, Gone, Counts, Leaving;
    var st := s.streams[h.id];
    var connection, stream := Charge(s.window, flow, s.config.window), Charge(st.window, flow, s.config.window);
    var next := st.(window := stream.0, body := st.body + data, ended := EndStream(h));
    var done := s.(window := connection.0, streams := s.streams[h.id := next]);
    var events := [AcceptedData(h.id, flow, data)] + Grant(0, connection.1) + Grant(h.id, stream.1);
    TakenTally(h.id, flow, data, connection.1, stream.1);
    var r := TakeData(s, env, h, flow, data);
    if EndStream(h) {
      DispatchSettles(done, env, h.id);
      TallyAppend(events, Dispatch(done, env, h.id).events);
      assert done.streams - {h.id} == s.streams - {h.id};
    }
    assert Settled(s, r, h.id, next, s.decoder);
  }

  lemma TakenTally(id: nat, flow: nat, data: seq<Byte>, a: nat, b: nat)
    ensures var events := [AcceptedData(id, flow, data)] + Grant(0, a) + Grant(id, b);
            Gone(events) == {} && Counts(events) == (0, 0) && OpensNone(events)
  {
    hide Gone, Counts;
    NoTally();
    TallyOne(AcceptedData(id, flow, data));
    TallyOne(Granted(0, a));
    TallyOne(Granted(id, b));
    TallyAppend([AcceptedData(id, flow, data)], Grant(0, a));
    TallyAppend([AcceptedData(id, flow, data)] + Grant(0, a), Grant(id, b));
  }

  lemma SettledTally(s: Session, r: Step, id: nat, st: Inflow, decoder: Codec, log: Log)
    requires Settled(s, r, id, st, decoder) && id in s.streams && s.streams.Keys == OpenIds(log)
    requires s.queries == Queries(log) && s.dispatches == Dispatches(log) && s.lastId == Highest(log)
    ensures var all := log + r.events;
            && r.s.streams.Keys == OpenIds(all) && r.s.queries == Queries(all) && r.s.dispatches == Dispatches(all)
            && r.s.lastId == Highest(all)
  {
    hide OpenIds, Queries, Dispatches, Highest, Gone, Counts;
    OpenAppend(log, r.events);
    CountsAppend(log, r.events);
    HighestAppend(log, r.events);
  }

  /** A header frame's stream, if it stays, is as the frames tell. */
  lemma FragmentMirrored(s: Session, t: Session, log: Log, w: World, h: FrameHeader, p: seq<Byte>, more: seq<Event>)
    requires h.id in s.streams && h.id in t.streams && Heads(h) && NoTook(more) && s.decoder == DecoderOf(log, w)
    requires var st := s.streams[h.id];
             && st.block == BlockOf(log, h.id) && (st.ended <==> SawEndStream(log, h.id)) && !SawEndHeaders(log, h.id)
             && st.body == [] && !st.complete
             && t.streams[h.id] == Fragmented(s, h, Fragment(h, p), Closes(h))
             && (t.streams[h.id].complete ==> t.streams[h.id].request.Some?)
    ensures StreamMirrored(t, log + ([Took(h, p)] + more), w, h.id)
  {
    hide BlockOf, SawEndStream, SawEndHeaders, RequestOf, DecoderOf, DecodeBlock, Fragment, EndStream, EndHeaders,
         Requested;
    var taken := log + [Took(h, p)];
    Assoc(log, [Took(h, p)], more);
    BlockTook(log, h, p, h.id);
    EndsTook(log, h, p, h.id);
    DecoderTook(log, w, h, p, h.id);
    SameBlocks(taken, more, w, h.id);
  }

  lemma TookRemembered(s: Session, log: Log, w: World, h: FrameHeader, p: seq<Byte>, more: seq<Event>)
    requires Remembers(s, log, w) && NoTook(more) && h.kind != SETTINGS
    ensures var all := log + ([Took(h, p)] + more);
            var out := DecodeBlock(s.decoder, BlockOf(log + [Took(h, p)], h.id));
            && (s.gotSettings <==> Heard(all)) && s.peer == PeerOf(all, w)
            && DecoderOf(all, w) == if Heads(h) && EndHeaders(h) then out.codec else s.decoder
  {
    hide BlockOf, SawEndStream, SawEndHeaders, RequestOf, DecoderOf, DecodeBlock, Heard, PeerOf, EndHeaders, Queries,
         Dispatches, Ack;
    Assoc(log, [Took(h, p)], more);
    SettingsTook(log, h, p, w);
    SettingsAppend(log + [Took(h, p)], more, w);
    DecoderTook(log, w, h, p, h.id);
    SameBlocks(log + [Took(h, p)], more, w, h.id);
  }

  lemma OpenedTally(log: Log, h: FrameHeader, p: seq<Byte>, w: World)
    ensures var all := log + [Took(h, p)] + [OpenedStream(h.id)];
            && OpenIds(all) == OpenIds(log) + {h.id} && Queries(all) == Queries(log) && Dispatches(all) == Dispatches(log)
            && Highest(all) == h.id
  {
    var taken := log + [Took(h, p)];
    SettingsTook(log, h, p, w);
    var all := taken + [OpenedStream(h.id)];
    assert all[..|all| - 1] == taken;
  }

  /** A new stream's head: what is left of it, and what was counted. */
  lemma HeadersSettle(s: Session, log: Log, w: World, h: FrameHeader, p: seq<Byte>)
    requires Informed(s, log, w) && h.kind == HEADERS && HandleHeaders(s, w.env, h, p).status != ProtocolError
    ensures var r := HandleHeaders(s, w.env, h, p);
            var made := Opened(s, h.id);
            var f := AddFragment(made, w.env, h, Fragment(h, p), EndStream(h));
            var st := Fragmented(made, h, Fragment(h, p), EndStream(h));
            var out := DecodeBlock(s.decoder, Fragment(h, p));
            && h.id > s.lastId && r == f.(events := [OpenedStream(h.id)] + f.events)
            && Settled(made, f, h.id, st, if EndHeaders(h) then out.codec else s.decoder)
            && (h.id in f.s.streams ==> f.s.streams[h.id] == st && (st.complete ==> st.request.Some?))
  {
    hide AddFragment, EndStream, Unpad, Priority, Good, Ledger, Knows, DecodeBlock, Requested, EndHeaders, Gone,
         Counts, OpensNone;
    var made := Opened(s, h.id);
    var fragment := Fragment(h, p);
    assert [] + fragment == fragment;
    FragmentSettles(made, w.env, h, fragment, EndStream(h));
  }

  lemma HeadersKnows(s: Session, log: Log, w: World, h: FrameHeader, p: seq<Byte>)
    requires Informed(s, log, w) && h.kind == HEADERS && HandleHeaders(s, w.env, h, p).status != ProtocolError
    requires NoTook(HandleHeaders(s, w.env, h, p).events)
    ensures var r := HandleHeaders(s, w.env, h, p);
            Knows(r.s, log + ([Took(h, p)] + r.events), w)
  {
    hide HandleHeaders, AddFragment, EndStream, Fragment, Highest, OpenIds, BlockOf, SawEndStream, SawEndHeaders,
         Good, Ledger, DecoderOf, Dispatches, Heard, PeerOf, Queries, StreamMirrored, RequestOf, DecodeBlock,
         Requested, EndHeaders, Gone, Counts, OpensNone;
    HeadersSettle(s, log, w, h, p);
    var r := HandleHeaders(s, w.env, h, p);
    var made := Opened(s, h.id);
    var f := AddFragment(made, w.env, h, Fragment(h, p), EndStream(h));
    var pre := log + [Took(h, p)] + [OpenedStream(h.id)];
    assert log + ([Took(h, p)] + r.events) == pre + f.events;
    OpenedTally(log, h, p, w);
    var st := Fragmented(made, h, Fragment(h, p), EndStream(h));
    SettledTally(made, f, h.id, st, f.s.decoder, pre);
    TookRemembered(s, log, w, h, p, r.events);
    BlockTook(log, h, p, h.id);
    assert Untouched(log, h.id);
    assert [] + Fragment(h, p) == Fragment(h, p);
    if h.id in r.s.streams {
      FragmentMirrored(made, r.s, log, w, h, p, r.events);
    }
    MirrorsStep(s, r.s, log, w, h, p, r.events);
  }

  lemma ContinuationKnows(s: Session, log: Log, w: World, h: FrameHeader, p: seq<Byte>)
    requires Informed(s, log, w) && h.kind == CONTINUATION && s.continuation == Some(h.id)
    requires var r := HandleContinuation(s, w.env, h, p); r.status != ProtocolError && NoTook(r.events)
    ensures var r := HandleContinuation(s, w.env, h, p);
            Knows(r.s, log + ([Took(h, p)] + r.events), w)
  {
    hide AddFragment, EndStream, Unpad, Highest, OpenIds, BlockOf, SawEndStream, SawEndHeaders, Ledger, Ordered,
         IdsInv, DispatchInv, Unheard, DecoderOf, Dispatches, Heard, PeerOf, Queries, RequestOf, DecodeBlock,
         Requested, EndHeaders, Gone, Counts, StreamInv, FlowOf, GrantsOf;
    var r := HandleContinuation(s, w.env, h, p);
    assert StreamMirrored(s, log, w, h.id);
    FragmentSettles(s, w.env, h, p, false);
    var taken := log + [Took(h, p)];
    Assoc(log, [Took(h, p)], r.events);
    SettingsTook(log, h, p, w);
    var st := Fragmented(s, h, p, false);
    var out := DecodeBlock(s.decoder, s.streams[h.id].block + p);
    SettledTally(s, r, h.id, st, if EndHeaders(h) then out.codec else s.decoder, taken);
    TookRemembered(s, log, w, h, p, r.events);
    BlockTook(log, h, p, h.id);
    if h.id in r.s.streams {
      FragmentMirrored(s, r.s, log, w, h, p, r.events);
    }
    StreamsBelow(s, log);
    MirrorsStep(s, r.s, log, w, h, p, r.events);
  }

  lemma DataMirrored(s: Session, t: Session, log: Log, w: World, h: FrameHeader, p: seq<Byte>, more: seq<Event>)
    requires h.kind == DATA && h.id in s.streams && h.id in t.streams && StreamMirrored(s, log, w, h.id) && NoTook(more)
    requires var st, next := s.streams[h.id], t.streams[h.id];
             st.complete && !st.ended && next == st.(window := next.window, body := next.body, ended := EndStream(h))
    ensures StreamMirrored(t, log + ([Took(h, p)] + more), w, h.id)
  {
    hide BlockOf, SawEndStream, SawEndHeaders, RequestOf, DecoderOf, DecodeBlock, Fragment, EndStream, EndHeaders,
         Requested;
    var taken := log + [Took(h, p)];
    Assoc(log, [Took(h, p)], more);
    BlockTook(log, h, p, h.id);
    EndsTook(log, h, p, h.id);
    DecoderTook(log, w, h, p, h.id);
    SameBlocks(taken, more, w, h.id);
    assert BlockOf(log, h.id) + [] == BlockOf(log, h.id);
  }

  lemma DataSettles(s: Session, log: Log, w: World, h: FrameHeader, p: seq<Byte>) returns (st: Inflow)
    requires Informed(s, log, w) && h.kind == DATA && HandleData(s, w.env, h, p).status != ProtocolError
    ensures h.id in s.streams && s.streams[h.id].complete && !s.streams[h.id].ended && StreamMirrored(s, log, w, h.id)
    ensures Settled(s, HandleData(s, w.env, h, p), h.id, st, s.decoder) && 0 < h.id <= s.lastId
    ensures st == s.streams[h.id].(window := st.window, body := st.body, ended := EndStream(h))
  {
    hide TakeData, Unpad, EndStream, Ledger, Knows, Gone, Counts, StreamMirrored, Ordered, IdsInv, DispatchInv,
         Unheard, StreamInv;
    StreamHolds(s, log, w, h.id);
    StreamsBelow(s, log);
    var r := HandleData(s, w.env, h, p);
    var was := s.streams[h.id];
    var data := Unpad(h, p, 0).value;
    if |data| > s.config.maxBody || |was.body| > s.config.maxBody - |data| {
      TallyOne(ClosedStream(h.id));
      st := was.(ended := EndStream(h));
    } else {
      TakeSettles(s, w.env, h, |p|, data);
      st :| Settled(s, r, h.id, st, s.decoder) && st == was.(window := st.window, body := st.body, ended := EndStream(h));
    }
  }

  lemma DataKnows(s: Session, log: Log, w: World, h: FrameHeader, p: seq<Byte>)
    requires Informed(s, log, w) && h.kind == DATA && HandleData(s, w.env, h, p).status != ProtocolError
    requires NoTook(HandleData(s, w.env, h, p).events)
    ensures var r := HandleData(s, w.env, h, p);
            Knows(r.s, log + ([Took(h, p)] + r.events), w)
  {
    hide HandleData, EndStream, Unpad, Highest, OpenIds, BlockOf, SawEndStream, SawEndHeaders, Ledger, Good,
         StreamMirrored, DecoderOf, Dispatches, Heard, PeerOf, Queries, RequestOf, DecodeBlock, Requested, EndHeaders,
         Gone, Counts;
    var r := HandleData(s, w.env, h, p);
    var st := DataSettles(s, log, w, h, p);
    Assoc(log, [Took(h, p)], r.events);
    SettingsTook(log, h, p, w);
    SettledTally(s, r, h.id, st, s.decoder, log + [Took(h, p)]);
    TookRemembered(s, log, w, h, p, r.events);
    if h.id in r.s.streams {
      DataMirrored(s, r.s, log, w, h, p, r.events);
    }
    MirrorsStep(s, r.s, log, w, h, p, r.events);
  }

  /** A frame outside requests: it may close a stream and ask the scheduler. */
  ghost predicate Passing(s: Session, r: Step) {
    && r.s.lastId == s.lastId && r.s.config == s.config && r.s.decoder == s.decoder && r.s.dispatches == s.dispatches
    && OpensNone(r.events) && r.s.streams == s.streams - Gone(r.events)
    && (r.status != ProtocolError ==> Counts(r.events) == (r.s.queries - s.queries, 0))
  }

  lemma SettingsPasses(s: Session, env: Env, h: FrameHeader, p: seq<Byte>)
    ensures var r := HandleSettings(s, env, h, p);
            && Passing(s, r)
            && (r.status != ProtocolError ==>
                  && r.s.gotSettings == (s.gotSettings || !Ack(h)) && r.s.peer == if Ack(h) then s.peer else Announced(p, s.peer))
  {
    hide ReadSettings, Gone, Counts, Leaving, Ack, LastOf;
    NoTally();
    var told := PeerSettings(ReadSettings(p, s.peer).0);
    TallyOne(told);
    TallyOne(SentAck);
    TallyAppend([told], [SentAck]);
    assert [told] + [SentAck] == [told, SentAck];
    LeavesNone(told);
    LeavesNone(SentAck);
    if |p| % 6 == 0 {
      SettingsReadIff(p, s.peer);
    }
  }

  lemma LeavesNone(e: Event)
    requires !e.ClosedStream? && !e.Dispatched?
    ensures Leaving(e) == {}
  {
  }

  lemma OtherPasses(s: Session, env: Env, h: FrameHeader, p: seq<Byte>)
    requires h.kind != SETTINGS
    ensures var r := if h.kind == WINDOW_UPDATE then HandleWindowUpdate(s, env, h, p) else HandleOther(s, h, p);
            Passing(s, r) && r.s.gotSettings == s.gotSettings && r.s.peer == s.peer
  {
    hide Gone, Counts, Ack, ReadIncrement;
    NoTally();
    var r := if h.kind == WINDOW_UPDATE then HandleWindowUpdate(s, env, h, p) else HandleOther(s, h, p);
    if r.events != [] {
      TallyOne(r.events[0]);
      assert r.events == [r.events[0]];
    }
  }

  lemma PassingKnows(s: Session, r: Step, log: Log, w: World, h: FrameHeader, p: seq<Byte>)
    requires Knows(s, log, w) && s.state == Connected && Passing(s, r) && r.status != ProtocolError && NoTook(r.events)
    requires !Heads(h) && h.kind != DATA && r.s.state != ExpectPreface
    requires r.s.gotSettings == (s.gotSettings || (h.kind == SETTINGS && !Ack(h)))
    requires r.s.peer == if h.kind == SETTINGS && !Ack(h) then Announced(p, s.peer) else s.peer
    ensures Knows(r.s, log + ([Took(h, p)] + r.events), w)
  {
    hide Highest, OpenIds, BlockOf, SawEndStream, SawEndHeaders, StreamMirrored, Ack, Announced, DecoderOf,
         Dispatches, Heard, PeerOf, Queries, RequestOf, DecodeBlock, EndHeaders, Gone, Counts;
    var taken := log + [Took(h, p)];
    Assoc(log, [Took(h, p)], r.events);
    SettingsTook(log, h, p, w);
    SettingsAppend(taken, r.events, w);
    DecoderTook(log, w, h, p, h.id);
    SameBlocks(taken, r.events, w, h.id);
    OpenAppend(taken, r.events);
    CountsAppend(taken, r.events);
    HighestAppend(taken, r.events);
    MirrorsStep(s, r.s, log, w, h, p, r.events);
  }

  lemma FrameKnows(s: Session, log: Log, w: World, h: FrameHeader, p: seq<Byte>)
    requires Informed(s, log, w)
    requires var r := Handle(s, w.env, h, p); r.status != ProtocolError && NoTook(r.events)
    ensures var r := Handle(s, w.env, h, p);
            Knows(r.s, log + ([Took(h, p)] + r.events), w)
  {
    hide HandleSettings, HandleHeaders, HandleContinuation, HandleData, HandleWindowUpdate, HandleOther, Ack, Knows,
         Ledger, Good, Passing, Announced;
    var r := Handle(s, w.env, h, p);
    if h.kind == SETTINGS {
      SettingsPasses(s, w.env, h, p);
      PassingKnows(s, r, log, w, h, p);
    } else if h.kind == HEADERS {
      HeadersKnows(s, log, w, h, p);
    } else if h.kind == CONTINUATION {
      if s.continuation != Some(h.id) {
        StrayContinuation(s, w.env, h, p);
      } else {
        ContinuationKnows(s, log, w, h, p);
      }
    } else if h.kind == DATA {
      DataKnows(s, log, w, h, p);
    } else {
      OtherPasses(s, w.env, h, p);
      PassingKnows(s, r, log, w, h, p);
    }
  }

  // ---- the highest stream, even when the connection fails ----

  /** A step opens its stream first, or opens none. */
  predicate OpensFirst(s: Session, r: Step, id: nat) {
    && r.s.config == s.config
    && (|| (OpensNone(r.events) && r.s.lastId == s.lastId)
        || (r.events != [] && r.events[0] == OpenedStream(id) && OpensNone(r.events[1..]) && r.s.lastId == id))
  }

  lemma DispatchOpensNone(s: Session, env: Env, id: nat)
    ensures var r := Dispatch(s, env, id);
            r.s.config == s.config && r.s.lastId == s.lastId && OpensNone(r.events)
  {
  }

  lemma FragmentOpensNone(s: Session, env: Env, h: FrameHeader, fragment: seq<Byte>, ended: bool)
    requires h.id in s.streams
    ensures var r := AddFragment(s, env, h, fragment, ended);
            r.s.config == s.config && r.s.lastId == s.lastId && OpensNone(r.events)
  {
    hide FinishHeaders, EndHeaders;
    var st := s.streams[h.id];
    var grown := s.(streams := s.streams[h.id := st.(block := st.block + fragment, ended := st.ended || ended)]);
    FinishSettles(grown.(continuation := None), env, h.id);
  }

  lemma DataOpensNone(s: Session, env: Env, h: FrameHeader, p: seq<Byte>)
    ensures OpensFirst(s, HandleData(s, env, h, p), h.id)
  {
    hide Unpad, Charge, EndStream, Dispatch;
    if h.id in s.streams && |p| <= s.streams[h.id].window && |p| <= s.window && Unpad(h, p, 0).Some? {
      var st := s.streams[h.id];
      var data := Unpad(h, p, 0).value;
      var connection, stream := Charge(s.window, |p|, s.config.window), Charge(st.window, |p|, s.config.window);
      var next := st.(window := stream.0, body := st.body + data, ended := EndStream(h));
      DispatchOpensNone(s.(window := connection.0, streams := s.streams[h.id := next]), env, h.id);
    }
  }

  lemma HeadersOpensFirst(s: Session, env: Env, h: FrameHeader, p: seq<Byte>)
    ensures OpensFirst(s, HandleHeaders(s, env, h, p), h.id)
  {
    hide AddFragment, EndStream, Unpad, Priority;
    var r := HandleHeaders(s, env, h, p);
    if r.events != [] {
      match Unpad(h, p, if Priority(h) then 5 else 0)
      case None =>
      case Some(fragment) =>
        FragmentOpensNone(Opened(s, h.id), env, h, fragment, EndStream(h));
        assert r.events[1..] == AddFragment(Opened(s, h.id), env, h, fragment, EndStream(h)).events;
    }
  }

  lemma FrameOpensFirst(s: Session, env: Env, h: FrameHeader, p: seq<Byte>)
    ensures OpensFirst(s, Handle(s, env, h, p), h.id)
  {
    hide HandleSettings, HandleHeaders, AddFragment, HandleData, HandleWindowUpdate, HandleOther, Ack, Counts, Gone;
    if h.kind == SETTINGS {
      SettingsPasses(s, env, h, p);
    } else if h.kind == HEADERS {
      HeadersOpensFirst(s, env, h, p);
    } else if h.kind == CONTINUATION {
      if h.id in s.streams {
        FragmentOpensNone(s, env, h, p, false);
      }
    } else if h.kind == DATA {
      DataOpensNone(s, env, h, p);
    } else {
      OtherPasses(s, env, h, p);
    }
  }

  lemma FrameHighest(s: Session, log: Log, w: World, h: FrameHeader, p: seq<Byte>)
    requires s.lastId == Highest(log)
    ensures var r := Handle(s, w.env, h, p);
            r.s.lastId == Highest(log + ([Took(h, p)] + r.events)) && r.s.config == s.config
  {
    hide Handle, Highest, OpenIds, Queries, Dispatches, PeerOf, Heard;
    var r := Handle(s, w.env, h, p);
    var taken := log + [Took(h, p)];
    FrameOpensFirst(s, w.env, h, p);
    SettingsTook(log, h, p, w);
    Assoc(log, [Took(h, p)], r.events);
    if OpensNone(r.events) {
      HighestAppend(taken, r.events);
    } else {
      OpenedTally(log, h, p, w);
      HighestAppend(taken + [OpenedStream(h.id)], r.events[1..]);
      assert taken + [OpenedStream(h.id)] + r.events[1..] == taken + r.events;
    }
  }

  // ---- and goes on reading until GOAWAY ----

  lemma FragmentState(s: Session, env: Env, h: FrameHeader, fragment: seq<Byte>, ended: bool)
    requires h.id in s.streams
    ensures AddFragment(s, env, h, fragment, ended).s.state == s.state
  {
    hide DecodeBlock, Assemble, EndHeaders;
  }

  lemma DataState(s: Session, env: Env, h: FrameHeader, p: seq<Byte>)
    ensures HandleData(s, env, h, p).s.state == s.state
  {
    hide Unpad, Charge, EndStream;
  }

  /** A frame that does not end the connection leaves it open, and only GOAWAY is the last to be read. */
  lemma FrameState(s: Session, env: Env, h: FrameHeader, p: seq<Byte>)
    requires s.state == Connected && Handle(s, env, h, p).status != ProtocolError
    ensures Handle(s, env, h, p).s.state == if h.kind == GOAWAY then Closing else Connected
  {
    hide AddFragment, HandleData, Ack, ReadSettings, Unpad, Priority, EndStream, ReadIncrement;
    if h.kind == HEADERS {
      match Unpad(h, p, if Priority(h) then 5 else 0)
      case None =>
      case Some(fragment) => FragmentState(Opened(s, h.id), env, h, fragment, EndStream(h));
    } else if h.kind == CONTINUATION && h.id in s.streams {
      FragmentState(s, env, h, p, false);
    } else if h.kind == DATA {
      DataState(s, env, h, p);
    }
  }
}

/** The receiving half of an HTTP/2 connection: http2_stream.cpp H2Session. A session consumes a buffer
    of octets (kept beside it) frame by frame; what it does to the outside (frames sent, calls on the outbound scheduler,
    requests dispatched) is a list of events. Answers of the executor and of the scheduler are inputs. */
module H2Inbound {
  import opened Bytes
  import opened Frames
  import opened Protocol
  import opened Hpack

  datatype Config = Config(maxStreams: nat, window: nat, maxFrame: nat, maxBody: nat, maxBuffer: nat)

  datatype ConnectionState = ExpectPreface | Connected | Closing | Closed

  /** The peer's settings. The first three are passed on to the outbound scheduler; nothing reads the
      others again (the list size is announced once, before any setting arrives). */
  datatype Peer = Peer(tableSize: nat, initialWindow: nat, maxFrame: nat, maxStreams: nat, listSize: nat)

  datatype Request = Request(
    id: nat, methodText: seq<Byte>, target: seq<Byte>, path: seq<Byte>, query: seq<Byte>,
    headers: seq<Entry>, body: seq<Byte>)

  /** H2Stream. A stream is erased as soon as it is closed or dispatched, so neither is recorded. */
  datatype Inflow = Inflow(
    window: nat, block: seq<Byte>, body: seq<Byte>, ended: bool, complete: bool, request: Option<Request>)

  /** The environment: the k-th dispatch answer and the k-th answer of the outbound scheduler. */
  datatype Env = Env(dispatch: nat -> Answer, outbound: nat -> bool)

  datatype Session = Session(
    config: Config, state: ConnectionState, lastId: nat, decoder: Codec, window: nat,
    gotSettings: bool, continuation: Option<nat>, streams: map<nat, Inflow>, peer: Peer,
    dispatches: nat, queries: nat)

  function Fresh(config: Config, decoder: Codec): Session {
    Session(config, ExpectPreface, 0, decoder, config.window, false, None, map[],
            Peer(4096, 65535, 16384, 100, decoder.maxList), 0, 0)
  }

  const PROTOCOL_ERROR := 1
  const COMPRESSION_ERROR := 9
  const ENHANCE_YOUR_CALM := 11

  datatype Event =
    | SentSettings
    | SentAck
    | SentPong(opaqueData: seq<Byte>)
    | SentReset(id: nat, code: nat)
    | SentGoaway(last: nat, code: nat)
    | Granted(id: nat, increment: nat)                        // WINDOW_UPDATE sent; id 0 is the connection
    | Took(header: FrameHeader, payload: seq<Byte>)           // a whole frame left the buffer
    | OpenedStream(id: nat)                                   // HEADERS opened a stream
    | AcceptedData(id: nat, flow: nat, data: seq<Byte>)       // DATA within credit; `data` is unpadded
    | Dispatched(request: Request, answer: Answer)
    | ClosedStream(id: nat)
    | PeerSettings(peer: Peer)
    | PeerConnectionCredit(increment: nat)
    | PeerStreamCredit(id: nat, increment: nat)
    | ClosedOutbound

  /** What handling one frame does. */
  datatype Step = Step(s: Session, status: Status, events: seq<Event>)

  /** No handler touches the configuration, and none closes the connection by itself. */
  predicate Kept(s: Session, t: Session) {
    t.config == s.config && (t.state == s.state || t.state == Closing)
  }

  // ---- flags ----

  predicate EndStream(h: FrameHeader) { h.flags % 2 == 1 }
  predicate Ack(h: FrameHeader) { h.flags % 2 == 1 }
  predicate EndHeaders(h: FrameHeader) { h.flags / 4 % 2 == 1 }
  predicate Padded(h: FrameHeader) { h.flags / 8 % 2 == 1 }
  predicate Priority(h: FrameHeader) { h.flags / 32 % 2 == 1 }

  const DATA: Byte := 0
  const HEADERS: Byte := 1
  const PRIORITY: Byte := 2
  const RST_STREAM: Byte := 3
  const SETTINGS: Byte := 4
  const PUSH_PROMISE: Byte := 5
  const PING: Byte := 6
  const GOAWAY: Byte := 7
  const WINDOW_UPDATE: Byte := 8
  const CONTINUATION: Byte := 9

  /** The octets between optional padding length, optional priority fields and padding. */
  function Unpad(h: FrameHeader, p: seq<Byte>, skip: nat): (r: Option<seq<Byte>>)
    ensures r.Some? ==> |r.value| <= |p|
  {
    if Padded(h) && p == [] then None
    else
      var pad := if Padded(h) then p[0] else 0;
      var from := (if Padded(h) then 1 else 0) + skip;
      if from > |p| || pad > |p| - from then None else Some(p[from..|p| - pad])
  }

  // ---- requests ----

  datatype Partial = Partial(
    methodText: Option<seq<Byte>>, target: Option<seq<Byte>>, headers: seq<Entry>, regular: bool)

  const METHOD: seq<Byte> := Ascii(":method")
  const PATH: seq<Byte> := Ascii(":path")
  const AUTHORITY: seq<Byte> := Ascii(":authority")
  const SCHEME: seq<Byte> := Ascii(":scheme")
  const HOST: seq<Byte> := Ascii("host")
  const METHODS: seq<seq<Byte>> :=
    [Ascii("GET"), Ascii("POST"), Ascii("PUT"), Ascii("DELETE"), Ascii("PATCH"), Ascii("HEAD"), Ascii("OPTIONS")]

  predicate HasUpperCase(name: seq<Byte>) {
    exists i :: 0 <= i < |name| && 65 <= name[i] <= 90
  }

  function FindByte(s: seq<Byte>, b: Byte): (r: nat)
    ensures r <= |s| && (r < |s| ==> s[r] == b)
    ensures forall i :: 0 <= i < r ==> s[i] != b
  {
    if s == [] || s[0] == b then 0 else 1 + FindByte(s[1..], b)
  }

  /** One decoded header: pseudo headers first, each of method and path at most once. */
  function AddHeader(acc: Partial, e: Entry): Option<Partial> {
    if e.name == [] then None
    else
      var pseudo := e.name[0] == 58;
      if pseudo && acc.regular then None
      else
        var next := acc.(regular := acc.regular || !pseudo);
        if e.name == METHOD then
          if acc.methodText.Some? then None else Some(next.(methodText := Some(e.value)))
        else if e.name == PATH then
          if acc.target.Some? then None else Some(next.(target := Some(e.value)))
        else if e.name == AUTHORITY then
          Some(next.(headers := next.headers + [Entry(HOST, e.value)]))
        else if e.name == SCHEME then Some(next)
        else if pseudo || HasUpperCase(e.name) then None
        else Some(next.(headers := next.headers + [e]))
  }

  function AddHeaders(acc: Partial, list: seq<Entry>): Option<Partial>
    decreases |list|
  {
    if list == [] then Some(acc)
    else
      match AddHeader(acc, list[0])
      case None => None
      case Some(next) => AddHeaders(next, list[1..])
  }

  datatype Built = Malformed | Unusable | Usable(request: Request)

  /** The request assembled from a decoded header list; the body comes later. */
  function Assemble(id: nat, list: seq<Entry>): (r: Built)
    ensures r.Usable? ==> r.request.id == id && r.request.body == []
  {
    match AddHeaders(Partial(None, None, [], false), list)
    case None => Malformed
    case Some(p) =>
      if p.methodText.None? || p.target.None? || p.methodText.value !in METHODS then Unusable
      else
        var target := p.target.value;
        var q := FindByte(target, 63);
        Usable(Request(id, p.methodText.value, target, target[..q],
                       if q < |target| then target[q + 1..] else [], p.headers, []))
  }

  // ---- stream table ----

  function Close(s: Session, id: nat): Session {
    s.(streams := s.streams - {id})
  }

  /** DispatchRequest. */
  function Dispatch(s: Session, env: Env, id: nat): (r: Step)
    ensures Kept(s, r.s)
  {
    if id !in s.streams then Step(s, ProtocolError, [])
    else
      var st := s.streams[id];
      if !st.complete || !st.ended || st.request.None? then Step(s, ProtocolError, [])
      else
        var answer := env.dispatch(s.dispatches);
        var sent := Dispatched(st.request.value.(body := st.body), answer);
        var gone := Close(s, id).(dispatches := s.dispatches + 1);
        match answer
        case Accepted => Step(gone, Ready, [sent])
        case Saturated => Step(gone, ExecutorSaturated, [sent, ClosedStream(id)])
        case Stopped => Step(gone, ExecutorStopped, [sent, ClosedStream(id)])
  }

  // ---- frame handlers ----

  function SettingName(p: seq<Byte>, i: nat): int
    requires 6 * i + 6 <= |p|
  {
    U32(0, 0, p[6 * i], p[6 * i + 1])
  }

  function SettingValue(p: seq<Byte>, i: nat): nat
    requires 6 * i + 6 <= |p|
  {
    U32(p[6 * i + 2], p[6 * i + 3], p[6 * i + 4], p[6 * i + 5])
  }

  predicate Refused(name: int, value: nat) {
    (name == 4 && value > 0x7fffffff) || (name == 5 && !(16384 <= value <= 16777215))
  }

  function Stored(peer: Peer, name: int, value: nat): Peer {
    if name == 1 then peer.(tableSize := value)
    else if name == 3 then peer.(maxStreams := value)
    else if name == 4 then peer.(initialWindow := value)
    else if name == 5 then peer.(maxFrame := value)
    else if name == 6 then peer.(listSize := value)
    else peer
  }

  /** The settings in order, up to the first one refused. */
  function ReadSettings(p: seq<Byte>, peer: Peer): (r: (Peer, bool)) {
    if |p| < 6 then (peer, true)
    else if Refused(SettingName(p, 0), SettingValue(p, 0)) then (peer, false)
    else ReadSettings(p[6..], Stored(peer, SettingName(p, 0), SettingValue(p, 0)))
  }

  function HandleSettings(s: Session, env: Env, h: FrameHeader, p: seq<Byte>): (r: Step)
    ensures Kept(s, r.s)
  {
    if h.id != 0 then Step(s, ProtocolError, [])
    else if Ack(h) then Step(s, if p == [] then Ready else ProtocolError, [])
    else if |p| % 6 != 0 then Step(s, ProtocolError, [])
    else
      var read := ReadSettings(p, s.peer);
      var got := s.(gotSettings := true, peer := read.0);
      if !read.1 then Step(got, ProtocolError, [])
      else
        var next := got.(queries := s.queries + 1);
        if env.outbound(s.queries) then Step(next, Ready, [PeerSettings(read.0), SentAck])
        else Step(next, ProtocolError, [PeerSettings(read.0)])
  }

  /** The end of a header block: decompress, assemble, and dispatch if the stream has ended too. */
  ghost function FinishHeaders(s: Session, env: Env, id: nat): (r: Step)
    requires id in s.streams
    ensures Kept(s, r.s)
  {
    var st := s.streams[id];
    var out := DecodeBlock(s.decoder, st.block);
    var next := s.(decoder := out.codec);
    if !out.ok then Step(Close(next, id), Ready, [SentReset(id, COMPRESSION_ERROR), ClosedStream(id)])
    else
      match Assemble(id, out.headers)
      case Malformed => Step(next, ProtocolError, [])
      case Unusable => Step(Close(next, id), ProtocolError, [ClosedStream(id)])
      case Usable(request) =>
        var ready := next.(streams := s.streams[id := st.(request := Some(request), complete := true)]);
        if st.ended then Dispatch(ready, env, id) else Step(ready, Ready, [])
  }

  /** Appends one fragment to an open header block. */
  ghost function AddFragment(s: Session, env: Env, h: FrameHeader, fragment: seq<Byte>, ended: bool): (r: Step)
    requires h.id in s.streams
    ensures Kept(s, r.s)
  {
    var st := s.streams[h.id];
    var grown := s.(streams := s.streams[h.id := st.(block := st.block + fragment, ended := st.ended || ended)]);
    if !EndHeaders(h) then Step(grown.(continuation := Some(h.id)), Ready, [])
    else if st.complete then Step(grown.(continuation := None), ProtocolError, [])
    else FinishHeaders(grown.(continuation := None), env, h.id)
  }

  ghost function HandleContinuation(s: Session, env: Env, h: FrameHeader, p: seq<Byte>): (r: Step)
    ensures Kept(s, r.s)
  {
    if s.continuation != Some(h.id) || h.id !in s.streams then Step(s, ProtocolError, [])
    else AddFragment(s, env, h, p, false)
  }

  ghost function HandleHeaders(s: Session, env: Env, h: FrameHeader, p: seq<Byte>): (r: Step)
    ensures Kept(s, r.s)
  {
    if h.id % 2 != 1 || h.id <= s.lastId || h.id in s.streams || |s.streams| >= s.config.maxStreams
    then Step(s, ProtocolError, [])
    else
      var made := s.(streams := s.streams[h.id := Inflow(s.config.window, [], [], false, false, None)], lastId := h.id);
      match Unpad(h, p, if Priority(h) then 5 else 0)
      case None => Step(made, ProtocolError, [OpenedStream(h.id)])
      case Some(fragment) =>
        var r := AddFragment(made, env, h, fragment, EndStream(h));
        r.(events := [OpenedStream(h.id)] + r.events)
  }

  /** The credit check and its consequences for a DATA frame on an open stream. */
  function HandleData(s: Session, env: Env, h: FrameHeader, p: seq<Byte>): (r: Step)
    ensures Kept(s, r.s)
  {
    if h.id == 0 || h.id !in s.streams then Step(s, ProtocolError, [])
    else
      var st := s.streams[h.id];
      if !st.complete || st.ended then Step(s, ProtocolError, [])
      else
        match Unpad(h, p, 0)
        case None => Step(s, ProtocolError, [])
        case Some(data) =>
          if |p| > st.window || |p| > s.window then Step(Close(s, h.id), ProtocolError, [ClosedStream(h.id)])
          else if |data| > s.config.maxBody || |st.body| > s.config.maxBody - |data|
          then Step(Close(s, h.id), BufferLimit, [ClosedStream(h.id)])
          else TakeData(s, env, h, |p|, data)
  }

  /** Charges accepted DATA to both windows and tops up whichever fell below half. */
  function TakeData(s: Session, env: Env, h: FrameHeader, flow: nat, data: seq<Byte>): (r: Step)
    requires h.id in s.streams && flow <= s.streams[h.id].window && flow <= s.window
    ensures Kept(s, r.s)
  {
    var st := s.streams[h.id];
    var connection := Charge(s.window, flow, s.config.window);
    var stream := Charge(st.window, flow, s.config.window);
    var next := st.(window := stream.0, body := st.body + data, ended := EndStream(h));
    var done := s.(window := connection.0, streams := s.streams[h.id := next]);
    var events := [AcceptedData(h.id, flow, data)] + Grant(0, connection.1) + Grant(h.id, stream.1);
    if EndStream(h) then
      var r := Dispatch(done, env, h.id);
      r.(events := events + r.events)
    else Step(done, Ready, events)
  }

  /** The window after a charge and the increment sent to restore it (zero for none). */
  function Charge(window: nat, flow: nat, initial: nat): (r: (nat, nat))
    requires flow <= window
    ensures r.0 == window - flow + r.1
    ensures window <= initial ==> initial / 2 <= r.0 <= initial
  {
    var left := window - flow;
    if left < initial / 2 then (initial, initial - left) else (left, 0)
  }

  function Grant(id: nat, increment: nat): seq<Event> {
    if increment == 0 then [] else [Granted(id, increment)]
  }

  function HandleWindowUpdate(s: Session, env: Env, h: FrameHeader, p: seq<Byte>): (r: Step)
    ensures Kept(s, r.s)
  {
    if |p| != 4 || ReadIncrement(p) == 0 then Step(s, ProtocolError, [])
    else
      var increment := ReadIncrement(p);
      var ok := env.outbound(s.queries);
      var next := s.(queries := s.queries + 1);
      var told := if h.id == 0 then PeerConnectionCredit(increment) else PeerStreamCredit(h.id, increment);
      Step(next, if ok || (h.id != 0 && h.id <= s.lastId) then Ready else ProtocolError, [told])
  }

  function HandleOther(s: Session, h: FrameHeader, p: seq<Byte>): (r: Step)
    ensures Kept(s, r.s)
  {
    if h.kind == RST_STREAM then
      if h.id == 0 || |p| != 4 then Step(s, ProtocolError, []) else Step(Close(s, h.id), Ready, [ClosedStream(h.id)])
    else if h.kind == PING then
      if h.id != 0 || |p| != 8 then Step(s, ProtocolError, [])
      else Step(s, Ready, if Ack(h) then [] else [SentPong(p)])
    else if h.kind == GOAWAY then
      if h.id != 0 || |p| < 8 then Step(s, ProtocolError, []) else Step(s.(state := Closing), Ready, [])
    else if h.kind == PRIORITY then
      Step(s, if h.id == 0 || |p| != 5 then ProtocolError else Ready, [])
    else if h.kind == PUSH_PROMISE then Step(s, ProtocolError, [])
    else Step(s, Ready, [])
  }

  /** ConsumeFrame after the frame is off the buffer: the two ordering rules, then the handler. */
  ghost function Handle(s: Session, env: Env, h: FrameHeader, p: seq<Byte>): (r: Step)
    ensures Kept(s, r.s)
  {
    if !s.gotSettings && (h.kind != SETTINGS || Ack(h)) then Step(s.(state := Closing), ProtocolError, [])
    else if s.continuation.Some? && (h.kind != CONTINUATION || h.id != s.continuation.value)
    then Step(s.(state := Closing), ProtocolError, [])
    else if h.kind == SETTINGS then HandleSettings(s, env, h, p)
    else if (h.kind == HEADERS || h.kind == CONTINUATION) && h.id == 0 then Step(s, ProtocolError, [])
    else if h.kind == HEADERS then HandleHeaders(s, env, h, p)
    else if h.kind == CONTINUATION then HandleContinuation(s, env, h, p)
    else if h.kind == DATA then HandleData(s, env, h, p)
    else if h.kind == WINDOW_UPDATE then HandleWindowUpdate(s, env, h, p)
    else HandleOther(s, h, p)
  }

  // ---- the feed loop ----

  function Preface(): (r: seq<Byte>)
    ensures |r| == 24
  {
    Ascii("PRI * HTTP/2.0\r\n\r\nSM\r\n\r\n")
  }

  /** FailConnection; the unread octets are dropped too. */
  function Fail(s: Session, code: nat): (Session, seq<Event>) {
    (s.(state := Closed, streams := map[], continuation := None),
     (if s.state == Connected || s.state == Closing then [SentGoaway(s.lastId, code)] else []) + [ClosedOutbound])
  }

  /** One turn of the loop: wait for more octets, or use some and go on, or stop with a status. */
  datatype Turn =
    | Wait
    | Go(s: Session, used: nat, events: seq<Event>)
    | Stop(s: Session, used: nat, status: Status, events: seq<Event>)

  function PrefaceTurn(s: Session, buffer: seq<Byte>, preface: seq<Byte>): (r: Turn)
    ensures r.Go? ==> r.used == |preface| <= |buffer|
    ensures r.Stop? ==> r.used == 0
  {
    var n := Min(|buffer|, |preface|);
    if buffer[..n] != preface[..n] then
      var f := Fail(s.(state := Closing), PROTOCOL_ERROR);
      Stop(f.0, 0, CloseRequired, f.1)
    else if |buffer| < |preface| then Wait
    else Go(s.(state := Connected), |preface|, [SentSettings])
  }

  ghost function FrameTurn(s: Session, env: Env, buffer: seq<Byte>): (r: Turn)
    ensures r.Go? ==> 0 < r.used <= |buffer|
    ensures r.Stop? ==> r.used <= |buffer|
  {
    if |buffer| < HEADER_SIZE then Wait
    else
      var h := DecodeHeader(buffer);
      var total := HEADER_SIZE + h.length;
      if h.length > s.config.maxFrame then
        var f := Fail(s.(state := Closing), PROTOCOL_ERROR);
        Stop(f.0, 0, CloseRequired, f.1)
      else if |buffer| < total then Wait
      else
        var p := buffer[HEADER_SIZE..total];
        var r := Handle(s, env, h, p);
        var events := [Took(h, p)] + r.events;
        if r.status == Ready then Go(r.s, total, events)
        else if r.status == ProtocolError then
          var f := Fail(r.s, PROTOCOL_ERROR);
          Stop(f.0, total, CloseRequired, events + f.1)
        else Stop(r.s, total, r.status, events)
  }

  ghost function TurnOf(s: Session, env: Env, buffer: seq<Byte>): (r: Turn)
    requires Reading(s)
    ensures r.Go? ==> 0 < r.used <= |buffer|
    ensures r.Stop? ==> r.used <= |buffer|
  {
    if s.state == ExpectPreface then PrefaceTurn(s, buffer, Preface()) else FrameTurn(s, env, buffer)
  }

  predicate Reading(s: Session) {
    s.state == ExpectPreface || s.state == Connected
  }

  /** A session, its unread octets, the status to report and what happened on the way. */
  datatype Drained = Drained(s: Session, buffer: seq<Byte>, status: Status, events: seq<Event>)

  /** The loop of Feed: turns until there is nothing to read, too little to read, or a reason to stop. */
  ghost function Drain(s: Session, env: Env, buffer: seq<Byte>): (r: Drained)
    decreases |buffer|
  {
    if buffer == [] || !Reading(s) then Drained(s, buffer, Ready, [])
    else
      match TurnOf(s, env, buffer)
      case Wait => Drained(s, buffer, Ready, [])
      case Stop(t, used, status, events) =>
        Drained(t, if t.state == Closed then [] else buffer[used..], status, events)
      case Go(t, used, events) =>
        var rest := Drain(t, env, buffer[used..]);
        rest.(events := events + rest.events)
  }

  /** H2Session::Feed. */
  ghost function Feed(s: Session, env: Env, buffer: seq<Byte>, bytes: seq<Byte>): Drained {
    if s.state == Closed then Drained(s, buffer, FeedStopped, [])
    else if |buffer| + |bytes| > s.config.maxBuffer then
      var f := Fail(s, ENHANCE_YOUR_CALM);
      Drained(f.0, [], CloseRequired, f.1)
    else Drain(s, env, buffer + bytes)
  }

  /** Feeding a stream in pieces, up to the first result that is not Ready. */
  ghost function FeedAll(s: Session, env: Env, buffer: seq<Byte>, pieces: seq<seq<Byte>>): (r: Drained)
    decreases |pieces|
  {
    if pieces == [] then Drained(s, buffer, Ready, [])
    else
      var first := Feed(s, env, buffer, pieces[0]);
      if first.status != Ready then first
      else
        var rest := FeedAll(first.s, env, first.buffer, pieces[1..]);
        rest.(events := first.events + rest.events)
  }

  /** No piece overflows the receive buffer, as long as feeding goes on. */
  ghost predicate NeverOverflows(s: Session, env: Env, buffer: seq<Byte>, pieces: seq<seq<Byte>>)
    decreases |pieces|
  {
    pieces == [] ||
    (|buffer| + |pieces[0]| <= s.config.maxBuffer &&
     var first := Feed(s, env, buffer, pieces[0]);
     first.status == Ready ==> NeverOverflows(first.s, env, first.buffer, pieces[1..]))
  }

  // ---- what settings mean ----

  /** The value of the last setting of a name among the first `n`, if there is one. */
  function LastOf(p: seq<Byte>, name: int, n: nat, otherwise: nat): nat
    requires 6 * n <= |p|
  {
    if n == 0 then otherwise
    else if SettingName(p, n - 1) == name then SettingValue(p, n - 1)
    else LastOf(p, name, n - 1, otherwise)
  }

  lemma {:induction false} LastOfRest(p: seq<Byte>, name: int, n: nat, otherwise: nat)
    requires 6 * n + 6 <= |p|
    ensures LastOf(p, name, n + 1, otherwise) ==
            LastOf(p[6..], name, n, if SettingName(p, 0) == name then SettingValue(p, 0) else otherwise)
    decreases n
  {
    hide U32;
    if n > 0 {
      LastOfRest(p, name, n - 1, otherwise);
      var q := p[6..];
      assert forall k :: 0 <= k < |q| ==> q[k] == p[k + 6];
    }
  }

  /** A settings frame is refused exactly when one of its settings is; otherwise the last setting of each
      name counts, and a name that does not occur keeps its value. */
  lemma {:induction false} SettingsReadIff(p: seq<Byte>, peer: Peer)
    requires |p| % 6 == 0
    ensures var r := ReadSettings(p, peer);
            var n := |p| / 6;
            && (r.1 <==> forall i :: 0 <= i < n ==> !Refused(SettingName(p, i), SettingValue(p, i)))
            && (r.1 ==> r.0 == Peer(LastOf(p, 1, n, peer.tableSize), LastOf(p, 4, n, peer.initialWindow),
                                    LastOf(p, 5, n, peer.maxFrame), LastOf(p, 3, n, peer.maxStreams),
                                    LastOf(p, 6, n, peer.listSize)))
    decreases |p|
  {
    hide U32, Refused;
    var n := |p| / 6;
    if p != [] {
      var q := p[6..];
      var next := Stored(peer, SettingName(p, 0), SettingValue(p, 0));
      SettingsReadIff(q, next);
      assert |q| / 6 == n - 1;
      LastOfRest(p, 1, n - 1, peer.tableSize);
      LastOfRest(p, 3, n - 1, peer.maxStreams);
      LastOfRest(p, 4, n - 1, peer.initialWindow);
      LastOfRest(p, 5, n - 1, peer.maxFrame);
      LastOfRest(p, 6, n - 1, peer.listSize);
      RefusedRest(p, n);
    }
  }

  lemma RefusedRest(p: seq<Byte>, n: nat)
    requires n > 0 && 6 * n <= |p|
    ensures (forall i :: 0 <= i < n ==> !Refused(SettingName(p, i), SettingValue(p, i))) <==>
            && !Refused(SettingName(p, 0), SettingValue(p, 0))
            && forall i :: 0 <= i < n - 1 ==> !Refused(SettingName(p[6..], i), SettingValue(p[6..], i))
  {
    hide U32, Refused;
    var q := p[6..];
    forall i | 0 <= i < n - 1 ensures SettingName(q, i) == SettingName(p, i + 1) && SettingValue(q, i) == SettingValue(p, i + 1) {
      assert forall k :: 0 <= k < |q| ==> q[k] == p[k + 6];
    }
    forall i | 0 < i < n ensures SettingName(p, i) == SettingName(q, i - 1) && SettingValue(p, i) == SettingValue(q, i - 1) {
    }
  }

  // ---- the answer to one piece ----

  /** The requests dispatched and accepted by the executor. */
  function AcceptedIn(log: seq<Event>): nat {
    if log == [] then 0
    else
      var e := log[|log| - 1];
      AcceptedIn(log[..|log| - 1]) + if e.Dispatched? && e.answer == Accepted then 1 else 0
  }

  lemma {:induction false} AcceptedAppend(a: seq<Event>, b: seq<Event>)
    ensures AcceptedIn(a + b) == AcceptedIn(a) + AcceptedIn(b)
    decreases |b|
  {
    if b == [] {
      assert a + b == a;
    } else {
      assert (a + b)[..|a + b| - 1] == a + b[..|b| - 1];
      AcceptedAppend(a, b[..|b| - 1]);
    }
  }

  function Result(d: Drained): FeedResult {
    FeedResult(d.status, AcceptedIn(d.events), if d.status == FeedStopped then 0 else |d.buffer|)
  }

  // ---- independence of the splitting ----

  lemma PrefaceStable(s: Session, buffer: seq<Byte>, preface: seq<Byte>, more: seq<Byte>)
    ensures PrefaceTurn(s, buffer, preface) != Wait ==>
            PrefaceTurn(s, buffer + more, preface) == PrefaceTurn(s, buffer, preface)
  {
    var all := buffer + more;
    var n := Min(|buffer|, |preface|);
    var m := Min(|all|, |preface|);
    assert n <= m && all[..n] == buffer[..n];
    if all[..m] == preface[..m] {
      assert all[..m][..n] == all[..n] && preface[..m][..n] == preface[..n];
    }
    if |buffer| >= |preface| {
      assert m == n;
    }
  }

  lemma FrameStable(s: Session, env: Env, buffer: seq<Byte>, more: seq<Byte>)
    ensures FrameTurn(s, env, buffer) != Wait ==>
            FrameTurn(s, env, buffer + more) == FrameTurn(s, env, buffer)
  {
    hide Handle, Fail;
    if |buffer| >= HEADER_SIZE {
      HeaderStable(buffer, more);
      var total := HEADER_SIZE + DecodeHeader(buffer).length;
      if total <= |buffer| {
        assert (buffer + more)[HEADER_SIZE..total] == buffer[HEADER_SIZE..total];
      }
    }
  }

  lemma HeaderStable(buffer: seq<Byte>, more: seq<Byte>)
    requires |buffer| >= HEADER_SIZE
    ensures DecodeHeader(buffer + more) == DecodeHeader(buffer)
  {
  }

  /** Octets that arrive later do not change a turn that was already decided. */
  lemma TurnStable(s: Session, env: Env, buffer: seq<Byte>, more: seq<Byte>)
    requires Reading(s)
    ensures TurnOf(s, env, buffer) != Wait ==> TurnOf(s, env, buffer + more) == TurnOf(s, env, buffer)
  {
    hide PrefaceTurn, FrameTurn, Preface;
    PrefaceStable(s, buffer, Preface(), more);
    FrameStable(s, env, buffer, more);
  }

  /** Draining in two instalments is draining at once; and what stopped the first instalment stops
      the whole in the same way. */
  lemma {:induction false} DrainResumes(s: Session, env: Env, buffer: seq<Byte>, more: seq<Byte>)
    ensures var r := Drain(s, env, buffer);
            var all := Drain(s, env, buffer + more);
            if r.status == Ready then
              var rest := Drain(r.s, env, r.buffer + more);
              all == rest.(events := r.events + rest.events)
            else all.status == r.status && all.events == r.events && all.s == r.s
    decreases |buffer|
  {
    hide TurnOf;
    if buffer != [] && Reading(s) {
      TurnStable(s, env, buffer, more);
      match TurnOf(s, env, buffer)
      case Wait => NoEvents(Drain(s, env, buffer + more));
      case Stop(_, _, _, _) => StopsNotReady(s, env, buffer);
      case Go(t, used, events) =>
        assert (buffer + more)[used..] == buffer[used..] + more;
        DrainResumes(t, env, buffer[used..], more);
        var r := Drain(t, env, buffer[used..]);
        Assoc(events, r.events, Drain(r.s, env, r.buffer + more).events);
    } else {
      NoEvents(Drain(s, env, buffer + more));
    }
  }

  lemma NoEvents(d: Drained)
    ensures d.(events := [] + d.events) == d
  {
    assert [] + d.events == d.events;
  }

  /** Feeding in pieces does what draining the whole stream at once does. */
  lemma {:induction false} FeedAllIsDrain(s: Session, env: Env, buffer: seq<Byte>, pieces: seq<seq<Byte>>)
    requires s.state != Closed && NeverOverflows(s, env, buffer, pieces)
    requires Drain(s, env, buffer) == Drained(s, buffer, Ready, [])
    ensures var fed := FeedAll(s, env, buffer, pieces);
            var all := Drain(s, env, buffer + Flatten(pieces));
            && fed.status == all.status && fed.events == all.events
            && fed.s == all.s && (fed.status == Ready ==> fed.buffer == all.buffer)
    decreases |pieces|
  {
    hide TurnOf;
    if pieces == [] {
      assert buffer + Flatten(pieces) == buffer;
    } else {
      var first := Feed(s, env, buffer, pieces[0]);
      var rest := Flatten(pieces[1..]);
      assert buffer + Flatten(pieces) == (buffer + pieces[0]) + rest;
      DrainResumes(s, env, buffer + pieces[0], rest);
      if first.status == Ready {
        DrainSettles(s, env, buffer + pieces[0]);
        FeedAllIsDrain(first.s, env, first.buffer, pieces[1..]);
      }
    }
  }

  /** After a Ready result there is nothing left to do until more octets come. */
  lemma {:induction false} DrainSettles(s: Session, env: Env, buffer: seq<Byte>)
    requires s.state != Closed
    ensures var r := Drain(s, env, buffer);
            r.status == Ready ==> r.s.state != Closed && Drain(r.s, env, r.buffer) == Drained(r.s, r.buffer, Ready, [])
    decreases |buffer|
  {
    hide TurnOf;
    if buffer != [] && Reading(s) {
      match TurnOf(s, env, buffer)
      case Wait =>
      case Stop(_, _, _, _) => StopsNotReady(s, env, buffer);
      case Go(t, used, events) =>
        StopsNotReady(s, env, buffer);
        DrainSettles(t, env, buffer[used..]);
    }
  }

  lemma StopsNotReady(s: Session, env: Env, buffer: seq<Byte>)
    requires Reading(s)
    ensures TurnOf(s, env, buffer).Stop? ==> TurnOf(s, env, buffer).status != Ready
    ensures TurnOf(s, env, buffer).Go? ==> TurnOf(s, env, buffer).s.state != Closed
  {
    hide Preface, Handle, DecodeHeader;
  }

  /** Any two ways of cutting one octet stream into pieces, neither of which overflows the receive
      buffer, make the session do the same things in the same order: same frames handled, same requests
      dispatched, same status, and the same session afterwards. */
  lemma SplitIndependence(s: Session, env: Env, one: seq<seq<Byte>>, other: seq<seq<Byte>>)
    requires s.state != Closed && Flatten(one) == Flatten(other)
    requires NeverOverflows(s, env, [], one) && NeverOverflows(s, env, [], other)
    ensures var a, b := FeedAll(s, env, [], one), FeedAll(s, env, [], other);
            && a.events == b.events && a.status == b.status && a.s == b.s
            && (a.status == Ready ==> a.buffer == b.buffer)
  {
    hide FeedAll, TurnOf;
    FeedAllIsDrain(s, env, [], one);
    FeedAllIsDrain(s, env, [], other);
  }
}

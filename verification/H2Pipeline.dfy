/** Whole HTTP/2 requests: compressed, framed, interleaved on one connection and fed in any pieces, they are
    dispatched as they were meant. */
module H2Pipeline {
  import opened Bytes
  import opened Frames
  import opened Protocol
  import opened Hpack
  import opened H2Inbound
  import opened H2Recovery

  /** The head of a client's request. `fragments` is how its header block is cut into HEADERS and
      CONTINUATION frames. */
  datatype Call = Call(
    methodText: seq<Byte>, scheme: seq<Byte>, authority: seq<Byte>, path: seq<Byte>, headers: seq<Entry>,
    fragments: seq<seq<Byte>>)

  /** The list the client compresses. */
  function HeaderListOf(c: Call): seq<Entry> {
    [Entry(METHOD, c.methodText), Entry(SCHEME, c.scheme), Entry(AUTHORITY, c.authority), Entry(PATH, c.path)] + c.headers
  }

  /** A header of the request proper: a lower-case name that is no pseudo header. */
  predicate Regular(e: Entry) {
    e.name != [] && e.name[0] != 58 && !HasUpperCase(e.name)
  }

  predicate Canonical(c: Call) {
    c.methodText in METHODS && c.fragments != [] && forall i :: 0 <= i < |c.headers| ==> Regular(c.headers[i])
  }

  /** What the application gets. */
  function Meaning(c: Call, id: nat, body: seq<Byte>): Request {
    var q := FindByte(c.path, 63);
    Request(id, c.methodText, c.path, c.path[..q], if q < |c.path| then c.path[q + 1..] else [],
            [Entry(HOST, c.authority)] + c.headers, body)
  }

  // ---- the header list is read back ----

  lemma {:induction false} RegularRead(acc: Partial, hs: seq<Entry>)
    requires forall i :: 0 <= i < |hs| ==> Regular(hs[i])
    ensures AddHeaders(acc, hs) == Some(acc.(headers := acc.headers + hs, regular := acc.regular || hs != []))
    decreases |hs|
  {
    hide HasUpperCase, Ascii;
    if hs == [] {
      assert acc.headers + hs == acc.headers;
    } else {
      PseudoNames();
      assert Regular(hs[0]);
      var next := acc.(headers := acc.headers + [hs[0]], regular := true);
      assert AddHeader(acc, hs[0]) == Some(next);
      RegularRead(next, hs[1..]);
      assert acc.headers + [hs[0]] + hs[1..] == acc.headers + hs;
    }
  }

  lemma PseudoNames()
    ensures |METHOD| == 7 && |PATH| == 5 && |AUTHORITY| == 10 && |SCHEME| == 7
    ensures METHOD[0] == 58 && PATH[0] == 58 && AUTHORITY[0] == 58 && SCHEME[0] == 58 && METHOD[1] != SCHEME[1]
  {
  }

  lemma AddFour(c: Call, id: nat)
    ensures AddHeaders(Partial(None, None, [], false), HeaderListOf(c)) ==
            AddHeaders(Partial(Some(c.methodText), Some(c.path), [Entry(HOST, c.authority)], false), c.headers)
  {
    hide HasUpperCase, Ascii, AddHeaders;
    PseudoNames();
    var list := HeaderListOf(c);
    var p0 := Partial(None, None, [], false);
    var p1 := p0.(methodText := Some(c.methodText));
    var p3 := p1.(headers := [Entry(HOST, c.authority)]);
    var p4 := p3.(target := Some(c.path));
    assert list[0] == Entry(METHOD, c.methodText) && list[1] == Entry(SCHEME, c.scheme);
    assert list[2] == Entry(AUTHORITY, c.authority) && list[3] == Entry(PATH, c.path);
    assert [] + [Entry(HOST, c.authority)] == [Entry(HOST, c.authority)];
    assert AddHeader(p0, list[0]) == Some(p1) && AddHeader(p1, list[1]) == Some(p1);
    assert AddHeader(p1, list[2]) == Some(p3) && AddHeader(p3, list[3]) == Some(p4);
    AddNext(p0, p1, list, 0);
    AddNext(p1, p1, list, 1);
    AddNext(p1, p3, list, 2);
    AddNext(p3, p4, list, 3);
    assert list[0..] == list && list[4..] == c.headers;
  }

  lemma AddNext(acc: Partial, next: Partial, list: seq<Entry>, i: nat)
    requires i < |list| && AddHeader(acc, list[i]) == Some(next)
    ensures AddHeaders(acc, list[i..]) == AddHeaders(next, list[i + 1..])
  {
    hide AddHeader;
    assert list[i..][1..] == list[i + 1..];
  }

  /** Pseudo headers become the request line and Host; the rest stays as it is. */
  lemma RequestRead(c: Call, id: nat)
    requires Canonical(c)
    ensures Assemble(id, HeaderListOf(c)) == Usable(Meaning(c, id, []))
  {
    hide AddHeaders, Regular, FindByte, Ascii, HeaderListOf;
    AddFour(c, id);
    RegularRead(Partial(Some(c.methodText), Some(c.path), [Entry(HOST, c.authority)], false), c.headers);
  }

  // ---- frames ----

  /** Padding of a frame, if it has any: fewer than 256 octets of any kind (section 6.1 of RFC 9113). */
  type Padding = Option<seq<Byte>>

  predicate Short(pad: Padding) {
    pad.Some? ==> |pad.value| < 256
  }

  function Pad(pad: Padding, inner: seq<Byte>): seq<Byte>
    requires Short(pad)
  {
    if pad.None? then inner else [|pad.value|] + inner + pad.value
  }

  function Flags(endStream: bool, endHeaders: bool, padded: bool, priority: bool): Byte {
    (if endStream then 1 else 0) + (if endHeaders then 4 else 0) + (if padded then 8 else 0) + (if priority then 32 else 0)
  }

  /** HEADERS with the first fragment, between optional priority fields and padding. */
  function FirstFrame(fragments: seq<seq<Byte>>, id: nat, end: bool, pad: Padding, priority: seq<Byte>): Frame
    requires fragments != [] && Short(pad)
  {
    var payload := Pad(pad, priority + fragments[0]);
    Frame(FrameHeader(|payload|, HEADERS, Flags(end, |fragments| == 1, pad.Some?, priority != []), id), payload)
  }

  /** The other fragments. */
  function RestFrames(fragments: seq<seq<Byte>>, id: nat): seq<Frame>
    decreases |fragments|
  {
    if fragments == [] then []
    else
      var flags := Flags(false, |fragments| == 1, false, false);
      [Frame(FrameHeader(|fragments[0]|, CONTINUATION, flags, id), fragments[0])] + RestFrames(fragments[1..], id)
  }

  function PieceFrame(id: nat, data: seq<Byte>, pad: Padding, last: bool): Frame
    requires Short(pad)
  {
    var payload := Pad(pad, data);
    Frame(FrameHeader(|payload|, DATA, Flags(last, false, pad.Some?, false), id), payload)
  }

  // ---- handling frames that are all accepted ----

  /** What handling some frames one after another leaves, if each is answered Ready. */
  ghost function Fold(s: Session, env: Env, frames: seq<Frame>): Option<(Session, seq<Event>)>
    decreases |frames|
  {
    if frames == [] then Some((s, []))
    else if s.state != Connected then None
    else
      var r := Handle(s, env, frames[0].header, frames[0].payload);
      if r.status != Ready then None
      else
        match Fold(r.s, env, frames[1..])
        case None => None
        case Some(rest) => Some((rest.0, [Took(frames[0].header, frames[0].payload)] + r.events + rest.1))
  }

  lemma {:induction false} FoldIsHandleAll(s: Session, env: Env, frames: seq<Frame>)
    requires Fold(s, env, frames).Some? && s.state == Connected
    ensures var r := Fold(s, env, frames).value; HandleAll(s, env, frames) == Drained(r.0, [], Ready, r.1)
    decreases |frames|
  {
    hide Handle;
    if frames != [] {
      var r := Handle(s, env, frames[0].header, frames[0].payload);
      if frames[1..] == [] {
      } else {
        FoldIsHandleAll(r.s, env, frames[1..]);
      }
    }
  }

  lemma {:induction false} FoldAppend(s: Session, env: Env, a: seq<Frame>, b: seq<Frame>)
    requires Fold(s, env, a).Some? && Fold(Fold(s, env, a).value.0, env, b).Some?
    ensures var x := Fold(s, env, a).value; var y := Fold(x.0, env, b).value;
            Fold(s, env, a + b) == Some((y.0, x.1 + y.1))
    decreases |a|
  {
    hide Handle;
    if a == [] {
      assert a + b == b;
      assert [] + Fold(s, env, b).value.1 == Fold(s, env, b).value.1;
    } else {
      var r := Handle(s, env, a[0].header, a[0].payload);
      assert (a + b)[1..] == a[1..] + b && (a + b)[0] == a[0];
      FoldAppend(r.s, env, a[1..], b);
      var x := Fold(r.s, env, a[1..]).value;
      Assoc([Took(a[0].header, a[0].payload)] + r.events, x.1, Fold(x.0, env, b).value.1);
    }
  }

  /** The requests dispatched, in order. */
  function Requests(events: seq<Event>): seq<Request> {
    if events == [] then [] else (if events[0].Dispatched? then [events[0].request] else []) + Requests(events[1..])
  }

  lemma {:induction false} RequestsAppend(a: seq<Event>, b: seq<Event>)
    ensures Requests(a + b) == Requests(a) + Requests(b)
  {
    if a == [] {
      assert a + b == b;
    } else {
      assert (a + b)[1..] == a[1..] + b && (a + b)[0] == a[0];
      RequestsAppend(a[1..], b);
      Assoc(if a[0].Dispatched? then [a[0].request] else [], Requests(a[1..]), Requests(b));
    }
  }

  lemma RequestsTook(h: FrameHeader, p: seq<Byte>, events: seq<Event>)
    ensures Requests([Took(h, p)] + events) == Requests(events)
  {
    RequestsAppend([Took(h, p)], events);
    var one: seq<Event> := [Took(h, p)];
    assert one[1..] == [];
  }

  /** One more accepted frame in front. */
  lemma FoldFirst(s: Session, env: Env, f: Frame, rest: seq<Frame>)
    requires s.state == Connected
    requires var r := Handle(s, env, f.header, f.payload); r.status == Ready && Fold(r.s, env, rest).Some?
    ensures var r := Handle(s, env, f.header, f.payload);
            var x := Fold(r.s, env, rest).value;
            && Fold(s, env, [f] + rest).Some? && Fold(s, env, [f] + rest).value.0 == x.0
            && Requests(Fold(s, env, [f] + rest).value.1) == Requests(r.events) + Requests(x.1)
  {
    hide Handle, Requests;
    assert ([f] + rest)[1..] == rest;
    var r := Handle(s, env, f.header, f.payload);
    var x := Fold(r.s, env, rest).value;
    RequestsTook(f.header, f.payload, r.events);
    RequestsAppend([Took(f.header, f.payload)] + r.events, x.1);
  }

  // ---- header blocks ----

  /** The executor takes everything. */
  ghost predicate Willing(env: Env) {
    forall k :: env.dispatch(k) == Accepted
  }

  /** The connection is up and no header block is open. */
  predicate Settled(s: Session) {
    s.state == Connected && s.gotSettings && s.continuation == None
  }

  /** A further stream whose header block is still arriving. */
  function InBlock(s: Session, id: nat, block: seq<Byte>, ended: bool, open: Option<nat>): Session {
    s.(streams := s.streams[id := Inflow(s.config.window, block, [], ended, false, None)], lastId := id, continuation := open)
  }

  lemma FlagsRead(h: FrameHeader, endStream: bool, endHeaders: bool, padded: bool, priority: bool)
    requires h.flags == Flags(endStream, endHeaders, padded, priority)
    ensures EndStream(h) == endStream && EndHeaders(h) == endHeaders && Padded(h) == padded && Priority(h) == priority
  {
  }

  /** What was put between priority fields and padding is what is taken out. */
  lemma Unpadded(h: FrameHeader, pad: Padding, priority: seq<Byte>, data: seq<Byte>)
    requires Short(pad) && Padded(h) == pad.Some?
    ensures Unpad(h, Pad(pad, priority + data), |priority|) == Some(data)
  {
    hide Padded;
    var p := Pad(pad, priority + data);
    match pad {
      case None => assert p[|priority|..|p| - 0] == data;
      case Some(z) => assert p[1 + |priority|..|p| - |z|] == data;
    }
  }

  /** HEADERS opens the stream. */
  lemma FirstFragment(s: Session, env: Env, h: FrameHeader, p: seq<Byte>, fragment: seq<Byte>)
    requires Settled(s) && h.kind == HEADERS && Unpad(h, p, if Priority(h) then 5 else 0) == Some(fragment)
    requires h.id % 2 == 1 && h.id > s.lastId && h.id !in s.streams && |s.streams| < s.config.maxStreams
    ensures var r := Handle(s, env, h, p);
            if EndHeaders(h) then
              var f := FinishHeaders(InBlock(s, h.id, fragment, EndStream(h), None), env, h.id);
              r == f.(events := [OpenedStream(h.id)] + f.events)
            else r == Step(InBlock(s, h.id, fragment, EndStream(h), Some(h.id)), Ready, [OpenedStream(h.id)])
  {
    hide Unpad, Padded, Priority, EndHeaders, EndStream, FinishHeaders;
    assert [] + fragment == fragment;
    var made := s.(streams := s.streams[h.id := Inflow(s.config.window, [], [], false, false, None)], lastId := h.id);
    var grown := Inflow(s.config.window, fragment, [], EndStream(h), false, None);
    assert made.streams[h.id := grown] == s.streams[h.id := grown];
    assert [OpenedStream(h.id)] + [] == [OpenedStream(h.id)];
  }

  /** CONTINUATION grows the block. */
  lemma NextFragment(s: Session, env: Env, h: FrameHeader, p: seq<Byte>, block: seq<Byte>, ended: bool)
    requires s.gotSettings && h.kind == CONTINUATION && h.id > 0
    ensures var t := InBlock(s, h.id, block, ended, Some(h.id));
            Handle(t, env, h, p) ==
            if EndHeaders(h) then FinishHeaders(InBlock(s, h.id, block + p, ended, None), env, h.id)
            else Step(InBlock(s, h.id, block + p, ended, Some(h.id)), Ready, [])
  {
    hide EndHeaders, FinishHeaders;
    var t := InBlock(s, h.id, block, ended, Some(h.id));
    var grown := Inflow(s.config.window, block + p, [], ended, false, None);
    assert t.streams[h.id := grown] == s.streams[h.id := grown];
  }

  /** The rest of a header block, frame by frame, is as good as all of it at once. */
  lemma {:induction false} RestOfBlock(s: Session, env: Env, id: nat, block: seq<Byte>, end: bool, fragments: seq<seq<Byte>>)
    requires s.state == Connected && s.gotSettings && id > 0 && fragments != []
    requires FinishHeaders(InBlock(s, id, block + Flatten(fragments), end, None), env, id).status == Ready
    ensures var f := FinishHeaders(InBlock(s, id, block + Flatten(fragments), end, None), env, id);
            var x := Fold(InBlock(s, id, block, end, Some(id)), env, RestFrames(fragments, id));
            x.Some? && x.value.0 == f.s && Requests(x.value.1) == Requests(f.events)
    decreases |fragments|
  {
    hide FinishHeaders, Handle, Requests, Flags;
    var here := InBlock(s, id, block, end, Some(id));
    var frames := RestFrames(fragments, id);
    var first := frames[0];
    NextFragment(s, env, first.header, fragments[0], block, end);
    FlagsRead(first.header, false, |fragments| == 1, false, false);
    NoRequests();
    if |fragments| == 1 {
      assert fragments == [fragments[0]];
      FlattenSingle(fragments[0]);
      FoldFirst(here, env, first, []);
      assert frames == [first] + [];
    } else {
      assert block + Flatten(fragments) == block + fragments[0] + Flatten(fragments[1..]);
      RestOfBlock(s, env, id, block + fragments[0], end, fragments[1..]);
      FoldFirst(here, env, first, RestFrames(fragments[1..], id));
    }
  }

  lemma NoRequests()
    ensures Requests([]) == []
  {
  }

  /** Priority fields are five octets. */
  predicate Dressed(pad: Padding, priority: seq<Byte>) {
    Short(pad) && (priority == [] || |priority| == 5)
  }

  /** A whole header block, with or without priority fields and padding. */
  lemma BlockTaken(s: Session, env: Env, id: nat, end: bool, fragments: seq<seq<Byte>>, pad: Padding, priority: seq<Byte>)
    requires Settled(s) && fragments != [] && Dressed(pad, priority)
    requires id % 2 == 1 && id > s.lastId && id !in s.streams && |s.streams| < s.config.maxStreams
    requires FinishHeaders(InBlock(s, id, Flatten(fragments), end, None), env, id).status == Ready
    ensures var f := FinishHeaders(InBlock(s, id, Flatten(fragments), end, None), env, id);
            var x := Fold(s, env, [FirstFrame(fragments, id, end, pad, priority)] + RestFrames(fragments[1..], id));
            x.Some? && x.value.0 == f.s && Requests(x.value.1) == Requests(f.events)
  {
    hide FinishHeaders, Handle, Requests, Unpad, Flags, Pad, RestFrames, Fold;
    var first := FirstFrame(fragments, id, end, pad, priority);
    var rest := RestFrames(fragments[1..], id);
    FlagsRead(first.header, end, |fragments| == 1, pad.Some?, priority != []);
    Unpadded(first.header, pad, priority, fragments[0]);
    FirstFragment(s, env, first.header, first.payload, fragments[0]);
    OpenedOnly(id, FinishHeaders(InBlock(s, id, Flatten(fragments), end, None), env, id).events);
    NoRequests();
    if |fragments| == 1 {
      assert fragments == [fragments[0]];
      FlattenSingle(fragments[0]);
      NoMoreFrames(fragments[1..], id);
      NothingToFold(Handle(s, env, first.header, first.payload).s, env);
      FoldFirst(s, env, first, []);
    } else {
      assert Flatten(fragments) == fragments[0] + Flatten(fragments[1..]);
      RestOfBlock(s, env, id, fragments[0], end, fragments[1..]);
      OpenedOnly(id, []);
      var opening: seq<Event> := [OpenedStream(id)];
      assert opening + [] == opening;
      FoldFirst(s, env, first, rest);
    }
  }

  lemma NoMoreFrames(fragments: seq<seq<Byte>>, id: nat)
    requires fragments == []
    ensures RestFrames(fragments, id) == []
  {
  }

  lemma OpenedOnly(id: nat, events: seq<Event>)
    ensures Requests([OpenedStream(id)] + events) == Requests(events)
  {
    RequestsAppend([OpenedStream(id)], events);
    var one: seq<Event> := [OpenedStream(id)];
    assert one[1..] == [] && [OpenedStream(id)] + [] == one;
  }

  /** The end of the block: decompressed, assembled, and dispatched if there is no body. */
  lemma BlockFinished(s: Session, env: Env, c: Call, id: nat, end: bool, block: seq<Byte>, decoder: Codec)
    requires Settled(s) && Willing(env) && Canonical(c) && id !in s.streams
    requires DecodeBlock(s.decoder, block) == Outcome(true, HeaderListOf(c), decoder)
    ensures var t := s.(decoder := decoder, lastId := id);
            var request := Meaning(c, id, []);
            FinishHeaders(InBlock(s, id, block, end, None), env, id) ==
            if end then Step(t.(dispatches := s.dispatches + 1), Ready, [Dispatched(request, Accepted)])
            else Step(t.(streams := s.streams[id := Inflow(s.config.window, block, [], false, true, Some(request))]), Ready, [])
  {
    hide DecodeBlock, Assemble, Canonical, HeaderListOf, Meaning;
    RequestRead(c, id);
    var here := InBlock(s, id, block, end, None);
    var request := Meaning(c, id, []);
    var st := Inflow(s.config.window, block, [], end, true, Some(request));
    assert here.streams[id := st] == s.streams[id := st];
    assert s.streams[id := st] - {id} == s.streams;
    assert request.(body := []) == request by { MeaningBody(c, id); }
  }

  lemma MeaningBody(c: Call, id: nat)
    ensures Meaning(c, id, []).body == []
  {
    hide FindByte;
  }

  // ---- DATA ----

  /** DATA on an open stream, within credit, padded or not: the whole payload is charged, the data stored,
      and the request dispatched if it is the last. */
  lemma PieceTaken(s: Session, env: Env, id: nat, data: seq<Byte>, pad: Padding, last: bool)
    requires Settled(s) && Willing(env) && id > 0 && id in s.streams && Short(pad)
    requires var st := s.streams[id];
             var flow := |Pad(pad, data)|;
             && st.complete && !st.ended && st.request.Some? && |st.body| + |data| <= s.config.maxBody
             && flow <= st.window && flow <= s.window
    ensures var f := PieceFrame(id, data, pad, last);
            var r := Handle(s, env, f.header, f.payload);
            var st := s.streams[id];
            var flow := |Pad(pad, data)|;
            var next := st.(window := Charge(st.window, flow, s.config.window).0, body := st.body + data);
            var w := Charge(s.window, flow, s.config.window).0;
            && r.status == Ready
            && (if last then
                  && r.s == s.(streams := s.streams - {id}, window := w, dispatches := s.dispatches + 1)
                  && Requests(r.events) == [st.request.value.(body := st.body + data)]
                else r.s == s.(streams := s.streams[id := next], window := w) && Requests(r.events) == [])
  {
    hide Charge, Unpad, Padded, Requests, EndStream, Grant, Flags, Pad;
    var f := PieceFrame(id, data, pad, last);
    FlagsRead(f.header, last, false, pad.Some?, false);
    Unpadded(f.header, pad, [], data);
    assert [] + data == data;
    var st := s.streams[id];
    var flow := |Pad(pad, data)|;
    var connection, stream := Charge(s.window, flow, s.config.window), Charge(st.window, flow, s.config.window);
    var next := st.(window := stream.0, body := st.body + data, ended := last);
    assert s.streams[id := next] - {id} == s.streams - {id};
    var events := [AcceptedData(id, flow, data)] + Grant(0, connection.1) + Grant(id, stream.1);
    Bookkeeping(id, flow, data, connection.1, stream.1);
    var sent := [Dispatched(st.request.value.(body := st.body + data), Accepted)];
    RequestsAppend(events, sent);
    OneRequest(st.request.value.(body := st.body + data));
    assert [] + Requests(sent) == Requests(sent);
  }

  lemma Bookkeeping(id: nat, flow: nat, data: seq<Byte>, connection: nat, stream: nat)
    ensures Requests([AcceptedData(id, flow, data)] + Grant(0, connection) + Grant(id, stream)) == []
  {
    var a: seq<Event> := [AcceptedData(id, flow, data)];
    assert a[1..] == [];
    RequestsAppend(a + Grant(0, connection), Grant(id, stream));
    RequestsAppend(a, Grant(0, connection));
    GrantIsNoRequest(0, connection);
    GrantIsNoRequest(id, stream);
  }

  lemma GrantIsNoRequest(id: nat, increment: nat)
    ensures Requests(Grant(id, increment)) == []
  {
    var g := Grant(id, increment);
    assert increment != 0 ==> g[1..] == [];
  }

  lemma OneRequest(request: Request)
    ensures Requests([Dispatched(request, Accepted)]) == [request]
  {
    var one: seq<Event> := [Dispatched(request, Accepted)];
    assert one[1..] == [];
  }

  // ---- what a client does ----

  /** A client opens a request, sends a piece of the body of one it opened (`end` and `last` end it), takes
      one back, or sends a frame that concerns no request. */
  datatype Act =
    | Begin(id: nat, call: Call, end: bool, pad: Padding, priority: seq<Byte>)
    | Piece(id: nat, data: seq<Byte>, pad: Padding, last: bool)
    | Cancel(id: nat, flags: Byte, code: seq<Byte>)
    | Other(frame: Frame)

  /** The frames of an act whose padding and fragments make sense; none otherwise. */
  function FramesOf(act: Act): seq<Frame> {
    match act
    case Begin(id, call, end, pad, priority) =>
      if call.fragments == [] || !Short(pad) then []
      else [FirstFrame(call.fragments, id, end, pad, priority)] + RestFrames(call.fragments[1..], id)
    case Piece(id, data, pad, last) => if Short(pad) then [PieceFrame(id, data, pad, last)] else []
    case Cancel(id, flags, code) => [Frame(FrameHeader(|code|, RST_STREAM, flags, id), code)]
    case Other(frame) => [frame]
  }

  /** A frame that concerns no request and that the session takes: SETTINGS and WINDOW_UPDATE (`ok` if the
      scheduler accepts them), PING, PRIORITY, and types it does not know. */
  predicate Aside(f: Frame, ok: bool, lastId: nat) {
    var h, p := f.header, f.payload;
    || (h.kind == SETTINGS && h.id == 0
        && if Ack(h) then p == [] else ok && |p| % 6 == 0 && forall i :: 0 <= i < |p| / 6 ==> !Refused(SettingName(p, i), SettingValue(p, i)))
    || (h.kind == WINDOW_UPDATE && |p| == 4 && ReadIncrement(p) > 0 && (ok || 0 < h.id <= lastId))
    || (h.kind == PING && h.id == 0 && |p| == 8)
    || (h.kind == PRIORITY && h.id != 0 && |p| == 5)
    || h.kind > CONTINUATION
  }

  /** Whether it asks the scheduler. */
  predicate Asks(f: Frame) {
    (f.header.kind == SETTINGS && !Ack(f.header)) || f.header.kind == WINDOW_UPDATE
  }

  function AllFrames(acts: seq<Act>): seq<Frame> {
    if acts == [] then [] else FramesOf(acts[0]) + AllFrames(acts[1..])
  }

  /** The head that opened a stream, and the body sent on it. */
  function Opening(acts: seq<Act>, id: nat): Option<Call> {
    if acts == [] then None
    else
      var a := acts[|acts| - 1];
      if a.Begin? && a.id == id then Some(a.call) else Opening(acts[..|acts| - 1], id)
  }

  function BodyIn(acts: seq<Act>, id: nat): seq<Byte> {
    if acts == [] then []
    else
      var a := acts[|acts| - 1];
      BodyIn(acts[..|acts| - 1], id) + if a.Piece? && a.id == id then a.data else []
  }

  /** The request that the last act completes, if any: the head of its stream with all of its body. */
  function Completed(acts: seq<Act>): seq<Request>
    requires acts != []
  {
    var a := acts[|acts| - 1];
    if ((a.Begin? && a.end) || (a.Piece? && a.last)) && Opening(acts, a.id).Some?
    then [Meaning(Opening(acts, a.id).value, a.id, BodyIn(acts, a.id))]
    else []
  }

  /** The requests completed by acts that follow `before`, in the order of their ends. */
  function Completions(before: seq<Act>, acts: seq<Act>): seq<Request>
    decreases |acts|
  {
    if acts == [] then [] else Completed(before + [acts[0]]) + Completions(before + [acts[0]], acts[1..])
  }

  /** What a client has to keep count of: per open request the octets sent and the credit left, and the
      credit of the connection. The server tops up whatever falls below half. */
  datatype Room = Room(sent: nat, window: nat)
  datatype View = View(lastId: nat, window: nat, open: map<nat, Room>, queries: nat)

  /** An act within the limits of the server and of the compression. */
  ghost predicate Lawful(config: Config, env: Env, maxList: nat, view: View, enc: Codec, act: Act) {
    match act
    case Begin(id, call, end, pad, priority) =>
      && Dressed(pad, priority) && id % 2 == 1 && id > view.lastId && |view.open| < config.maxStreams
      && Canonical(call) && |enc.statics| > 0 && Flatten(call.fragments) == EncodeBlock(enc, HeaderListOf(call)).0
      && AllSendable(enc.code, HeaderListOf(call)) && ListSize(HeaderListOf(call)) <= maxList
    case Piece(id, data, pad, last) =>
      && Short(pad) && id in view.open && view.open[id].sent + |data| <= config.maxBody
      && |Pad(pad, data)| <= view.open[id].window && |Pad(pad, data)| <= view.window
    case Cancel(id, _, code) => id > 0 && |code| == 4
    case Other(frame) => Aside(frame, env.outbound(view.queries), view.lastId)
  }

  ghost function AfterAct(config: Config, view: View, act: Act): View {
    match act
    case Begin(id, _, end, _, _) =>
      view.(lastId := id, open := if end then view.open else view.open[id := Room(0, config.window)])
    case Piece(id, data, pad, last) =>
      if !Short(pad) || id !in view.open || |Pad(pad, data)| > view.open[id].window || |Pad(pad, data)| > view.window then view
      else
        var room, flow := view.open[id], |Pad(pad, data)|;
        view.(window := Charge(view.window, flow, config.window).0,
              open := if last then view.open - {id}
                      else view.open[id := Room(room.sent + |data|, Charge(room.window, flow, config.window).0)])
    case Cancel(id, _, _) => view.(open := view.open - {id})
    case Other(frame) => if Asks(frame) then view.(queries := view.queries + 1) else view
  }

  ghost function EncoderAfter(enc: Codec, act: Act): Codec {
    if act.Begin? && |enc.statics| > 0 then EncodeBlock(enc, HeaderListOf(act.call)).1 else enc
  }

  ghost predicate AllLawful(config: Config, env: Env, maxList: nat, view: View, enc: Codec, acts: seq<Act>)
    decreases |acts|
  {
    acts == [] ||
    (Lawful(config, env, maxList, view, enc, acts[0])
     && AllLawful(config, env, maxList, AfterAct(config, view, acts[0]), EncoderAfter(enc, acts[0]), acts[1..]))
  }

  // ---- the session follows the client ----

  /** An open stream holds the head and the body that the client sent on it. */
  ghost predicate Holds(st: Inflow, done: seq<Act>, id: nat, room: Room) {
    && st.complete && !st.ended && 0 < id && Opening(done, id).Some?
    && st.request == Some(Meaning(Opening(done, id).value, id, []))
    && st.body == BodyIn(done, id) && |st.body| == room.sent && st.window == room.window
  }

  ghost predicate Follows(s: Session, done: seq<Act>, view: View) {
    && Settled(s) && s.lastId == view.lastId && s.window == view.window && s.streams.Keys == view.open.Keys
    && s.queries == view.queries
    && (forall id :: id in s.streams ==> id <= s.lastId && Holds(s.streams[id], done, id, view.open[id]))
    && (forall id: nat :: id > s.lastId ==> BodyIn(done, id) == [])
  }

  lemma Acted(done: seq<Act>, a: Act, id: nat)
    ensures Opening(done + [a], id) == if a.Begin? && a.id == id then Some(a.call) else Opening(done, id)
    ensures BodyIn(done + [a], id) == BodyIn(done, id) + if a.Piece? && a.id == id then a.data else []
  {
    var all := done + [a];
    assert all[..|all| - 1] == done;
  }

  lemma SameSize(s: Session, view: View)
    requires s.streams.Keys == view.open.Keys
    ensures |s.streams| == |view.open|
  {
    assert |s.streams| == |s.streams.Keys| && |view.open| == |view.open.Keys|;
  }

  /** The table after a request was opened. */
  lemma BeginFollows(s: Session, t: Session, done: seq<Act>, view: View, a: Act, block: seq<Byte>)
    requires Follows(s, done, view) && a.Begin? && a.id > s.lastId
    requires t.state == s.state && t.gotSettings && t.continuation == None && t.config == s.config
    requires t.window == s.window && t.lastId == a.id && t.queries == s.queries
    requires t.streams == if a.end then s.streams
                          else s.streams[a.id := Inflow(s.config.window, block, [], false, true, Some(Meaning(a.call, a.id, [])))]
    ensures Follows(t, done + [a], AfterAct(s.config, view, a))
    ensures a.end ==> Completed(done + [a]) == [Meaning(a.call, a.id, [])]
    ensures !a.end ==> Completed(done + [a]) == []
  {
    hide Meaning, Opening, BodyIn;
    Acted(done, a, a.id);
    forall id | id in t.streams ensures id <= t.lastId && Holds(t.streams[id], done + [a], id, AfterAct(s.config, view, a).open[id]) {
      Acted(done, a, id);
    }
    forall id: nat | id > t.lastId ensures BodyIn(done + [a], id) == [] {
      Acted(done, a, id);
    }
  }

  lemma {:induction false} BeginServed(s: Session, env: Env, maxList: nat, done: seq<Act>, view: View, enc: Codec, a: Act) returns (t: Session)
    requires Follows(s, done, view) && Willing(env) && a.Begin? && Lawful(s.config, env, maxList, view, enc, a)
    requires Synced(enc, s.decoder) && maxList == s.decoder.maxList
    ensures Follows(t, done + [a], AfterAct(s.config, view, a)) && t.config == s.config
    ensures Synced(EncoderAfter(enc, a), t.decoder) && t.decoder.maxList == maxList
    ensures var x := Fold(s, env, FramesOf(a));
            x.Some? && x.value.0 == t && Requests(x.value.1) == Completed(done + [a])
  {
    hide FinishHeaders, Requests, Handle, Fold, DecodeBlock, EncodeBlock, Canonical, HeaderListOf, Synced, RestFrames, FirstFrame,
         Holds, Meaning, Completed, BodyIn, AfterAct;
    var block := Flatten(a.call.fragments);
    SameSize(s, view);
    var decoder := BlockSynced(enc, s.decoder, HeaderListOf(a.call));
    BlockFinished(s, env, a.call, a.id, a.end, block, decoder);
    assert a.call.fragments != [] by { CallParts(a.call); }
    BlockTaken(s, env, a.id, a.end, a.call.fragments, a.pad, a.priority);
    t := FinishHeaders(InBlock(s, a.id, block, a.end, None), env, a.id).s;
    BeginFollows(s, t, done, view, a, block);
    NoRequests();
    OneRequest(Meaning(a.call, a.id, []));
  }

  lemma CallParts(c: Call)
    requires Canonical(c)
    ensures c.fragments != []
  {
  }

  /** The table after a piece was stored. */
  lemma PieceFollows(s: Session, t: Session, done: seq<Act>, view: View, a: Act)
    requires Follows(s, done, view) && a.Piece? && a.id in s.streams && Short(a.pad)
    requires var st := s.streams[a.id];
             var flow := |Pad(a.pad, a.data)|;
             && flow <= st.window && flow <= s.window
             && var next := st.(window := Charge(st.window, flow, s.config.window).0, body := st.body + a.data);
             t == s.(streams := if a.last then s.streams - {a.id} else s.streams[a.id := next],
                     window := Charge(s.window, flow, s.config.window).0, dispatches := t.dispatches)
    ensures Follows(t, done + [a], AfterAct(s.config, view, a))
    ensures Completed(done + [a]) ==
            if a.last then [Meaning(Opening(done, a.id).value, a.id, s.streams[a.id].body + a.data)] else []
  {
    hide Meaning, Opening, BodyIn, Charge, Pad;
    Acted(done, a, a.id);
    forall id | id in t.streams ensures id <= t.lastId && Holds(t.streams[id], done + [a], id, AfterAct(s.config, view, a).open[id]) {
      Acted(done, a, id);
    }
    forall id: nat | id > t.lastId ensures BodyIn(done + [a], id) == [] {
      Acted(done, a, id);
    }
  }

  lemma PieceServed(s: Session, env: Env, maxList: nat, done: seq<Act>, view: View, enc: Codec, a: Act) returns (t: Session)
    requires Follows(s, done, view) && Willing(env) && a.Piece? && Lawful(s.config, env, maxList, view, enc, a)
    ensures Follows(t, done + [a], AfterAct(s.config, view, a)) && t.config == s.config && t.decoder == s.decoder
    ensures var x := Fold(s, env, FramesOf(a));
            x.Some? && x.value.0 == t && Requests(x.value.1) == Completed(done + [a])
  {
    hide Requests, Handle, Meaning, Completed, BodyIn, Opening, AfterAct, Charge, Pad, Flags;
    PieceTaken(s, env, a.id, a.data, a.pad, a.last);
    var f := PieceFrame(a.id, a.data, a.pad, a.last);
    t := Handle(s, env, f.header, f.payload).s;
    PieceFollows(s, t, done, view, a);
    NoRequests();
    FoldFirst(s, env, f, []);
    assert [f] + [] == [f];
    WithBody(Opening(done, a.id).value, a.id, s.streams[a.id].body + a.data);
  }

  lemma WithBody(c: Call, id: nat, body: seq<Byte>)
    ensures Meaning(c, id, []).(body := body) == Meaning(c, id, body)
  {
    hide FindByte;
  }

  /** Acts that add nothing to any body and complete nothing. */
  lemma QuietFollows(s: Session, t: Session, done: seq<Act>, view: View, after: View, a: Act)
    requires Follows(s, done, view) && (a.Cancel? || a.Other?)
    requires Settled(t) && t.lastId == s.lastId && t.window == s.window && t.queries == after.queries
    requires t.streams == s.streams || (a.Cancel? && t.streams == s.streams - {a.id})
    requires after == view.(open := after.open, queries := after.queries)
    requires after.open == if t.streams == s.streams && !a.Cancel? then view.open else view.open - (view.open.Keys - t.streams.Keys)
    ensures Follows(t, done + [a], after) && Completed(done + [a]) == []
  {
    hide Meaning, Opening, BodyIn;
    forall id | id in t.streams ensures id <= t.lastId && Holds(t.streams[id], done + [a], id, after.open[id]) {
      Acted(done, a, id);
    }
    forall id: nat | id > t.lastId ensures BodyIn(done + [a], id) == [] {
      Acted(done, a, id);
    }
  }

  lemma CancelServed(s: Session, env: Env, done: seq<Act>, view: View, a: Act) returns (t: Session)
    requires Follows(s, done, view) && a.Cancel? && a.id > 0 && |a.code| == 4
    ensures Follows(t, done + [a], AfterAct(s.config, view, a)) && t.config == s.config && t.decoder == s.decoder
    ensures var x := Fold(s, env, FramesOf(a));
            x.Some? && x.value.0 == t && Requests(x.value.1) == Completed(done + [a])
  {
    hide Requests, Completed, Holds, BodyIn;
    var f := Frame(FrameHeader(|a.code|, RST_STREAM, a.flags, a.id), a.code);
    var r := Handle(s, env, f.header, f.payload);
    t := r.s;
    assert view.open - {a.id} == view.open - (view.open.Keys - t.streams.Keys);
    QuietFollows(s, t, done, view, AfterAct(s.config, view, a), a);
    NothingToFold(t, env);
    NotDispatched(ClosedStream(a.id));
    FoldFirst(s, env, f, []);
    assert [f] + [] == [f];
  }

  /** A frame aside is answered Ready, and only the count of questions to the scheduler may change. */
  lemma AsideTaken(s: Session, env: Env, f: Frame)
    requires Settled(s) && Aside(f, env.outbound(s.queries), s.lastId)
    ensures var r := Handle(s, env, f.header, f.payload);
            && r.status == Ready && Requests(r.events) == []
            && r.s == s.(peer := r.s.peer, queries := if Asks(f) then s.queries + 1 else s.queries)
  {
    hide Requests, ReadSettings, ReadIncrement, Ack, Refused, SettingName, SettingValue;
    var h, p := f.header, f.payload;
    NoRequests();
    if h.kind == SETTINGS {
      if !Ack(h) {
        SettingsReadIff(p, s.peer);
        var peer := ReadSettings(p, s.peer).0;
        RequestsAppend([PeerSettings(peer)], [SentAck]);
        NotDispatched(PeerSettings(peer));
        NotDispatched(SentAck);
        assert [PeerSettings(peer)] + [SentAck] == [PeerSettings(peer), SentAck];
      }
    } else if h.kind == WINDOW_UPDATE {
      NotDispatched(if h.id == 0 then PeerConnectionCredit(ReadIncrement(p)) else PeerStreamCredit(h.id, ReadIncrement(p)));
    } else if h.kind == PING {
      NotDispatched(SentPong(p));
    }
  }

  lemma OtherServed(s: Session, env: Env, done: seq<Act>, view: View, a: Act) returns (t: Session)
    requires Follows(s, done, view) && a.Other? && Aside(a.frame, env.outbound(view.queries), view.lastId)
    ensures Follows(t, done + [a], AfterAct(s.config, view, a)) && t.config == s.config && t.decoder == s.decoder
    ensures var x := Fold(s, env, FramesOf(a));
            x.Some? && x.value.0 == t && Requests(x.value.1) == Completed(done + [a])
  {
    hide Requests, Completed, Holds, BodyIn, Handle, Aside, Asks;
    AsideTaken(s, env, a.frame);
    t := Handle(s, env, a.frame.header, a.frame.payload).s;
    QuietFollows(s, t, done, view, AfterAct(s.config, view, a), a);
    NothingToFold(t, env);
    FoldFirst(s, env, a.frame, []);
    assert [a.frame] + [] == [a.frame];
  }

  lemma ActServed(s: Session, env: Env, maxList: nat, done: seq<Act>, view: View, enc: Codec, a: Act) returns (t: Session)
    requires Follows(s, done, view) && Willing(env) && Lawful(s.config, env, maxList, view, enc, a)
    requires Synced(enc, s.decoder) && maxList == s.decoder.maxList
    ensures Follows(t, done + [a], AfterAct(s.config, view, a)) && t.config == s.config
    ensures Synced(EncoderAfter(enc, a), t.decoder) && t.decoder.maxList == maxList
    ensures var x := Fold(s, env, FramesOf(a));
            x.Some? && x.value.0 == t && Requests(x.value.1) == Completed(done + [a])
  {
    hide Follows, Willing, Synced, AfterAct, Fold, Requests, Completed, FramesOf, Aside, Canonical, EncodeBlock, HeaderListOf;
    match a
    case Begin(_, _, _, _, _) => t := BeginServed(s, env, maxList, done, view, enc, a);
    case Piece(_, _, _, _) => t := PieceServed(s, env, maxList, done, view, enc, a);
    case Cancel(_, _, _) => t := CancelServed(s, env, done, view, a);
    case Other(_) => t := OtherServed(s, env, done, view, a);
  }

  lemma {:induction false} ActsServed(s: Session, env: Env, maxList: nat, done: seq<Act>, view: View, enc: Codec, acts: seq<Act>)
    returns (t: Session)
    requires Follows(s, done, view) && Willing(env) && AllLawful(s.config, env, maxList, view, enc, acts)
    requires Synced(enc, s.decoder) && maxList == s.decoder.maxList
    ensures var x := Fold(s, env, AllFrames(acts));
            x.Some? && x.value.0 == t && Requests(x.value.1) == Completions(done, acts)
    decreases |acts|
  {
    hide Requests, Handle, Fold, Synced, Follows, Willing, Lawful, AfterAct, EncoderAfter, FramesOf, Completed;
    if acts == [] {
      t := s;
      NothingToFold(s, env);
    } else {
      var u := ActServed(s, env, maxList, done, view, enc, acts[0]);
      t := ActsServed(u, env, maxList, done + [acts[0]], AfterAct(s.config, view, acts[0]), EncoderAfter(enc, acts[0]), acts[1..]);
      var head, tail := FramesOf(acts[0]), AllFrames(acts[1..]);
      FoldAppend(s, env, head, tail);
      RequestsAppend(Fold(s, env, head).value.1, Fold(u, env, tail).value.1);
    }
  }

  lemma NothingToFold(s: Session, env: Env)
    ensures Fold(s, env, []) == Some((s, [])) && Requests([]) == []
  {
  }

  // ---- a whole connection ----

  /** The client's own SETTINGS frame, which must come first. */
  const SETTINGS_FRAME := Frame(FrameHeader(0, SETTINGS, 0, 0), [])

  lemma SettingsTaken(s: Session, env: Env)
    requires s.state == Connected && s.continuation == None && env.outbound(s.queries)
    ensures var r := Handle(s, env, SETTINGS_FRAME.header, []);
            && r.status == Ready && r.s == s.(gotSettings := true, queries := s.queries + 1)
            && Requests(r.events) == []
  {
    hide Requests;
    var first: seq<Event> := [PeerSettings(s.peer)];
    var second: seq<Event> := [SentAck];
    assert first + second == [PeerSettings(s.peer), SentAck];
    RequestsAppend(first, second);
    NotDispatched(PeerSettings(s.peer));
    NotDispatched(SentAck);
  }

  /** End to end: a client sends any canonical requests, their headers compressed one after another by
      one encoder, the blocks cut into HEADERS and CONTINUATION frames and the bodies into DATA frames in any
      way, with or without padding and priority fields, the frames of up to the allowed number of requests
      interleaved with each other and with frames that concern no request, each piece of a body within the
      credit then outstanding, some requests taken back, the octets fed in any pieces that do not overflow
      the buffer. A fresh
      session with an equally configured decoder dispatches exactly the requests that were ended, in the
      order of their ends, each with its own head and whole body. */
  lemma RequestsArrive(config: Config, env: Env, codec: Codec, acts: seq<Act>, pieces: seq<seq<Byte>>)
    requires Willing(env) && env.outbound(0) && Synced(codec, codec)
    requires AllLawful(config, env, codec.maxList, View(0, config.window, map[], 1), codec, acts)
    requires AllFit([SETTINGS_FRAME] + AllFrames(acts), config.maxFrame)
    requires Flatten(pieces) == Preface() + Wire([SETTINGS_FRAME] + AllFrames(acts))
    requires NeverOverflows(H2Inbound.Fresh(config, codec), env, [], pieces)
    ensures var fed := FeedAll(H2Inbound.Fresh(config, codec), env, [], pieces);
            fed.status == Ready && Requests(fed.events) == Completions([], acts)
  {
    hide Requests, Handle, Fold, Preface, FeedAll, NeverOverflows, AllFrames, AllLawful, Synced, AllFit, Wire, HandleAll, Completions;
    var s := H2Inbound.Fresh(config, codec);
    var up := s.(state := Connected);
    var frames := AllFrames(acts);
    FramesRecovered(s, env, [SETTINGS_FRAME] + frames, pieces);
    SettingsTaken(up, env);
    var quiet := up.(gotSettings := true, queries := 1);
    var t := ActsServed(quiet, env, codec.maxList, [], View(0, config.window, map[], 1), codec, acts);
    FoldFirst(up, env, SETTINGS_FRAME, frames);
    FoldIsHandleAll(up, env, [SETTINGS_FRAME] + frames);
    var x := Fold(up, env, [SETTINGS_FRAME] + frames).value;
    RequestsAppend([SentSettings], x.1);
    assert Requests([SentSettings]) == [] by { NotDispatched(SentSettings); }
  }

  lemma NotDispatched(e: Event)
    requires !e.Dispatched?
    ensures Requests([e]) == []
  {
    var one := [e];
    assert one[1..] == [];
  }
}

/** Flow-controlled response framing: http2_outbound.cpp H2OutboundScheduler. Each locked section is one
    step; a run is a sequence of steps, and `History` adds what an observer of the wire has seen. */
module Outbound {
  import opened Bytes
  import opened Hpack
  import opened Text

  const MAX_WINDOW := 0x7fffffff
  const MIN_FRAME := 16384
  const MAX_FRAME := 16777215

  datatype Kind = Headers | Continuation | Data

  /** A frame handed to the sender: its header fields and its payload. */
  datatype Frame = Frame(kind: Kind, id: nat, endHeaders: bool, endStream: bool, payload: seq<Byte>)

  datatype Stream = Stream(window: int, body: seq<Byte>, offset: nat, submitted: bool)

  datatype Response = Response(status: nat, headers: seq<Entry>, body: seq<Byte>)

  datatype Scheduler = Scheduler(
    closed: bool, connection: int, initial: nat, maxFrame: nat, encoder: Codec, streams: map<nat, Stream>)

  /** One locked section. `order` is the iteration order of the stream map, which the source's hash map
      leaves unspecified. */
  datatype Op =
    | Open(id: nat)
    | CloseStream(id: nat)
    | Close
    | Submit(id: nat, response: Response)
    | Settings(initial: nat, maxFrame: nat, tableSize: nat, order: seq<nat>)
    | UpdateConnection(increment: nat, order: seq<nat>)
    | UpdateStream(id: nat, increment: nat)

  datatype Effect = Effect(s: Scheduler, frames: seq<Frame>, ok: bool)

  // ---- flushing ----

  datatype Flushed = Flushed(stream: Stream, connection: int, frames: seq<Frame>)

  function Chunk(st: Stream, connection: int, maxFrame: nat): int {
    Min(Min(|st.body| - st.offset, st.window), Min(connection, maxFrame))
  }

  /** FlushStreamLocked: DATA frames while body, stream credit and connection credit last. */
  function Flush(id: nat, st: Stream, connection: int, maxFrame: nat): (r: Flushed)
    requires st.offset <= |st.body| && maxFrame > 0
    ensures r.stream.offset <= |st.body| && r.stream.body == st.body && r.stream.submitted == st.submitted
    decreases |st.body| - st.offset
  {
    if st.offset < |st.body| && st.window > 0 && connection > 0 then
      var n := Chunk(st, connection, maxFrame);
      var next := st.(offset := st.offset + n, window := st.window - n);
      var frame := Frame(Data, id, false, next.offset == |st.body|, st.body[st.offset..next.offset]);
      var rest := Flush(id, next, connection - n, maxFrame);
      Flushed(rest.stream, rest.connection, [frame] + rest.frames)
    else Flushed(st, connection, [])
  }

  /** Flushes one stream and drops it when its body is fully sent. */
  ghost function FlushOne(s: Scheduler, id: nat): (r: (Scheduler, seq<Frame>))
    requires Sane(s) && id in s.streams
    ensures Sane(r.0)
  {
    var f := Flush(id, s.streams[id], s.connection, s.maxFrame);
    var streams := if f.stream.offset == |f.stream.body| then s.streams - {id} else s.streams[id := f.stream];
    (s.(connection := f.connection, streams := streams), f.frames)
  }

  /** FlushAllLocked over the given iteration order; streams without a response are skipped. */
  ghost function FlushAll(s: Scheduler, order: seq<nat>): (r: (Scheduler, seq<Frame>))
    requires Sane(s)
    ensures Sane(r.0)
    decreases |order|
  {
    if order == [] then (s, [])
    else
      var first := if order[0] in s.streams && s.streams[order[0]].submitted then FlushOne(s, order[0]) else (s, []);
      var rest := FlushAll(first.0, order[1..]);
      (rest.0, first.1 + rest.1)
  }

  /** What the constructor and every step keep, so that flushing is defined. */
  ghost predicate Sane(s: Scheduler) {
    && MIN_FRAME <= s.maxFrame <= MAX_FRAME
    && |s.encoder.statics| > 0
    && forall id :: id in s.streams ==> SaneStream(s.streams[id])
  }

  ghost predicate SaneStream(st: Stream) {
    && st.offset <= |st.body|
    && (!st.submitted ==> st.body == [])
  }

  // ---- header blocks ----

  const CONNECTION: seq<Byte> := Ascii("connection")
  const KEEP_ALIVE: seq<Byte> := Ascii("keep-alive")
  const PROXY_CONNECTION: seq<Byte> := Ascii("proxy-connection")
  const TRANSFER_ENCODING: seq<Byte> := Ascii("transfer-encoding")
  const UPGRADE: seq<Byte> := Ascii("upgrade")

  predicate ConnectionSpecific(name: seq<Byte>) {
    name in [CONNECTION, KEEP_ALIVE, PROXY_CONNECTION, TRANSFER_ENCODING, UPGRADE]
  }

  /** The list EncodeHeaderBlockLocked compresses: the status, then the response's own headers with
      lower-case names, without pseudo, nameless or connection-specific ones. */
  function HeaderList(response: Response): seq<Entry> {
    [Entry(Ascii(":status"), Decimal(response.status))] + Forwarded(response.headers)
  }

  function Forwarded(headers: seq<Entry>): seq<Entry> {
    if headers == [] then []
    else
      var e := Entry(Lowercase(headers[0].name), headers[0].value);
      (if Forwardable(e.name) then [e] else []) + Forwarded(headers[1..])
  }

  predicate Forwardable(name: seq<Byte>) {
    name != [] && name[0] != 58 && !ConnectionSpecific(name)
  }

  /** EncodeHeaderBlockLocked's framing loop: HEADERS, then CONTINUATION frames; the last fragment
      carries END_HEADERS and, without a body, END_STREAM. */
  function HeaderFrames(id: nat, block: seq<Byte>, end: bool, maxFrame: nat, first: bool): (r: seq<Frame>)
    requires maxFrame > 0
    decreases |block|
  {
    var kind := if first then Headers else Continuation;
    if |block| <= maxFrame then [Frame(kind, id, true, end, block)]
    else [Frame(kind, id, false, false, block[..maxFrame])] + HeaderFrames(id, block[maxFrame..], end, maxFrame, false)
  }

  // ---- steps ----

  ghost function Step(s: Scheduler, op: Op): (r: Effect)
    requires Sane(s)
    ensures Sane(r.s)
  {
    match op
    case Open(id) =>
      if s.closed || id in s.streams then Effect(s, [], true)
      else Effect(s.(streams := s.streams[id := Stream(s.initial, [], 0, false)]), [], true)
    case CloseStream(id) => Effect(s.(streams := s.streams - {id}), [], true)
    case Close => Effect(s.(closed := true, streams := map[]), [], true)
    case Submit(id, response) => SubmitStep(s, id, response)
    case Settings(initial, maxFrame, tableSize, order) => SettingsStep(s, initial, maxFrame, tableSize, order)
    case UpdateConnection(increment, order) =>
      if s.closed || increment == 0 || s.connection + increment > MAX_WINDOW then Effect(s, [], false)
      else
        var r := FlushAll(s.(connection := s.connection + increment), order);
        Effect(r.0, r.1, true)
    case UpdateStream(id, increment) =>
      if s.closed || increment == 0 || id !in s.streams || s.streams[id].window + increment > MAX_WINDOW
      then Effect(s, [], false)
      else
        var st := s.streams[id];
        var r := FlushOne(s.(streams := s.streams[id := st.(window := st.window + increment)]), id);
        Effect(r.0, r.1, true)
  }

  ghost function SubmitStep(s: Scheduler, id: nat, response: Response): (r: Effect)
    requires Sane(s)
    ensures Sane(r.s)
  {
    if s.closed || id !in s.streams || s.streams[id].submitted then Effect(s, [], false)
    else
      var (block, encoder) := EncodeBlock(s.encoder, HeaderList(response));
      var head := HeaderFrames(id, block, response.body == [], s.maxFrame, true);
      var st := s.streams[id].(submitted := true, body := response.body);
      var marked := s.(encoder := encoder, streams := s.streams[id := st]);
      var r := FlushOne(marked, id);
      Effect(r.0, head + r.1, true)
  }

  ghost function SettingsStep(s: Scheduler, initial: nat, maxFrame: nat, tableSize: nat, order: seq<nat>): (r: Effect)
    requires Sane(s)
    ensures Sane(r.s)
  {
    var delta := initial - s.initial;
    if initial > MAX_WINDOW || !(MIN_FRAME <= maxFrame <= MAX_FRAME) || s.closed then Effect(s, [], false)
    else if exists id :: id in s.streams && s.streams[id].window + delta > MAX_WINDOW then Effect(s, [], false)
    else
      var streams := map id | id in s.streams :: s.streams[id].(window := s.streams[id].window + delta);
      var resized := Resize(s.encoder, Min(tableSize, s.encoder.maxTable));
      var moved := s.(streams := streams, initial := initial, maxFrame := maxFrame, encoder := resized.value);
      var r := FlushAll(moved, order);
      Effect(r.0, r.1, true)
  }

  // ---- facts about one flush ----

  function Payload(frames: seq<Frame>): seq<Byte> {
    if frames == [] then [] else frames[0].payload + Payload(frames[1..])
  }

  lemma {:induction false} PayloadAppend(a: seq<Frame>, b: seq<Frame>)
    ensures Payload(a + b) == Payload(a) + Payload(b)
  {
    if a == [] {
      assert a + b == b;
    } else {
      assert (a + b)[1..] == a[1..] + b && (a + b)[0] == a[0];
      PayloadAppend(a[1..], b);
      Assoc(a[0].payload, Payload(a[1..]), Payload(b));
    }
  }

  /** Frames of one stream of which only the last may carry END_STREAM, and does iff `ended`. */
  ghost predicate EndsOnce(frames: seq<Frame>, ended: bool) {
    && (forall i :: 0 <= i < |frames| && frames[i].endStream ==> i == |frames| - 1)
    && (ended <==> frames != [] && frames[|frames| - 1].endStream)
  }

  ghost predicate DataOnly(frames: seq<Frame>, id: nat, maxFrame: nat) {
    forall i :: 0 <= i < |frames| ==>
      frames[i].kind == Data && frames[i].id == id && 0 < |frames[i].payload| <= maxFrame
  }

  predicate CanSend(st: Stream, connection: int) {
    st.offset < |st.body| && st.window > 0 && connection > 0
  }

  function Advanced(st: Stream, n: nat): Stream {
    st.(offset := st.offset + n, window := st.window - n)
  }

  /** One turn of the flush loop. */
  lemma ChunkBounds(st: Stream, connection: int, maxFrame: nat)
    requires st.offset <= |st.body| && maxFrame > 0 && CanSend(st, connection)
    ensures var n := Chunk(st, connection, maxFrame);
            && 0 < n <= st.window && n <= connection && n <= maxFrame && st.offset + n <= |st.body|
            && (n == st.window || n == connection || n == maxFrame || st.offset + n == |st.body|)
  {
  }

  lemma FlushUnfolds(id: nat, st: Stream, connection: int, maxFrame: nat)
    requires st.offset <= |st.body| && maxFrame > 0 && CanSend(st, connection)
    ensures var n := Chunk(st, connection, maxFrame);
            && 0 < n && st.offset + n <= |st.body|
            && var rest := Flush(id, Advanced(st, n), connection - n, maxFrame);
               var frame := Frame(Data, id, false, st.offset + n == |st.body|, st.body[st.offset..st.offset + n]);
               Flush(id, st, connection, maxFrame) == Flushed(rest.stream, rest.connection, [frame] + rest.frames)
  {
    ChunkBounds(st, connection, maxFrame);
    hide Chunk;
  }

  lemma FlushTurn(id: nat, st: Stream, connection: int, maxFrame: nat) returns (n: nat, frame: Frame)
    requires st.offset <= |st.body| && maxFrame > 0 && CanSend(st, connection)
    ensures 0 < n <= st.window && n <= connection && n <= maxFrame && st.offset + n <= |st.body|
    ensures n == st.window || n == connection || n == maxFrame || st.offset + n == |st.body|
    ensures frame == Frame(Data, id, false, st.offset + n == |st.body|, st.body[st.offset..st.offset + n])
    ensures var rest := Flush(id, Advanced(st, n), connection - n, maxFrame);
            Flush(id, st, connection, maxFrame) == Flushed(rest.stream, rest.connection, [frame] + rest.frames)
  {
    hide Chunk, Flush;
    ChunkBounds(st, connection, maxFrame);
    n := Chunk(st, connection, maxFrame);
    frame := Frame(Data, id, false, st.offset + n == |st.body|, st.body[st.offset..st.offset + n]);
    FlushUnfolds(id, st, connection, maxFrame);
  }

  lemma FlushStops(id: nat, st: Stream, connection: int, maxFrame: nat)
    requires st.offset <= |st.body| && maxFrame > 0 && !CanSend(st, connection)
    ensures Flush(id, st, connection, maxFrame) == Flushed(st, connection, [])
  {
  }

  /** One flush sends exactly the octets it advances over, charges both windows for them, and stops
      only for want of body or credit. */
  lemma {:induction false} FlushCredit(id: nat, st: Stream, connection: int, maxFrame: nat)
    requires st.offset <= |st.body| && maxFrame > 0 && connection >= 0
    ensures var r := Flush(id, st, connection, maxFrame);
            && st.offset <= r.stream.offset
            && Payload(r.frames) == st.body[st.offset..r.stream.offset]
            && r.stream.window == st.window - (r.stream.offset - st.offset)
            && r.connection == connection - (r.stream.offset - st.offset) >= 0
            && (r.stream.offset > st.offset ==> r.stream.window >= 0)
            && (r.stream.offset == |st.body| || r.stream.window <= 0 || r.connection == 0)
    decreases |st.body| - st.offset
  {
    hide Flush;
    if CanSend(st, connection) {
      var n, frame := FlushTurn(id, st, connection, maxFrame);
      FlushCredit(id, Advanced(st, n), connection - n, maxFrame);
      var rest := Flush(id, Advanced(st, n), connection - n, maxFrame);
      assert ([frame] + rest.frames)[1..] == rest.frames;
      Slices(st.body, st.offset, st.offset + n, rest.stream.offset);
    } else {
      FlushStops(id, st, connection, maxFrame);
    }
  }

  lemma Slices(body: seq<Byte>, a: nat, b: nat, c: nat)
    requires a <= b <= c <= |body|
    ensures body[a..b] + body[b..c] == body[a..c]
  {
  }

  /** The frames of one flush: non-empty DATA frames within the frame size, END_STREAM on the last one
      exactly when the body is finished. */
  lemma {:induction false} FlushShape(id: nat, st: Stream, connection: int, maxFrame: nat)
    requires st.offset <= |st.body| && maxFrame > 0 && connection >= 0
    ensures var r := Flush(id, st, connection, maxFrame);
            && DataOnly(r.frames, id, maxFrame)
            && EndsOnce(r.frames, st.offset < |st.body| && r.stream.offset == |st.body|)
    decreases |st.body| - st.offset
  {
    hide Flush;
    if CanSend(st, connection) {
      var n, frame := FlushTurn(id, st, connection, maxFrame);
      FlushShape(id, Advanced(st, n), connection - n, maxFrame);
      if st.offset + n == |st.body| {
        FlushStops(id, Advanced(st, n), connection - n, maxFrame);
      }
    } else {
      FlushStops(id, st, connection, maxFrame);
    }
  }

  predicate AllFull(frames: seq<Frame>, maxFrame: nat) {
    forall i :: 0 <= i < |frames| - 1 ==> |frames[i].payload| == maxFrame
  }

  /** All DATA frames of a flush but the last are as large as the peer allows. */
  lemma {:induction false} FlushFull(id: nat, st: Stream, connection: int, maxFrame: nat)
    requires st.offset <= |st.body| && maxFrame > 0 && connection >= 0
    ensures AllFull(Flush(id, st, connection, maxFrame).frames, maxFrame)
    decreases |st.body| - st.offset
  {
    hide Flush;
    if CanSend(st, connection) {
      var n, frame := FlushTurn(id, st, connection, maxFrame);
      FlushFull(id, Advanced(st, n), connection - n, maxFrame);
      if !CanSend(Advanced(st, n), connection - n) {
        FlushStops(id, Advanced(st, n), connection - n, maxFrame);
      }
    } else {
      FlushStops(id, st, connection, maxFrame);
    }
  }

  /** Header fragments: HEADERS first, CONTINUATION after, END_HEADERS on the last fragment only,
      END_STREAM on the last fragment only and iff there is no body. */
  ghost predicate HeaderShape(frames: seq<Frame>, id: nat, end: bool, maxFrame: nat, first: bool) {
    && frames != []
    && (forall i :: 0 <= i < |frames| ==>
          && frames[i].id == id && |frames[i].payload| <= maxFrame
          && frames[i].kind == (if first && i == 0 then Headers else Continuation)
          && (frames[i].endHeaders <==> i == |frames| - 1))
    && EndsOnce(frames, end)
  }

  lemma ShapeSingle(f: Frame, end: bool, maxFrame: nat)
    requires f.endHeaders && f.endStream == end && |f.payload| <= maxFrame && f.kind != Data
    ensures HeaderShape([f], f.id, end, maxFrame, f.kind == Headers)
  {
  }

  lemma ShapeFirst(f: Frame, rest: seq<Frame>, end: bool, maxFrame: nat)
    requires HeaderShape(rest, f.id, end, maxFrame, false)
    requires !f.endHeaders && !f.endStream && |f.payload| <= maxFrame && f.kind != Data
    ensures HeaderShape([f] + rest, f.id, end, maxFrame, f.kind == Headers)
  {
    var all := [f] + rest;
    assert all[|all| - 1] == rest[|rest| - 1];
    assert forall i :: 0 < i < |all| ==> all[i] == rest[i - 1];
  }

  lemma {:induction false} HeaderFacts(id: nat, block: seq<Byte>, end: bool, maxFrame: nat, first: bool)
    requires maxFrame > 0
    ensures var r := HeaderFrames(id, block, end, maxFrame, first);
            HeaderShape(r, id, end, maxFrame, first) && Payload(r) == block
    decreases |block|
  {
    hide HeaderShape;
    var r := HeaderFrames(id, block, end, maxFrame, first);
    if |block| > maxFrame {
      HeaderFacts(id, block[maxFrame..], end, maxFrame, false);
      var rest := HeaderFrames(id, block[maxFrame..], end, maxFrame, false);
      ShapeFirst(r[0], rest, end, maxFrame);
      assert r == [r[0]] + rest && r[1..] == rest;
      assert block[..maxFrame] + block[maxFrame..] == block;
    } else {
      ShapeSingle(r[0], end, maxFrame);
      assert r == [r[0]] && r[1..] == [];
    }
  }

  /** All fragments but the last are as large as the peer allows. */
  lemma {:induction false} HeaderFull(id: nat, block: seq<Byte>, end: bool, maxFrame: nat, first: bool)
    requires maxFrame > 0
    ensures AllFull(HeaderFrames(id, block, end, maxFrame, first), maxFrame)
    decreases |block|
  {
    if |block| > maxFrame {
      HeaderFull(id, block[maxFrame..], end, maxFrame, false);
      var rest := HeaderFrames(id, block[maxFrame..], end, maxFrame, false);
      FullMore(Frame(if first then Headers else Continuation, id, false, false, block[..maxFrame]), rest, maxFrame);
    }
  }

  lemma FullMore(frame: Frame, rest: seq<Frame>, maxFrame: nat)
    requires |frame.payload| == maxFrame && AllFull(rest, maxFrame)
    ensures AllFull([frame] + rest, maxFrame)
  {
  }

  lemma {:induction false} FlushAllLimits(s: Scheduler, order: seq<nat>)
    requires Sane(s)
    ensures var t := FlushAll(s, order).0;
            t.closed == s.closed && t.initial == s.initial && t.maxFrame == s.maxFrame && t.encoder == s.encoder
    decreases |order|
  {
    hide Flush;
    if order != [] {
      var first := if order[0] in s.streams && s.streams[order[0]].submitted then FlushOne(s, order[0]).0 else s;
      FlushAllLimits(first, order[1..]);
    }
  }

  /** Accepted settings are those in force afterwards, the table size within the encoder's own maximum and to be
      announced with the next block. */
  lemma SettingsTaken(s: Scheduler, op: Op)
    requires Sane(s) && op.Settings? && Step(s, op).ok
    ensures var t := Step(s, op).s;
            var size := if op.tableSize < s.encoder.maxTable then op.tableSize else s.encoder.maxTable;
            && t.initial == op.initial && t.maxFrame == op.maxFrame
            && t.encoder.limit == size && t.encoder.pending == Some(size)
  {
    hide FlushAll;
    var delta := op.initial - s.initial;
    var streams := map id | id in s.streams :: s.streams[id].(window := s.streams[id].window + delta);
    var resized := Resize(s.encoder, Min(op.tableSize, s.encoder.maxTable));
    var moved := s.(streams := streams, initial := op.initial, maxFrame := op.maxFrame, encoder := resized.value);
    FlushAllLimits(moved, op.order);
  }
}

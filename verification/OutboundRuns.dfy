/** What holds in every reachable state of the outbound scheduler: credit conservation, no stalled
    response, delivery of every accepted response, and header blocks that the peer can decompress. */
module OutboundRuns {
  import opened Bytes
  import opened Hpack
  import opened Outbound

  /** A response whose submission returned true: its compressed headers, its body, and how many of the
      stream's frames carry the headers. */
  datatype Sent = Sent(block: seq<Byte>, body: seq<Byte>, headerFrames: nat)

  /** The scheduler together with everything observed since it was constructed. */
  datatype History = History(
    s: Scheduler,
    wire: seq<Frame>,             // every frame handed to the sender, in order
    granted: nat,                 // accepted connection window increments
    grants: map<nat, nat>,        // accepted window increments of each stream since it was opened
    seen: set<nat>,             // every stream ever opened
    responses: map<nat, Sent>,    // every response whose submission returned true
    coding: seq<Hpack.Op>,        // what the header encoder was asked to do
    blocks: seq<seq<Byte>>)       // the header blocks it produced, in submission order

  function Start(initial: nat, maxFrame: nat, encoder: Codec): History {
    History(Scheduler(false, 65535, initial, maxFrame, encoder, map[]), [], 0, map[], {}, map[], [], [])
  }

  ghost function Advance(h: History, op: Outbound.Op): (r: History)
    requires Sane(h.s)
    ensures Sane(r.s)
  {
    var e := Step(h.s, op);
    var next := h.(s := e.s, wire := h.wire + e.frames);
    match op
    case Open(id) =>
      next.(seen := h.seen + {id}, grants := if id in h.s.streams then h.grants else h.grants[id := 0])
    case Submit(id, response) =>
      if !e.ok then next
      else
        var list := HeaderList(response);
        var block := EncodeBlock(h.s.encoder, list).0;
        var head := HeaderFrames(id, block, response.body == [], h.s.maxFrame, true);
        next.(responses := h.responses[id := Sent(block, response.body, |head|)],
              coding := h.coding + [Send(list)], blocks := h.blocks + [block])
    case Settings(_, _, tableSize, _) =>
      if e.ok then next.(coding := h.coding + [SetSize(Min(tableSize, h.s.encoder.maxTable))]) else next
    case UpdateConnection(increment, _) => if e.ok then next.(granted := h.granted + increment) else next
    case UpdateStream(id, increment) =>
      if e.ok then next.(grants := h.grants[id := (if id in h.grants then h.grants[id] else 0) + increment]) else next
    case _ => next
  }

  /** What the session does: it never opens a stream again once it is gone, and a map iteration visits
      every stream of the map. */
  ghost predicate Allowed(h: History, op: Outbound.Op) {
    && (op.Open? ==> op.id !in h.seen || op.id in h.s.streams)
    && (op.Settings? || op.UpdateConnection? ==> forall id :: id in h.s.streams ==> id in op.order)
  }

  // ---- the invariant ----

  /** The frames of one stream, in wire order. */
  function Of(wire: seq<Frame>, id: nat): seq<Frame> {
    if wire == [] then []
    else (if wire[0].id == id then [wire[0]] else []) + Of(wire[1..], id)
  }

  function DataTotal(wire: seq<Frame>): nat {
    if wire == [] then 0
    else (if wire[0].kind == Data then |wire[0].payload| else 0) + DataTotal(wire[1..])
  }

  ghost predicate StreamOk(h: History, id: nat)
    requires id in h.s.streams
  {
    var st := h.s.streams[id];
    && id in h.grants && id in h.seen
    && st.window + st.offset == h.s.initial + h.grants[id]
    && h.s.initial - MAX_WINDOW <= st.window <= MAX_WINDOW
    && (st.submitted <==> id in h.responses)
  }

  ghost predicate HeaderForm(frames: seq<Frame>) {
    && frames != []
    && forall i :: 0 <= i < |frames| ==>
         && frames[i].kind == (if i == 0 then Headers else Continuation)
         && (frames[i].endHeaders <==> i == |frames| - 1)
  }

  ghost predicate AllData(frames: seq<Frame>) {
    forall i :: 0 <= i < |frames| ==> frames[i].kind == Data
  }

  /** The frames seen for a submitted response: a header block, then DATA that spells a prefix of the
      body; END_STREAM is on the last frame exactly when all of the body is there. */
  ghost predicate Delivered(log: seq<Frame>, r: Sent) {
    && r.headerFrames <= |log|
    && HeaderForm(log[..r.headerFrames]) && Payload(log[..r.headerFrames]) == r.block
    && AllData(log[r.headerFrames..]) && Payload(log[r.headerFrames..]) <= r.body
    && EndsOnce(log, Payload(log[r.headerFrames..]) == r.body)
  }

  ghost predicate LogOk(h: History, id: nat) {
    if id !in h.responses then Of(h.wire, id) == []
    else
      var r := h.responses[id];
      && id in h.seen && Delivered(Of(h.wire, id), r)
      && (id in h.s.streams ==>
            var st := h.s.streams[id];
            && st.submitted && st.body == r.body && st.offset < |st.body|
            && Payload(Of(h.wire, id)[r.headerFrames..]) == st.body[..st.offset])
  }

  ghost predicate Stalled(h: History, id: nat)
    requires id in h.s.streams
  {
    h.s.streams[id].window <= 0 || h.s.connection == 0
  }

  /** No response outside `pending` could send more now. */
  ghost predicate NoStall(h: History, pending: set<nat>) {
    forall id :: id in h.s.streams && id !in pending && h.s.streams[id].submitted ==> Stalled(h, id)
  }

  ghost predicate Credit(h: History) {
    && 0 <= h.s.connection <= MAX_WINDOW && h.s.initial <= MAX_WINDOW
    && h.s.connection + DataTotal(h.wire) == 65535 + h.granted
    && forall id :: id in h.s.streams ==> StreamOk(h, id)
  }

  ghost predicate Logs(h: History) {
    forall id :: LogOk(h, id)
  }

  /** All but the stall condition, which holds only between steps. */
  ghost predicate Inv(h: History) {
    && Sane(h.s) && Credit(h) && Logs(h)
    && (h.s.closed ==> h.s.streams == map[])
  }

  // ---- filtering ----

  lemma {:induction false} OfAppend(a: seq<Frame>, b: seq<Frame>, id: nat)
    ensures Of(a + b, id) == Of(a, id) + Of(b, id)
  {
    if a == [] {
      assert a + b == b;
    } else {
      assert (a + b)[1..] == a[1..] + b && (a + b)[0] == a[0];
      OfAppend(a[1..], b, id);
      Assoc(if a[0].id == id then [a[0]] else [], Of(a[1..], id), Of(b, id));
    }
  }

  lemma {:induction false} OfOwn(frames: seq<Frame>, id: nat, other: nat)
    requires forall i :: 0 <= i < |frames| ==> frames[i].id == id
    ensures Of(frames, other) == if other == id then frames else []
  {
    if frames != [] {
      OfOwn(frames[1..], id, other);
      assert [frames[0]] + frames[1..] == frames;
    }
  }

  lemma {:induction false} DataTotalAppend(a: seq<Frame>, b: seq<Frame>)
    ensures DataTotal(a + b) == DataTotal(a) + DataTotal(b)
  {
    if a == [] {
      assert a + b == b;
    } else {
      assert (a + b)[1..] == a[1..] + b;
      DataTotalAppend(a[1..], b);
    }
  }

  lemma {:induction false} DataTotalOf(frames: seq<Frame>, data: bool)
    requires forall i :: 0 <= i < |frames| ==> (frames[i].kind == Data <==> data)
    ensures DataTotal(frames) == if data then |Payload(frames)| else 0
  {
    if frames != [] {
      DataTotalOf(frames[1..], data);
    }
  }

  // ---- flushing one stream ----

  /** The history after flushing one stream. */
  ghost function Flushing(h: History, id: nat): (r: History)
    requires Sane(h.s) && id in h.s.streams
    ensures Sane(r.s)
  {
    var f := FlushOne(h.s, id);
    h.(s := f.0, wire := h.wire + f.1)
  }

  lemma EndsOnceAppend(log: seq<Frame>, frames: seq<Frame>, ended: bool)
    requires EndsOnce(log, false) && EndsOnce(frames, ended)
    ensures EndsOnce(log + frames, ended)
  {
  }

  lemma FlushedLog(log: seq<Frame>, r: Sent, from: nat, to: nat, frames: seq<Frame>, id: nat, maxFrame: nat)
    requires Delivered(log, r) && from <= to <= |r.body| && from < |r.body|
    requires Payload(log[r.headerFrames..]) == r.body[..from]
    requires Payload(frames) == r.body[from..to]
    requires DataOnly(frames, id, maxFrame) && EndsOnce(frames, to == |r.body|)
    ensures Delivered(log + frames, r)
    ensures Payload((log + frames)[r.headerFrames..]) == r.body[..to]
  {
    hide EndsOnce;
    var k := r.headerFrames;
    EndsOnceAppend(log, frames, to == |r.body|);
    assert (log + frames)[..k] == log[..k];
    assert (log + frames)[k..] == log[k..] + frames;
    PayloadAppend(log[k..], frames);
    assert r.body[..from] + r.body[from..to] == r.body[..to];
    assert r.body[..to] == r.body <==> to == |r.body|;
    assert r.body[..from] != r.body;
  }

  /** Flushing a stream keeps the invariant and leaves that stream with nothing it could send. */
  lemma FlushingCredit(h: History, id: nat)
    requires Inv(h) && id in h.s.streams
    ensures Credit(Flushing(h, id))
  {
    hide Flush, Payload, Of, DataTotal, LogOk;
    var st := h.s.streams[id];
    var f := Flush(id, st, h.s.connection, h.s.maxFrame);
    FlushCredit(id, st, h.s.connection, h.s.maxFrame);
    FlushShape(id, st, h.s.connection, h.s.maxFrame);
    DataTotalAppend(h.wire, f.frames);
    DataTotalOf(f.frames, true);
    var n := Flushing(h, id);
    forall other | other in n.s.streams ensures StreamOk(n, other) {
      assert StreamOk(h, other);
    }
  }

  lemma FlushingLogs(h: History, id: nat)
    requires Inv(h) && id in h.s.streams
    ensures Logs(Flushing(h, id))
  {
    hide Flush, Payload, Of, DataTotal, Delivered, EndsOnce;
    var st := h.s.streams[id];
    var f := Flush(id, st, h.s.connection, h.s.maxFrame);
    FlushCredit(id, st, h.s.connection, h.s.maxFrame);
    FlushShape(id, st, h.s.connection, h.s.maxFrame);
    var n := Flushing(h, id);
    forall other ensures LogOk(n, other) {
      assert LogOk(h, other);
      OfAppend(h.wire, f.frames, other);
      OfOwn(f.frames, id, other);
      if other == id && id in h.responses {
        FlushedLog(Of(h.wire, id), h.responses[id], st.offset, f.stream.offset, f.frames, id, h.s.maxFrame);
      } else if other == id {
        assert StreamOk(h, id);
        FlushStops(id, st, h.s.connection, h.s.maxFrame);
        assert Of(h.wire, id) + [] == Of(h.wire, id);
      } else {
        assert Of(h.wire, other) + [] == Of(h.wire, other);
      }
    }
  }

  lemma FlushingKeeps(h: History, id: nat, pending: set<nat>)
    requires Inv(h) && id in h.s.streams && NoStall(h, pending)
    ensures Inv(Flushing(h, id)) && NoStall(Flushing(h, id), pending - {id})
    ensures forall other :: other in Flushing(h, id).s.streams ==> other in h.s.streams
  {
    hide Flush, Payload, Of, DataTotal, Delivered, EndsOnce, LogOk, StreamOk;
    FlushingCredit(h, id);
    FlushingLogs(h, id);
    FlushCredit(id, h.s.streams[id], h.s.connection, h.s.maxFrame);
  }

  // ---- flushing all streams ----

  ghost function FlushingAll(h: History, order: seq<nat>): (r: History)
    requires Sane(h.s)
    ensures Sane(r.s)
    decreases |order|
  {
    if order == [] then h
    else if order[0] in h.s.streams && h.s.streams[order[0]].submitted
    then FlushingAll(Flushing(h, order[0]), order[1..])
    else FlushingAll(h, order[1..])
  }

  lemma {:induction false} FlushingAllIsFlushAll(h: History, order: seq<nat>)
    requires Sane(h.s)
    ensures var f := FlushAll(h.s, order); FlushingAll(h, order) == h.(s := f.0, wire := h.wire + f.1)
    decreases |order|
  {
    if order == [] {
      assert h.wire + [] == h.wire;
    } else if order[0] in h.s.streams && h.s.streams[order[0]].submitted {
      var f := FlushOne(h.s, order[0]);
      FlushingAllIsFlushAll(Flushing(h, order[0]), order[1..]);
      Assoc(h.wire, f.1, FlushAll(f.0, order[1..]).1);
    } else {
      FlushingAllIsFlushAll(h, order[1..]);
      assert [] + FlushAll(h.s, order[1..]).1 == FlushAll(h.s, order[1..]).1;
    }
  }

  lemma {:induction false} FlushingAllKeeps(h: History, order: seq<nat>, pending: set<nat>)
    requires Inv(h) && NoStall(h, pending)
    requires forall id :: id in pending && id in h.s.streams && h.s.streams[id].submitted ==> id in order
    ensures Inv(FlushingAll(h, order)) && NoStall(FlushingAll(h, order), {})
    decreases |order|
  {
    hide FlushOne, Credit, Logs;
    if order != [] {
      var id := order[0];
      assert forall x :: x in order ==> x == id || x in order[1..];
      if id in h.s.streams && h.s.streams[id].submitted {
        FlushingKeeps(h, id, pending);
        FlushingOthers(h, id);
        FlushingAllKeeps(Flushing(h, id), order[1..], pending - {id});
      } else {
        FlushingAllKeeps(h, order[1..], pending);
      }
    }
  }

  lemma FlushingOthers(h: History, id: nat)
    requires Sane(h.s) && id in h.s.streams
    ensures forall other :: other in Flushing(h, id).s.streams && other != id ==>
              other in h.s.streams && Flushing(h, id).s.streams[other] == h.s.streams[other]
  {
  }

  // ---- steps ----

  /** The invariant together with the absence of stalls: what holds between locked sections. */
  ghost predicate Good(h: History) {
    Inv(h) && NoStall(h, {})
  }

  lemma OpenKeeps(h: History, id: nat)
    requires Good(h) && Allowed(h, Open(id))
    ensures Good(Advance(h, Open(id)))
  {
    hide Of, Delivered;
    var n := Advance(h, Open(id));
    assert n.wire == h.wire;
    forall other | other in n.s.streams ensures StreamOk(n, other) {
      assert other in h.s.streams ==> StreamOk(h, other);
      assert LogOk(h, other);
    }
    forall other ensures LogOk(n, other) {
      assert LogOk(h, other);
    }
  }

  lemma CloseKeeps(h: History, op: Outbound.Op)
    requires Good(h) && (op.CloseStream? || op.Close?)
    ensures Good(Advance(h, op))
  {
    hide Of, Delivered;
    var n := Advance(h, op);
    assert n.wire == h.wire;
    forall other | other in n.s.streams ensures StreamOk(n, other) {
      assert StreamOk(h, other);
    }
    forall other ensures LogOk(n, other) {
      assert LogOk(h, other);
    }
  }

  lemma UpdateConnectionKeeps(h: History, increment: nat, order: seq<nat>)
    requires Good(h) && Allowed(h, UpdateConnection(increment, order))
    ensures Good(Advance(h, UpdateConnection(increment, order)))
  {
    hide Of, Delivered, FlushAll, DataTotal;
    var n := Advance(h, UpdateConnection(increment, order));
    if Step(h.s, UpdateConnection(increment, order)).ok {
      var m := h.(s := h.s.(connection := h.s.connection + increment), granted := h.granted + increment);
      forall other | other in m.s.streams ensures StreamOk(m, other) {
        assert StreamOk(h, other);
      }
      forall other ensures LogOk(m, other) {
        assert LogOk(h, other);
      }
      FlushingAllKeeps(m, order, m.s.streams.Keys);
      FlushingAllIsFlushAll(m, order);
    } else {
      assert n == h.(wire := h.wire + []);
      assert h.wire + [] == h.wire;
    }
  }

  lemma UpdateStreamKeeps(h: History, id: nat, increment: nat)
    requires Good(h)
    ensures Good(Advance(h, UpdateStream(id, increment)))
  {
    hide Of, Delivered, FlushOne, DataTotal;
    var n := Advance(h, UpdateStream(id, increment));
    if Step(h.s, UpdateStream(id, increment)).ok {
      assert StreamOk(h, id);
      var st := h.s.streams[id];
      var m := h.(s := h.s.(streams := h.s.streams[id := st.(window := st.window + increment)]),
                  grants := h.grants[id := h.grants[id] + increment]);
      forall other | other in m.s.streams ensures StreamOk(m, other) {
        assert StreamOk(h, other);
      }
      forall other ensures LogOk(m, other) {
        assert LogOk(h, other);
      }
      FlushingKeeps(m, id, {id});
      assert {id} - {id} == {};
    } else {
      assert h.wire + [] == h.wire;
    }
  }

  /** The windows moved and the limits replaced, before anything is flushed. */
  lemma MovedKeeps(h: History, m: History, delta: int)
    requires Good(h) && MIN_FRAME <= m.s.maxFrame <= MAX_FRAME && m.s.initial <= MAX_WINDOW
    requires m == h.(s := h.s.(streams := m.s.streams, initial := m.s.initial, maxFrame := m.s.maxFrame, encoder := m.s.encoder))
    requires m.s.initial == h.s.initial + delta && |m.s.encoder.statics| > 0
    requires forall id :: id in h.s.streams ==> h.s.streams[id].window + delta <= MAX_WINDOW
    requires m.s.streams == map id | id in h.s.streams :: h.s.streams[id].(window := h.s.streams[id].window + delta)
    ensures Inv(m) && NoStall(m, m.s.streams.Keys)
  {
    hide Of, Delivered, DataTotal;
    forall other | other in m.s.streams ensures StreamOk(m, other) {
      assert StreamOk(h, other);
    }
    forall other ensures LogOk(m, other) {
      assert LogOk(h, other);
    }
  }

  lemma SettingsKeeps(h: History, op: Outbound.Op)
    requires Good(h) && op.Settings? && Allowed(h, op)
    ensures Good(Advance(h, op))
  {
    hide FlushAll, Credit, Logs, NoStall, EncodeBlock, HeaderList, HeaderFrames, Evicted;
    GoodConnection(h);
    var n := Advance(h, op);
    if Step(h.s, op).ok {
      var delta := op.initial - h.s.initial;
      var streams := map id | id in h.s.streams :: h.s.streams[id].(window := h.s.streams[id].window + delta);
      var encoder := Resize(h.s.encoder, Min(op.tableSize, h.s.encoder.maxTable)).value;
      var m := h.(s := h.s.(streams := streams, initial := op.initial, maxFrame := op.maxFrame, encoder := encoder));
      MovedKeeps(h, m, delta);
      FlushingAllKeeps(m, op.order, m.s.streams.Keys);
      FlushingAllIsFlushAll(m, op.order);
      Recoded(FlushingAll(m, op.order), n);
    } else {
      assert h.wire + [] == h.wire;
    }
  }

  lemma Recoded(a: History, b: History)
    requires Good(a) && b == a.(coding := b.coding, blocks := b.blocks)
    ensures Good(b)
  {
    hide Of, Delivered, DataTotal;
    forall other | other in b.s.streams ensures StreamOk(b, other) {
      assert StreamOk(a, other);
    }
    forall other ensures LogOk(b, other) {
      assert LogOk(a, other);
    }
  }

  lemma HeaderLog(id: nat, block: seq<Byte>, body: seq<Byte>, maxFrame: nat)
    requires maxFrame > 0
    ensures var head := HeaderFrames(id, block, body == [], maxFrame, true);
            && Delivered(head, Sent(block, body, |head|)) && Payload(head[|head|..]) == []
            && (forall i :: 0 <= i < |head| ==> head[i].id == id && head[i].kind != Data)
  {
    var head := HeaderFrames(id, block, body == [], maxFrame, true);
    HeaderFacts(id, block, body == [], maxFrame, true);
    assert head[..|head|] == head && head[|head|..] == [];
  }

  /** The history once the header block is out and before the body is flushed. */
  ghost function Announced(h: History, id: nat, response: Response): History
    requires Sane(h.s) && id in h.s.streams
  {
    var list := HeaderList(response);
    var (block, encoder) := EncodeBlock(h.s.encoder, list);
    var head := HeaderFrames(id, block, response.body == [], h.s.maxFrame, true);
    var st := h.s.streams[id].(submitted := true, body := response.body);
    h.(s := h.s.(encoder := encoder, streams := h.s.streams[id := st]),
       wire := h.wire + head,
       responses := h.responses[id := Sent(block, response.body, |head|)],
       coding := h.coding + [Send(list)], blocks := h.blocks + [block])
  }

  lemma AnnouncedLog(h: History, id: nat, response: Response, other: nat)
    requires Inv(h) && id in h.s.streams && !h.s.streams[id].submitted
    ensures var m := Announced(h, id, response);
            if other != id then LogOk(m, other)
            else
              && id in m.responses && id in m.seen && Delivered(Of(m.wire, id), m.responses[id])
              && m.responses[id].body == response.body
              && Payload(Of(m.wire, id)[m.responses[id].headerFrames..]) == []
  {
    hide Of, Delivered, DataTotal, HeaderFrames, HeaderList, EncodeBlock;
    assert LogOk(h, other) && StreamOk(h, id);
    var m := Announced(h, id, response);
    var block := EncodeBlock(h.s.encoder, HeaderList(response)).0;
    var head := HeaderFrames(id, block, response.body == [], h.s.maxFrame, true);
    HeaderLog(id, block, response.body, h.s.maxFrame);
    OfAppend(h.wire, head, other);
    OfOwn(head, id, other);
    assert Of(h.wire, other) + [] == Of(h.wire, other) && [] + head == head;
  }

  lemma AnnouncedCredit(h: History, id: nat, response: Response)
    requires Inv(h) && id in h.s.streams && !h.s.streams[id].submitted
    ensures Credit(Announced(h, id, response)) && Sane(Announced(h, id, response).s)
  {
    hide Of, Delivered, DataTotal, HeaderFrames, HeaderList, EncodeBlock;
    var m := Announced(h, id, response);
    var block := EncodeBlock(h.s.encoder, HeaderList(response)).0;
    var head := HeaderFrames(id, block, response.body == [], h.s.maxFrame, true);
    HeaderLog(id, block, response.body, h.s.maxFrame);
    DataTotalAppend(h.wire, head);
    DataTotalOf(head, false);
    forall other | other in m.s.streams ensures StreamOk(m, other) {
      assert StreamOk(h, other);
    }
  }

  lemma SubmitKeeps(h: History, id: nat, response: Response)
    requires Good(h)
    ensures Good(Advance(h, Submit(id, response)))
  {
    hide Of, Delivered, DataTotal, HeaderFrames, HeaderList, EncodeBlock, Flush;
    var n := Advance(h, Submit(id, response));
    if Step(h.s, Submit(id, response)).ok {
      var m := Announced(h, id, response);
      AnnouncedCredit(h, id, response);
      Assoc(h.wire, m.wire[|h.wire|..], FlushOne(m.s, id).1);
      assert m.wire == h.wire + m.wire[|h.wire|..];
      forall other | other != id ensures LogOk(m, other) {
        AnnouncedLog(h, id, response, other);
      }
      AnnouncedLog(h, id, response, id);
      if response.body == [] {
        FlushStops(id, m.s.streams[id], m.s.connection, m.s.maxFrame);
        SubmittedEmpty(h, m, n, id);
      } else {
        assert m.s.streams[id].body[..0] == [];
        assert LogOk(m, id);
        FlushingKeeps(m, id, {id});
        assert {id} - {id} == {};
        assert n == Flushing(m, id);
      }
    } else {
      assert h.wire + [] == h.wire;
    }
  }

  /** A response without a body is complete with its headers, and its stream is gone. */
  lemma SubmittedEmpty(h: History, m: History, n: History, id: nat)
    requires Good(h) && Credit(m) && Sane(m.s) && id in m.s.streams
    requires m.s.connection == h.s.connection && h.s.closed == m.s.closed
    requires h.s.closed ==> m.s.streams == map[]
    requires n == m.(s := m.s.(streams := m.s.streams - {id}))
    requires forall other :: other != id && other in m.s.streams ==>
               other in h.s.streams && m.s.streams[other] == h.s.streams[other]
    requires forall other :: other != id ==> LogOk(m, other)
    requires id in m.responses && id in m.seen && Delivered(Of(m.wire, id), m.responses[id])
    ensures Good(n)
  {
    hide Of, Delivered, DataTotal;
    forall other | other in n.s.streams ensures StreamOk(n, other) {
      assert StreamOk(m, other);
    }
    forall other ensures LogOk(n, other) {
      assert other != id ==> LogOk(m, other);
    }
  }

  /** Every allowed step preserves the invariant and leaves no response stalled. */
  lemma AdvanceKeeps(h: History, op: Outbound.Op)
    requires Good(h) && Allowed(h, op)
    ensures Good(Advance(h, op))
  {
    hide Good, Advance, Allowed;
    match op
    case Open(id) => OpenKeeps(h, id);
    case CloseStream(_) => CloseKeeps(h, op);
    case Close => CloseKeeps(h, op);
    case Submit(id, response) => SubmitKeeps(h, id, response);
    case Settings(_, _, _, _) => SettingsKeeps(h, op);
    case UpdateConnection(increment, order) => UpdateConnectionKeeps(h, increment, order);
    case UpdateStream(id, increment) => UpdateStreamKeeps(h, id, increment);
  }

  // ---- whole runs ----

  ghost function Run(h: History, ops: seq<Outbound.Op>): (r: History)
    requires Sane(h.s)
    ensures Sane(r.s)
    decreases |ops|
  {
    if ops == [] then h else Run(Advance(h, ops[0]), ops[1..])
  }

  ghost predicate AllowedRun(h: History, ops: seq<Outbound.Op>)
    requires Sane(h.s)
    decreases |ops|
  {
    ops == [] || (Allowed(h, ops[0]) && AllowedRun(Advance(h, ops[0]), ops[1..]))
  }

  /** A constructed scheduler: the window and frame size the constructor accepts. */
  ghost predicate Constructed(h: History) {
    Sane(h.s) &&
    exists initial: nat, maxFrame: nat, encoder: Codec ::
      && initial <= MAX_WINDOW && MIN_FRAME <= maxFrame <= MAX_FRAME && |encoder.statics| > 0
      && h == Start(initial, maxFrame, encoder)
  }

  lemma {:induction false} RunKeeps(h: History, ops: seq<Outbound.Op>)
    requires Good(h) && AllowedRun(h, ops)
    ensures Good(Run(h, ops))
    decreases |ops|
  {
    hide Credit, Logs, NoStall, Advance, Allowed;
    if ops != [] {
      AdvanceKeeps(h, ops[0]);
      RunKeeps(Advance(h, ops[0]), ops[1..]);
    }
  }

  /** In every reachable state the credit equations hold, every accepted response is delivered as far
      as its octets are on the wire, and no response waits although both windows are open. */
  lemma EveryReachableStateIsGood(h: History, ops: seq<Outbound.Op>)
    requires Constructed(h) && AllowedRun(h, ops)
    ensures Good(Run(h, ops))
  {
    assert Good(h) by {
      forall id ensures LogOk(h, id) {
      }
    }
    RunKeeps(h, ops);
  }

  /** No-stall, spelled out: a submitted response with unsent body has no stream credit or finds no
      connection credit. */
  lemma NoLostWakeup(h: History, ops: seq<Outbound.Op>, id: nat)
    requires Constructed(h) && AllowedRun(h, ops)
    requires var s := Run(h, ops).s; id in s.streams && s.streams[id].submitted
    ensures var s := Run(h, ops).s;
            s.streams[id].offset < |s.streams[id].body| && (s.streams[id].window <= 0 || s.connection == 0)
  {
    EveryReachableStateIsGood(h, ops);
    var n := Run(h, ops);
    assert StreamOk(n, id) && LogOk(n, id);
  }

  /** Conservation, spelled out: window plus what was charged to it is what was granted. */
  lemma CreditConserved(h: History, ops: seq<Outbound.Op>)
    requires Constructed(h) && AllowedRun(h, ops)
    ensures var n := Run(h, ops);
            && n.s.connection + DataTotal(n.wire) == 65535 + n.granted
            && 0 <= n.s.connection <= MAX_WINDOW
            && forall id :: id in n.s.streams ==>
                 && id in n.grants
                 && n.s.streams[id].window + n.s.streams[id].offset == n.s.initial + n.grants[id]
                 && n.s.streams[id].window <= MAX_WINDOW
  {
    EveryReachableStateIsGood(h, ops);
    var n := Run(h, ops);
    forall id | id in n.s.streams ensures StreamOk(n, id) {
    }
  }

  /** Delivery, spelled out: the frames of an accepted response are its header block, then a prefix of
      its body, closed by END_STREAM on the very last frame exactly when the body is complete. A stream
      that still exists has sent exactly its offset. */
  lemma ResponsesDelivered(h: History, ops: seq<Outbound.Op>, id: nat)
    requires Constructed(h) && AllowedRun(h, ops)
    ensures var n := Run(h, ops);
            if id !in n.responses then Of(n.wire, id) == []
            else
              && Delivered(Of(n.wire, id), n.responses[id])
              && (id in n.s.streams ==>
                    Payload(Of(n.wire, id)[n.responses[id].headerFrames..]) == n.s.streams[id].body[..n.s.streams[id].offset])
  {
    EveryReachableStateIsGood(h, ops);
    assert LogOk(Run(h, ops), id);
  }

  // ---- header blocks on the wire ----

  /** The header blocks a peer reassembles from the frames; `partial` is an unfinished block. */
  function Reassemble(wire: seq<Frame>, partial: seq<Byte>): seq<seq<Byte>> {
    if wire == [] then []
    else if wire[0].kind == Data then Reassemble(wire[1..], partial)
    else if wire[0].endHeaders then [partial + wire[0].payload] + Reassemble(wire[1..], [])
    else Reassemble(wire[1..], partial + wire[0].payload)
  }

  function Unfinished(wire: seq<Frame>, partial: seq<Byte>): seq<Byte> {
    if wire == [] then partial
    else if wire[0].kind == Data then Unfinished(wire[1..], partial)
    else if wire[0].endHeaders then Unfinished(wire[1..], [])
    else Unfinished(wire[1..], partial + wire[0].payload)
  }

  lemma {:induction false} ReassembleAppend(a: seq<Frame>, b: seq<Frame>, partial: seq<Byte>)
    ensures Reassemble(a + b, partial) == Reassemble(a, partial) + Reassemble(b, Unfinished(a, partial))
    ensures Unfinished(a + b, partial) == Unfinished(b, Unfinished(a, partial))
  {
    if a == [] {
      assert a + b == b;
    } else {
      assert (a + b)[1..] == a[1..] + b;
      if a[0].kind == Data {
        ReassembleAppend(a[1..], b, partial);
      } else if a[0].endHeaders {
        ReassembleAppend(a[1..], b, []);
      } else {
        ReassembleAppend(a[1..], b, partial + a[0].payload);
      }
    }
  }

  lemma {:induction false} ReassembleData(frames: seq<Frame>)
    requires AllData(frames)
    ensures Reassemble(frames, []) == [] && Unfinished(frames, []) == []
  {
    if frames != [] {
      ReassembleData(frames[1..]);
    }
  }

  lemma {:induction false} ReassembleHeader(id: nat, block: seq<Byte>, end: bool, maxFrame: nat, first: bool, partial: seq<Byte>)
    requires maxFrame > 0
    ensures var head := HeaderFrames(id, block, end, maxFrame, first);
            Reassemble(head, partial) == [partial + block] && Unfinished(head, partial) == []
    decreases |block|
  {
    var head := HeaderFrames(id, block, end, maxFrame, first);
    if |block| > maxFrame {
      ReassembleHeader(id, block[maxFrame..], end, maxFrame, false, partial + block[..maxFrame]);
      assert head[1..] == HeaderFrames(id, block[maxFrame..], end, maxFrame, false);
      assert partial + block[..maxFrame] + block[maxFrame..] == partial + block;
    } else {
      assert head[1..] == [];
    }
  }

  lemma FlushOneData(s: Scheduler, id: nat)
    requires Sane(s) && id in s.streams && s.connection >= 0
    ensures AllData(FlushOne(s, id).1) && FlushOne(s, id).0.encoder == s.encoder && FlushOne(s, id).0.connection >= 0
  {
    hide Flush;
    FlushShape(id, s.streams[id], s.connection, s.maxFrame);
    FlushCredit(id, s.streams[id], s.connection, s.maxFrame);
  }

  lemma {:induction false} FlushAllData(s: Scheduler, order: seq<nat>)
    requires Sane(s) && s.connection >= 0
    ensures AllData(FlushAll(s, order).1) && FlushAll(s, order).0.encoder == s.encoder
    decreases |order|
  {
    hide FlushOne;
    if order != [] {
      if order[0] in s.streams && s.streams[order[0]].submitted {
        FlushOneData(s, order[0]);
        FlushAllData(FlushOne(s, order[0]).0, order[1..]);
      } else {
        FlushAllData(s, order[1..]);
      }
    }
  }

  lemma {:induction false} EncodeRunAppend(c: Codec, ops: seq<Hpack.Op>, op: Hpack.Op)
    requires |c.statics| > 0
    ensures var (codes, mid) := EncodeRun(c, ops);
            && |mid.statics| > 0
            && EncodeRun(c, ops + [op]) == (codes + EncodeRun(mid, [op]).0, EncodeRun(mid, [op]).1)
    decreases |ops|
  {
    hide EncodeBlock, Resize;
    if ops == [] {
      assert ops + [op] == [op];
      assert [] + EncodeRun(c, [op]).0 == EncodeRun(c, [op]).0;
    } else {
      assert (ops + [op])[1..] == ops[1..] + [op];
      match ops[0]
      case SetSize(size) =>
        ResizeStatics(c, size);
        EncodeRunAppend(if Resize(c, size).Some? then Resize(c, size).value else c, ops[1..], op);
      case Send(headers) =>
        var (code, next) := EncodeBlock(c, headers);
        EncodeRunAppend(next, ops[1..], op);
        var (codes, mid) := EncodeRun(next, ops[1..]);
        Assoc([code], codes, EncodeRun(mid, [op]).0);
    }
  }

  lemma ResizeStatics(c: Codec, size: nat)
    ensures Resize(c, size).Some? ==> Resize(c, size).value.statics == c.statics
  {
  }

  /** The record of the encoder is a run of the encoder, and the wire carries exactly its blocks. */
  ghost predicate Coded(h: History, encoder: Codec)
    requires |encoder.statics| > 0
  {
    && EncodeRun(encoder, h.coding) == (h.blocks, h.s.encoder)
    && Reassemble(h.wire, []) == h.blocks && Unfinished(h.wire, []) == []
  }

  lemma DataKeepsCoded(h: History, encoder: Codec, n: History)
    requires |encoder.statics| > 0 && Coded(h, encoder)
    requires n.coding == h.coding && n.blocks == h.blocks && n.s.encoder == h.s.encoder
    requires h.wire <= n.wire && AllData(n.wire[|h.wire|..])
    ensures Coded(n, encoder)
  {
    hide EncodeRun;
    var more := n.wire[|h.wire|..];
    assert n.wire == h.wire + more;
    ReassembleAppend(h.wire, more, []);
    ReassembleData(more);
  }

  lemma SubmitKeepsCoded(h: History, encoder: Codec, id: nat, response: Response)
    requires Good(h) && |encoder.statics| > 0 && Coded(h, encoder)
    requires Step(h.s, Submit(id, response)).ok
    ensures Coded(Advance(h, Submit(id, response)), encoder)
  {
    hide EncodeBlock, HeaderList, HeaderFrames, FlushOne, Credit, Logs, NoStall;
    var n := Advance(h, Submit(id, response));
    var m := Announced(h, id, response);
    var list := HeaderList(response);
    var block := EncodeBlock(h.s.encoder, list).0;
    var head := HeaderFrames(id, block, response.body == [], h.s.maxFrame, true);
    assert Coded(m, encoder) by {
      EncodeRunAppend(encoder, h.coding, Send(list));
      SingleSend(h.s.encoder, list);
      ReassembleAppend(h.wire, head, []);
      ReassembleHeader(id, block, response.body == [], h.s.maxFrame, true, []);
      assert [] + block == block;
    }
    assert h.s.connection >= 0 && Sane(m.s) by {
      GoodConnection(h);
      AnnouncedCredit(h, id, response);
    }
    FlushOneData(m.s, id);
    Assoc(h.wire, head, FlushOne(m.s, id).1);
    assert n.wire[|m.wire|..] == FlushOne(m.s, id).1;
    DataKeepsCoded(m, encoder, n);
  }

  lemma GoodConnection(h: History)
    requires Good(h)
    ensures h.s.connection >= 0 && Inv(h)
  {
  }

  lemma SingleSend(c: Codec, list: seq<Entry>)
    requires |c.statics| > 0
    ensures EncodeRun(c, [Send(list)]) == ([EncodeBlock(c, list).0], EncodeBlock(c, list).1)
  {
    hide EncodeBlock;
    assert [Send(list)][1..] == [];
    assert EncodeRun(EncodeBlock(c, list).1, []) == ([], EncodeBlock(c, list).1);
    assert [EncodeBlock(c, list).0] + [] == [EncodeBlock(c, list).0];
  }

  lemma SettingsKeepsCoded(h: History, encoder: Codec, op: Outbound.Op)
    requires Good(h) && |encoder.statics| > 0 && Coded(h, encoder)
    requires op.Settings? && Step(h.s, op).ok
    ensures Coded(Advance(h, op), encoder)
  {
    hide FlushAll, Credit, Logs, NoStall, Resize;
    GoodConnection(h);
    var n := Advance(h, op);
    var size := Min(op.tableSize, h.s.encoder.maxTable);
    ResizeOk(h.s.encoder, size);
    var resized := Resize(h.s.encoder, size).value;
    EncodeRunAppend(encoder, h.coding, SetSize(size));
    assert [Hpack.SetSize(size)][1..] == [];
    assert EncodeRun(h.s.encoder, [SetSize(size)]) == ([], resized);
    var delta := op.initial - h.s.initial;
    var streams := map id | id in h.s.streams :: h.s.streams[id].(window := h.s.streams[id].window + delta);
    var moved := h.s.(streams := streams, initial := op.initial, maxFrame := op.maxFrame, encoder := resized);
    FlushAllData(moved, op.order);
    var m := h.(s := moved, coding := n.coding);
    assert h.blocks + [] == h.blocks;
    DataKeepsCoded(m, encoder, n);
  }

  lemma ResizeOk(c: Codec, size: nat)
    requires size <= c.maxTable
    ensures Resize(c, size).Some? && Resize(c, size).value.statics == c.statics
  {
  }

  lemma UpdateKeepsCoded(h: History, encoder: Codec, op: Outbound.Op)
    requires Good(h) && |encoder.statics| > 0 && Coded(h, encoder)
    requires op.UpdateConnection? || op.UpdateStream?
    ensures Coded(Advance(h, op), encoder)
  {
    hide FlushAll, FlushOne, Credit, Logs, NoStall, Coded;
    GoodConnection(h);
    var n := Advance(h, op);
    if Step(h.s, op).ok {
      if op.UpdateConnection? {
        FlushAllData(h.s.(connection := h.s.connection + op.increment), op.order);
      } else {
        var st := h.s.streams[op.id];
        FlushOneData(h.s.(streams := h.s.streams[op.id := st.(window := st.window + op.increment)]), op.id);
      }
    }
    DataKeepsCoded(h, encoder, n);
  }

  lemma AdvanceKeepsCoded(h: History, encoder: Codec, op: Outbound.Op)
    requires Good(h) && |encoder.statics| > 0 && Coded(h, encoder)
    ensures Coded(Advance(h, op), encoder)
  {
    hide Credit, Logs, NoStall, Coded, FlushAll, FlushOne;
    if op.UpdateConnection? || op.UpdateStream? {
      UpdateKeepsCoded(h, encoder, op);
    } else if op.Submit? && Step(h.s, op).ok {
      SubmitKeepsCoded(h, encoder, op.id, op.response);
    } else if op.Settings? && Step(h.s, op).ok {
      SettingsKeepsCoded(h, encoder, op);
    } else {
      DataKeepsCoded(h, encoder, Advance(h, op));
    }
  }

  lemma {:induction false} RunKeepsCoded(h: History, encoder: Codec, ops: seq<Outbound.Op>)
    requires Good(h) && AllowedRun(h, ops) && |encoder.statics| > 0 && Coded(h, encoder)
    ensures Coded(Run(h, ops), encoder)
    decreases |ops|
  {
    hide Credit, Logs, NoStall, Advance, Allowed, Coded;
    if ops != [] {
      AdvanceKeeps(h, ops[0]);
      AdvanceKeepsCoded(h, encoder, ops[0]);
      RunKeepsCoded(Advance(h, ops[0]), encoder, ops[1..]);
    }
  }

  /** A peer that reassembles header blocks from the frames on the wire and decompresses them with an
      equally configured decoder gets exactly the header lists of the accepted responses, in order,
      whatever window updates, settings and resets came in between. */
  lemma PeerReadsHeaders(initial: nat, maxFrame: nat, code: TextCode, statics: seq<Entry>, maxTable: nat, maxList: nat,
                         ops: seq<Outbound.Op>)
    requires initial <= MAX_WINDOW && MIN_FRAME <= maxFrame <= MAX_FRAME
    requires 0 < |statics| <= 0x1_0000 && maxTable < UINT32
    requires var codec := Fresh(code, statics, maxTable, maxList);
             && AllowedRun(Start(initial, maxFrame, codec), ops)
             && Admissible(codec, Run(Start(initial, maxFrame, codec), ops).coding)
    ensures var codec := Fresh(code, statics, maxTable, maxList);
            var n := Run(Start(initial, maxFrame, codec), ops);
            DecodeRun(codec, Reassemble(n.wire, [])) == Some(Hpack.Sent(n.coding))
  {
    hide Credit, Logs, NoStall, Advance, Allowed, Run, AllowedRun, EncodeRun, DecodeRun, Admissible;
    var codec := Fresh(code, statics, maxTable, maxList);
    var h := Start(initial, maxFrame, codec);
    StartIsGood(initial, maxFrame, codec);
    RunKeepsCoded(h, codec, ops);
    Synchrony(code, statics, maxTable, maxList, Run(h, ops).coding);
  }

  lemma StartIsGood(initial: nat, maxFrame: nat, encoder: Codec)
    requires initial <= MAX_WINDOW && MIN_FRAME <= maxFrame <= MAX_FRAME && |encoder.statics| > 0
    ensures Good(Start(initial, maxFrame, encoder)) && Coded(Start(initial, maxFrame, encoder), encoder)
  {
    forall id ensures LogOk(Start(initial, maxFrame, encoder), id) {
    }
  }

  // ---- single steps ----

  /** A refused request changes nothing and sends nothing. */
  lemma ClosedStep(s: Scheduler, op: Outbound.Op)
    requires Sane(s) && s.closed && s.streams == map[]
    ensures Step(s, op).s.closed && Step(s, op).s.streams == map[] && Step(s, op).frames == []
  {
    hide FlushAll, FlushOne, EncodeBlock, HeaderList, HeaderFrames;
  }

  /** Once closed, the scheduler has no streams and sends nothing, whatever it is asked. */
  lemma {:induction false} ClosedForGood(h: History, ops: seq<Outbound.Op>)
    requires Sane(h.s) && h.s.closed && h.s.streams == map[]
    ensures Run(h, ops).wire == h.wire && Run(h, ops).s.streams == map[]
    decreases |ops|
  {
    hide Step, EncodeBlock, HeaderFrames, HeaderList;
    if ops != [] {
      ClosedStep(h.s, ops[0]);
      assert h.wire + [] == h.wire;
      ClosedForGood(Advance(h, ops[0]), ops[1..]);
    }
  }

  lemma CloseEnds(h: History, ops: seq<Outbound.Op>)
    requires Sane(h.s)
    ensures Run(Advance(h, Close), ops).wire == h.wire && Run(Advance(h, Close), ops).s.streams == map[]
  {
    hide Run;
    ClosedForGood(Advance(h, Close), ops);
    assert h.wire + [] == h.wire;
  }

  /** Exactly which operations are refused: a response without a stream that waits for it, settings out of range or
      that would take a window past 2^31-1, an increment of zero, past that limit, or for no stream; all once closed. */
  lemma RefusedIff(s: Scheduler, op: Outbound.Op)
    requires Sane(s)
    ensures !Step(s, op).ok <==>
            match op
            case Submit(id, _) => s.closed || id !in s.streams || s.streams[id].submitted
            case Settings(initial, maxFrame, _, _) =>
              || s.closed || initial > 0x7fff_ffff || maxFrame < 16384 || maxFrame > 16777215
              || exists id :: id in s.streams && s.streams[id].window - s.initial + initial > 0x7fff_ffff
            case UpdateConnection(increment, _) => s.closed || increment == 0 || s.connection + increment > 0x7fff_ffff
            case UpdateStream(id, increment) =>
              s.closed || increment == 0 || id !in s.streams || s.streams[id].window + increment > 0x7fff_ffff
            case _ => false
  {
    hide FlushAll, FlushOne, EncodeBlock, HeaderList, HeaderFrames;
  }

  lemma RefusedChangesNothing(s: Scheduler, op: Outbound.Op)
    requires Sane(s) && !Step(s, op).ok
    ensures Step(s, op).s == s && Step(s, op).frames == []
  {
    hide FlushOne, FlushAll, EncodeBlock, HeaderList, HeaderFrames;
  }

  ghost predicate Within(frames: seq<Frame>, maxFrame: nat) {
    forall i :: 0 <= i < |frames| ==> |frames[i].payload| <= maxFrame
  }

  lemma {:induction false} FlushAllWithin(s: Scheduler, order: seq<nat>)
    requires Sane(s) && s.connection >= 0
    ensures Within(FlushAll(s, order).1, s.maxFrame) && FlushAll(s, order).0.maxFrame == s.maxFrame
    decreases |order|
  {
    hide Flush;
    if order != [] {
      var id := order[0];
      if id in s.streams && s.streams[id].submitted {
        FlushShape(id, s.streams[id], s.connection, s.maxFrame);
        FlushCredit(id, s.streams[id], s.connection, s.maxFrame);
        FlushAllWithin(FlushOne(s, id).0, order[1..]);
      } else {
        FlushAllWithin(s, order[1..]);
      }
    }
  }

  /** Every frame a step emits is within the frame size in force when it is emitted. */
  lemma FramesWithinLimit(s: Scheduler, op: Outbound.Op)
    requires Sane(s) && s.connection >= 0
    ensures Within(Step(s, op).frames, Step(s, op).s.maxFrame)
  {
    hide Flush, FlushAll, EncodeBlock, HeaderList, HeaderFrames;
    var e := Step(s, op);
    if e.ok {
      if op.Submit? {
        var (block, encoder) := EncodeBlock(s.encoder, HeaderList(op.response));
        HeaderFacts(op.id, block, op.response.body == [], s.maxFrame, true);
        var st := s.streams[op.id].(submitted := true, body := op.response.body);
        FlushShape(op.id, st, s.connection, s.maxFrame);
      } else if op.UpdateStream? {
        var st := s.streams[op.id];
        FlushShape(op.id, st.(window := st.window + op.increment), s.connection, s.maxFrame);
      } else if op.UpdateConnection? {
        FlushAllWithin(s.(connection := s.connection + op.increment), op.order);
      } else if op.Settings? {
        SettingsWithin(s, op);
      }
    }
  }

  lemma SettingsWithin(s: Scheduler, op: Outbound.Op)
    requires Sane(s) && s.connection >= 0 && op.Settings?
    ensures Within(Step(s, op).frames, Step(s, op).s.maxFrame)
  {
    hide FlushAll;
    if Step(s, op).ok {
      var delta := op.initial - s.initial;
      var streams := map id | id in s.streams :: s.streams[id].(window := s.streams[id].window + delta);
      var encoder := Resize(s.encoder, Min(op.tableSize, s.encoder.maxTable)).value;
      FlushAllWithin(s.(streams := streams, initial := op.initial, maxFrame := op.maxFrame, encoder := encoder), op.order);
    }
  }

  // ---- does an open stream wait for its response? ----

  lemma {:induction false} FlushAllSkips(s: Scheduler, order: seq<nat>, id: nat)
    requires Sane(s) && id in s.streams && !s.streams[id].submitted
    ensures id in FlushAll(s, order).0.streams && !FlushAll(s, order).0.streams[id].submitted
    decreases |order|
  {
    hide Flush;
    if order != [] {
      if order[0] in s.streams && s.streams[order[0]].submitted {
        FlushAllSkips(FlushOne(s, order[0]).0, order[1..], id);
      } else {
        FlushAllSkips(s, order[1..], id);
      }
    }
  }

  /** The operations that take away an open stream that has no response yet. */
  ghost predicate Removes(s: Scheduler, op: Outbound.Op, id: nat)
    requires id in s.streams
  {
    || op == Close || op == CloseStream(id)
    || (op.UpdateStream? && op.id == id && !s.closed && op.increment > 0
        && s.streams[id].window + op.increment <= MAX_WINDOW)
  }

  /** An open stream waits for its response exactly until it is closed or gets a window update: the
      update flushes without asking whether a response was submitted, and so drops the stream. */
  lemma WaitingStreamKeptIff(s: Scheduler, op: Outbound.Op, id: nat)
    requires Sane(s) && id in s.streams && !s.streams[id].submitted && !(op.Submit? && op.id == id)
    ensures id in Step(s, op).s.streams <==> !Removes(s, op, id)
  {
    hide FlushAll, Flush, EncodeBlock, HeaderList, HeaderFrames, Evicted;
    if op.UpdateConnection? && Step(s, op).ok {
      FlushAllSkips(s.(connection := s.connection + op.increment), op.order, id);
    } else if op.Settings? && Step(s, op).ok {
      var delta := op.initial - s.initial;
      var streams := map id | id in s.streams :: s.streams[id].(window := s.streams[id].window + delta);
      var encoder := Resize(s.encoder, Min(op.tableSize, s.encoder.maxTable)).value;
      FlushAllSkips(s.(streams := streams, initial := op.initial, maxFrame := op.maxFrame, encoder := encoder), op.order, id);
    } else if op.UpdateStream? && op.id == id && Step(s, op).ok {
      var st := s.streams[id];
      FlushStops(id, st.(window := st.window + op.increment), s.connection, s.maxFrame);
    }
  }

  /** Opening stream 1, granting it one octet and then answering: the answer is refused. */
  lemma EarlyWindowUpdateLosesStream(encoder: Codec, response: Response)
    requires |encoder.statics| > 0
    ensures var h := Start(65535, 16384, encoder);
            var n := Advance(Advance(h, Open(1)), UpdateStream(1, 1));
            1 !in n.s.streams && !Step(n.s, Submit(1, response)).ok
  {
    hide EncodeBlock, HeaderList, HeaderFrames, Flush;
    var h := Advance(Start(65535, 16384, encoder), Open(1));
    WaitingStreamKeptIff(h.s, UpdateStream(1, 1), 1);
  }
}

/** Header blocks on the wire: in every run, HEADERS and its CONTINUATION frames follow each other directly,
    with no frame of any stream in between (section 4.3 of RFC 9113). */
module OutboundWire {
  import opened Bytes
  import opened Hpack
  import opened Outbound
  import opened OutboundRuns

  /** The stream whose header block a frame leaves open. */
  function Leaves(f: Frame): Option<nat> {
    if f.kind == Data || f.endHeaders then None else Some(f.id)
  }

  /** An open block takes only its own CONTINUATION; without one there is none. */
  predicate Fitting(f: Frame, open: Option<nat>) {
    if open.Some? then f.kind == Continuation && f.id == open.value else f.kind != Continuation
  }

  /** Every frame fits what the frames before it left open, and none is left open at the end. */
  predicate Contiguous(wire: seq<Frame>, open: Option<nat>) {
    if wire == [] then open == None
    else Fitting(wire[0], open) && Contiguous(wire[1..], Leaves(wire[0]))
  }

  lemma {:induction false} ContiguousAppend(a: seq<Frame>, b: seq<Frame>, open: Option<nat>)
    requires Contiguous(a, open) && Contiguous(b, None)
    ensures Contiguous(a + b, open)
    decreases |a|
  {
    if a == [] {
      assert a + b == b;
    } else {
      assert (a + b)[1..] == a[1..] + b;
      ContiguousAppend(a[1..], b, Leaves(a[0]));
    }
  }

  lemma {:induction false} DataContiguous(frames: seq<Frame>)
    requires AllData(frames)
    ensures Contiguous(frames, None)
    decreases |frames|
  {
    if frames != [] {
      DataContiguous(frames[1..]);
    }
  }

  lemma {:induction false} HeaderContiguous(id: nat, block: seq<Byte>, end: bool, maxFrame: nat, first: bool)
    requires maxFrame > 0
    ensures Contiguous(HeaderFrames(id, block, end, maxFrame, first), if first then None else Some(id))
    decreases |block|
  {
    var frames := HeaderFrames(id, block, end, maxFrame, first);
    if |block| > maxFrame {
      HeaderContiguous(id, block[maxFrame..], end, maxFrame, false);
      assert frames[1..] == HeaderFrames(id, block[maxFrame..], end, maxFrame, false);
    } else {
      assert frames[1..] == [];
    }
  }

  /** The frames of one operation. */
  lemma StepContiguous(h: History, op: Outbound.Op)
    requires Good(h)
    ensures Contiguous(Step(h.s, op).frames, None)
  {
    hide Credit, Logs, NoStall, EncodeBlock, HeaderList, HeaderFrames, FlushAll, FlushOne, Contiguous;
    GoodConnection(h);
    DataContiguous([]);
    if Step(h.s, op).ok {
      match op
      case Submit(id, response) => SubmitContiguous(h, id, response);
      case Settings(_, _, _, _) => SettingsContiguous(h, op);
      case UpdateConnection(increment, order) =>
        FlushAllData(h.s.(connection := h.s.connection + increment), order);
        DataContiguous(Step(h.s, op).frames);
      case UpdateStream(id, increment) =>
        var st := h.s.streams[id];
        FlushOneData(h.s.(streams := h.s.streams[id := st.(window := st.window + increment)]), id);
        DataContiguous(Step(h.s, op).frames);
      case _ =>
    }
  }

  lemma SubmitContiguous(h: History, id: nat, response: Response)
    requires Good(h) && Step(h.s, Submit(id, response)).ok
    ensures Contiguous(Step(h.s, Submit(id, response)).frames, None)
  {
    hide Credit, Logs, NoStall, EncodeBlock, HeaderList, HeaderFrames, FlushOne, Contiguous;
    GoodConnection(h);
    var m := Announced(h, id, response);
    var block := EncodeBlock(h.s.encoder, HeaderList(response)).0;
    AnnouncedCredit(h, id, response);
    FlushOneData(m.s, id);
    HeaderContiguous(id, block, response.body == [], h.s.maxFrame, true);
    DataContiguous(FlushOne(m.s, id).1);
    ContiguousAppend(HeaderFrames(id, block, response.body == [], h.s.maxFrame, true), FlushOne(m.s, id).1, None);
  }

  lemma SettingsContiguous(h: History, op: Outbound.Op)
    requires Good(h) && op.Settings? && Step(h.s, op).ok
    ensures Contiguous(Step(h.s, op).frames, None)
  {
    hide Credit, Logs, NoStall, FlushAll, Contiguous, Resize;
    GoodConnection(h);
    var size := Min(op.tableSize, h.s.encoder.maxTable);
    ResizeOk(h.s.encoder, size);
    var delta := op.initial - h.s.initial;
    var streams := map id | id in h.s.streams :: h.s.streams[id].(window := h.s.streams[id].window + delta);
    var moved := h.s.(streams := streams, initial := op.initial, maxFrame := op.maxFrame,
                      encoder := Resize(h.s.encoder, size).value);
    FlushAllData(moved, op.order);
    DataContiguous(Step(h.s, op).frames);
  }

  /** Over every run. */
  lemma {:induction false} RunContiguous(h: History, ops: seq<Outbound.Op>)
    requires Good(h) && AllowedRun(h, ops) && Contiguous(h.wire, None)
    ensures Contiguous(Run(h, ops).wire, None)
    decreases |ops|
  {
    hide Credit, Logs, NoStall, Advance, Allowed, Contiguous, Step;
    if ops != [] {
      AdvanceKeeps(h, ops[0]);
      StepContiguous(h, ops[0]);
      ContiguousAppend(h.wire, Step(h.s, ops[0]).frames, None);
      WireGrows(h, ops[0]);
      RunContiguous(Advance(h, ops[0]), ops[1..]);
    }
  }

  lemma WireGrows(h: History, op: Outbound.Op)
    requires Sane(h.s)
    ensures Advance(h, op).wire == h.wire + Step(h.s, op).frames
  {
    hide Step, EncodeBlock, HeaderFrames, HeaderList;
  }

  lemma BlocksContiguous(h: History, ops: seq<Outbound.Op>)
    requires Constructed(h) && AllowedRun(h, ops)
    ensures Contiguous(Run(h, ops).wire, None)
  {
    hide Run, AllowedRun, Contiguous;
    EveryReachableStateIsGood(h, []);
    DataContiguous([]);
    RunContiguous(h, ops);
  }
}

/** The scheduler object of http2_outbound.cpp. Every method is one locked section and is proved to take
    the step of module Outbound; the frames it returns are what it hands to the sender. */
module OutboundObject {
  import opened Bytes
  import opened Hpack
  import opened HpackCodecObject
  import opened Outbound
  import opened Text

  /** A scheduler with the peer's new settings, before anything is flushed. */
  ghost function Adopted(s: Scheduler, initial: nat, maxFrame: nat, tableSize: nat): Scheduler {
    var delta := initial - s.initial;
    s.(streams := map id | id in s.streams :: s.streams[id].(window := s.streams[id].window + delta),
       initial := initial, maxFrame := maxFrame, encoder := Resize(s.encoder, Min(tableSize, s.encoder.maxTable)).value)
  }

  lemma AdoptedStep(s: Scheduler, initial: nat, maxFrame: nat, tableSize: nat, order: seq<nat>)
    requires Sane(s) && initial <= MAX_WINDOW && MIN_FRAME <= maxFrame <= MAX_FRAME && !s.closed
    requires !exists id :: id in s.streams && s.streams[id].window + (initial - s.initial) > MAX_WINDOW
    ensures Sane(Adopted(s, initial, maxFrame, tableSize))
    ensures var r := FlushAll(Adopted(s, initial, maxFrame, tableSize), order);
            Step(s, Settings(initial, maxFrame, tableSize, order)) == Effect(r.0, r.1, true)
  {
    hide FlushAll;
  }

  class H2OutboundScheduler {
    var closed: bool
    var connection: int
    var initial: nat
    var maxFrame: nat
    const encoder: HpackCodec
    var streams: map<nat, Stream>

    ghost predicate Valid()
      reads this, encoder
    {
      encoder.Valid() && Sane(Model())
    }

    ghost function Model(): Scheduler
      reads this, encoder
    {
      Scheduler(closed, connection, initial, maxFrame, encoder.Model(), streams)
    }

    constructor (initial: nat, maxFrame: nat, encoder: HpackCodec)
      requires encoder.Valid() && initial <= MAX_WINDOW && MIN_FRAME <= maxFrame <= MAX_FRAME
      ensures Valid() && this.encoder == encoder
      ensures Model() == Scheduler(false, 65535, initial, maxFrame, encoder.Model(), map[])
    {
      closed, connection, streams := false, 65535, map[];
      this.initial, this.maxFrame, this.encoder := initial, maxFrame, encoder;
    }

    /** The constructor of the source, which throws on options out of range. */
    static method Create(initial: nat, maxFrame: nat, encoder: HpackCodec) returns (r: H2OutboundScheduler?)
      requires encoder.Valid()
      ensures r == null <==> initial > MAX_WINDOW || maxFrame < MIN_FRAME || maxFrame > MAX_FRAME
      ensures r != null ==> fresh(r) && r.Valid() && r.encoder == encoder
      ensures r != null ==> r.Model() == Scheduler(false, 65535, initial, maxFrame, encoder.Model(), map[])
    {
      if initial > MAX_WINDOW || maxFrame < MIN_FRAME || maxFrame > MAX_FRAME {
        return null;
      }
      r := new H2OutboundScheduler(initial, maxFrame, encoder);
    }

    method OpenStream(id: nat)
      requires Valid()
      modifies this`streams
      ensures Valid() && Model() == Step(old(Model()), Open(id)).s
    {
      if !closed && id !in streams {
        streams := streams[id := Stream(initial, [], 0, false)];
      }
    }

    method CloseOne(id: nat)
      requires Valid()
      modifies this`streams
      ensures Valid() && Model() == Step(old(Model()), CloseStream(id)).s
    {
      streams := streams - {id};
    }

    method CloseAll()
      requires Valid()
      modifies this`streams, this`closed
      ensures Valid() && Model() == Step(old(Model()), Close).s
    {
      closed, streams := true, map[];
    }

    /** FlushStreamLocked: the loop over the credit of one stream. */
    method FlushStream(id: nat) returns (done: bool, frames: seq<Frame>)
      requires Valid() && id in streams
      modifies this`streams, this`connection
      ensures var f := Flush(id, old(streams[id]), old(connection), maxFrame);
              && streams == old(streams)[id := f.stream] && connection == f.connection && frames == f.frames
              && (done <==> f.stream.offset == |f.stream.body|)
    {
      hide Flush, HpackCodec.Decoding, HpackCodec.Valid, Strings;
      var st := streams[id];
      frames := [];
      ghost var all := Flush(id, st, connection, maxFrame);
      while st.offset < |st.body| && st.window > 0 && connection > 0
        invariant st.offset <= |st.body|
        invariant streams == old(streams)
        invariant var f := Flush(id, st, connection, maxFrame);
                  f.stream == all.stream && f.connection == all.connection && frames + f.frames == all.frames
        decreases |st.body| - st.offset
      {
        var n := Min(Min(|st.body| - st.offset, st.window), Min(connection, maxFrame));
        var frame := Frame(Data, id, false, st.offset + n == |st.body|, st.body[st.offset..st.offset + n]);
        TurnIs(id, st, connection, maxFrame, n, frame);
        Assoc(frames, [frame], Flush(id, Advanced(st, n), connection - n, maxFrame).frames);
        frames := frames + [frame];
        st := st.(offset := st.offset + n, window := st.window - n);
        connection := connection - n;
      }
      FlushStops(id, st, connection, maxFrame);
      assert frames + [] == frames;
      streams := streams[id := st];
      done := st.offset == |st.body|;
    }

    static lemma TurnIs(id: nat, st: Stream, connection: int, maxFrame: nat, n: int, frame: Frame)
      requires st.offset <= |st.body| && maxFrame > 0 && CanSend(st, connection)
      requires n == Chunk(st, connection, maxFrame) && 0 < n && st.offset + n <= |st.body|
      requires frame == Frame(Data, id, false, st.offset + n == |st.body|, st.body[st.offset..st.offset + n])
      ensures var rest := Flush(id, Advanced(st, n), connection - n, maxFrame);
              Flush(id, st, connection, maxFrame) == Flushed(rest.stream, rest.connection, [frame] + rest.frames)
    {
    }

    /** Flush one stream, then erase it if it is finished. */
    method FlushAndErase(id: nat) returns (frames: seq<Frame>)
      requires Valid() && id in streams
      modifies this`streams, this`connection
      ensures Valid() && (Model(), frames) == FlushOne(old(Model()), id)
    {
      hide Flush;
      var done;
      done, frames := FlushStream(id);
      if done {
        assert streams - {id} == old(streams) - {id};
        streams := streams - {id};
      }
    }

    /** FlushAllLocked in the map's iteration order. */
    method FlushEvery(order: seq<nat>) returns (frames: seq<Frame>)
      requires Valid()
      modifies this`streams, this`connection
      ensures Valid() && (Model(), frames) == FlushAll(old(Model()), order)
    {
      hide FlushOne;
      frames := [];
      assert order[0..] == order && [] + FlushAll(Model(), order).1 == FlushAll(Model(), order).1;
      for i := 0 to |order|
        invariant Valid()
        invariant var f := FlushAll(Model(), order[i..]);
                  FlushAll(old(Model()), order) == (f.0, frames + f.1)
      {
        assert order[i..][0] == order[i] && order[i..][1..] == order[i + 1..];
        var more: seq<Frame> := [];
        ghost var before := Model();
        if order[i] in streams && streams[order[i]].submitted {
          more := FlushAndErase(order[i]);
        }
        Assoc(frames, more, FlushAll(Model(), order[i + 1..]).1);
        frames := frames + more;
      }
      assert order[|order|..] == [] && frames + [] == frames;
    }

    /** The first half of EncodeHeaderBlockLocked: the header list. */
    method BuildHeaders(response: Response) returns (list: seq<Entry>)
      ensures list == HeaderList(response)
    {
      hide ConnectionSpecific;
      list := [Entry(Ascii(":status"), Decimal(response.status))];
      ghost var status := list;
      var headers := response.headers;
      assert headers[0..] == headers;
      for i := 0 to |headers|
        invariant list + Forwarded(headers[i..]) == status + Forwarded(headers)
      {
        assert headers[i..][0] == headers[i] && headers[i..][1..] == headers[i + 1..];
        var e := Entry(Lowercase(headers[i].name), headers[i].value);
        ghost var rest := Forwarded(headers[i + 1..]);
        if Forwardable(e.name) {
          Assoc(list, [e], rest);
          list := list + [e];
        } else {
          assert [] + rest == rest;
        }
      }
      assert list + [] == list;
    }

    /** The second half of EncodeHeaderBlockLocked: cutting the block into frames. */
    method FrameBlock(id: nat, block: seq<Byte>, end: bool) returns (frames: seq<Frame>)
      requires maxFrame > 0
      ensures frames == HeaderFrames(id, block, end, maxFrame, true)
    {
      frames := [];
      var offset: nat := 0;
      var first := true;
      assert block[0..] == block;
      while |block| - offset > maxFrame
        invariant offset <= |block|
        invariant frames + HeaderFrames(id, block[offset..], end, maxFrame, first)
                  == HeaderFrames(id, block, end, maxFrame, true)
        decreases |block| - offset
      {
        var piece := Frame(if first then Headers else Continuation, id, false, false, block[offset..offset + maxFrame]);
        assert block[offset..][..maxFrame] == block[offset..offset + maxFrame];
        assert block[offset..][maxFrame..] == block[offset + maxFrame..];
        Assoc(frames, [piece], HeaderFrames(id, block[offset + maxFrame..], end, maxFrame, false));
        frames := frames + [piece];
        offset, first := offset + maxFrame, false;
      }
      frames := frames + [Frame(if first then Headers else Continuation, id, true, end, block[offset..])];
    }

    method SubmitResponse(id: nat, response: Response) returns (ok: bool, frames: seq<Frame>)
      requires Valid()
      modifies this, encoder
      ensures Valid() && Effect(Model(), frames, ok) == Step(old(Model()), Submit(id, response))
    {
      hide FlushOne, HeaderList, EncodeBlock, HeaderFrames;
      if closed || id !in streams || streams[id].submitted {
        return false, [];
      }
      streams := streams[id := streams[id].(submitted := true, body := response.body)];
      var list := BuildHeaders(response);
      var block := encoder.Encode(list);
      var head := FrameBlock(id, block, response.body == []);
      var body := FlushAndErase(id);
      return true, head + body;
    }

    method ApplyPeerSettings(newInitial: nat, newMaxFrame: nat, tableSize: nat, order: seq<nat>)
        returns (ok: bool, frames: seq<Frame>)
      requires Valid()
      requires forall id :: id in order <==> id in streams
      requires forall i, j :: 0 <= i < j < |order| ==> order[i] != order[j]
      modifies this, encoder
      ensures Valid()
      ensures Effect(Model(), frames, ok) == Step(old(Model()), Settings(newInitial, newMaxFrame, tableSize, order))
    {
      hide FlushAll, HpackCodec.Decoding, HpackCodec.Valid, Strings, SubmitStep, Resize, Adopted;
      if newInitial > MAX_WINDOW || newMaxFrame < MIN_FRAME || newMaxFrame > MAX_FRAME || closed {
        return false, [];
      }
      var delta := newInitial - initial;
      var fit := WindowsFit(delta, order);
      if !fit {
        return false, [];
      }
      ghost var before := Model();
      AdoptedStep(before, newInitial, newMaxFrame, tableSize, order);
      Adopt(newInitial, newMaxFrame, tableSize, order);
      frames := FlushEvery(order);
      return true, frames;
    }

    /** The settings that were found to fit take effect. */
    method Adopt(newInitial: nat, newMaxFrame: nat, tableSize: nat, order: seq<nat>)
      requires Valid() && MIN_FRAME <= newMaxFrame <= MAX_FRAME
      requires forall id :: id in order <==> id in streams
      requires forall i, j :: 0 <= i < j < |order| ==> order[i] != order[j]
      modifies this, encoder
      ensures encoder.Valid() && Model() == Adopted(old(Model()), newInitial, newMaxFrame, tableSize)
    {
      hide HpackCodec.Decoding, Strings, Evicted;
      MoveWindows(newInitial - initial, order);
      initial, maxFrame := newInitial, newMaxFrame;
      var resized := encoder.SetSize(Min(tableSize, encoder.maxTable));
    }

    /** The first loop of ApplyPeerSettings. */
    method WindowsFit(delta: int, order: seq<nat>) returns (fit: bool)
      requires forall id :: id in order <==> id in streams
      ensures fit <==> !exists id :: id in streams && streams[id].window + delta > MAX_WINDOW
    {
      for i := 0 to |order|
        invariant forall k :: 0 <= k < i ==> order[k] in streams && streams[order[k]].window + delta <= MAX_WINDOW
      {
        assert order[i] in order;
        if streams[order[i]].window + delta > MAX_WINDOW {
          return false;
        }
      }
      return true;
    }

    /** The second loop of ApplyPeerSettings. */
    method MoveWindows(delta: int, order: seq<nat>)
      requires forall id :: id in order <==> id in streams
      requires forall i, j :: 0 <= i < j < |order| ==> order[i] != order[j]
      modifies this`streams
      ensures streams == map id | id in old(streams) :: old(streams)[id].(window := old(streams)[id].window + delta)
    {
      hide HpackCodec.Decoding, HpackCodec.Valid, Strings, Sane;
      for i := 0 to |order|
        invariant streams.Keys == old(streams).Keys
        invariant forall k :: 0 <= k < i ==>
                    streams[order[k]] == old(streams)[order[k]].(window := old(streams)[order[k]].window + delta)
        invariant forall k :: i <= k < |order| ==> order[k] in streams && streams[order[k]] == old(streams)[order[k]]
      {
        var st := streams[order[i]];
        streams := streams[order[i] := st.(window := st.window + delta)];
      }
      assert forall id :: id in streams ==> id in order;
    }

    method UpdateConnectionWindow(increment: nat, order: seq<nat>) returns (ok: bool, frames: seq<Frame>)
      requires Valid()
      modifies this
      ensures Valid()
      ensures Effect(Model(), frames, ok) == Step(old(Model()), UpdateConnection(increment, order))
    {
      hide FlushAll, HpackCodec.Decoding, Strings, SubmitStep, SettingsStep;
      if closed || increment == 0 || connection + increment > MAX_WINDOW {
        return false, [];
      }
      connection := connection + increment;
      frames := FlushEvery(order);
      return true, frames;
    }

    method UpdateStreamWindow(id: nat, increment: nat) returns (ok: bool, frames: seq<Frame>)
      requires Valid()
      modifies this
      ensures Valid()
      ensures Effect(Model(), frames, ok) == Step(old(Model()), UpdateStream(id, increment))
    {
      hide FlushOne, HpackCodec.Decoding, Strings, SubmitStep, SettingsStep;
      if closed || increment == 0 || id !in streams || streams[id].window + increment > MAX_WINDOW {
        return false, [];
      }
      streams := streams[id := streams[id].(window := streams[id].window + increment)];
      frames := FlushAndErase(id);
      return true, frames;
    }
  }
}

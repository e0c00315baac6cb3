/** Frames written by FrameCodec and read back by the session, however the octets are cut up. */
module H2Recovery {
  import opened Bytes
  import opened Frames
  import opened Protocol
  import opened H2Inbound

  datatype Frame = Frame(header: FrameHeader, payload: seq<Byte>)

  /** A frame that the header format can carry (its identifier read back as written) and the session admits. */
  predicate Fits(f: Frame, maxFrame: nat) {
    f.header.length == |f.payload| <= maxFrame && |f.payload| < 0x100_0000 && f.header.id < 0x1_0000
  }

  predicate AllFit(frames: seq<Frame>, maxFrame: nat) {
    forall i :: 0 <= i < |frames| ==> Fits(frames[i], maxFrame)
  }

  function Wire(frames: seq<Frame>): seq<Byte> {
    if frames == [] then [] else EncodeHeader(frames[0].header) + frames[0].payload + Wire(frames[1..])
  }

  /** Handling frames one after another, with no octets in sight. */
  ghost function HandleAll(s: Session, env: Env, frames: seq<Frame>): (r: Drained)
    decreases |frames|
  {
    if frames == [] || s.state != Connected then Drained(s, Wire(frames), Ready, [])
    else
      var f := frames[0];
      var r := Handle(s, env, f.header, f.payload);
      var events := [Took(f.header, f.payload)] + r.events;
      if r.status == Ready then
        var rest := HandleAll(r.s, env, frames[1..]);
        rest.(events := events + rest.events)
      else if r.status == ProtocolError then
        Drained(Fail(r.s, PROTOCOL_ERROR).0, [], CloseRequired, events + Fail(r.s, PROTOCOL_ERROR).1)
      else Drained(r.s, Wire(frames[1..]), r.status, events)
  }

  lemma FrameAhead(s: Session, env: Env, f: Frame, rest: seq<Byte>)
    requires s.state == Connected && Fits(f, s.config.maxFrame)
    ensures var buffer := EncodeHeader(f.header) + f.payload + rest;
            var total := HEADER_SIZE + |f.payload|;
            && DecodeHeader(buffer) == f.header && total <= |buffer|
            && buffer[HEADER_SIZE..total] == f.payload && buffer[total..] == rest
  {
    hide EncodeHeader, DecodeHeader;
    HeaderRoundTripIff(f.header, f.payload + rest);
    assert EncodeHeader(f.header) + f.payload + rest == EncodeHeader(f.header) + (f.payload + rest);
  }

  lemma FrameTaken(s: Session, env: Env, f: Frame, rest: seq<Byte>)
    requires s.state == Connected && Fits(f, s.config.maxFrame)
    ensures var r := Handle(s, env, f.header, f.payload);
            var events := [Took(f.header, f.payload)] + r.events;
            var total := HEADER_SIZE + |f.payload|;
            TurnOf(s, env, EncodeHeader(f.header) + f.payload + rest) ==
            if r.status == Ready then Go(r.s, total, events)
            else if r.status == ProtocolError then
              Stop(Fail(r.s, PROTOCOL_ERROR).0, total, CloseRequired, events + Fail(r.s, PROTOCOL_ERROR).1)
            else Stop(r.s, total, r.status, events)
  {
    hide Handle, EncodeHeader, DecodeHeader, Fail;
    FrameAhead(s, env, f, rest);
  }

  /** The octets of frames are taken apart into exactly those frames. */
  lemma {:induction false} DrainHandlesAll(s: Session, env: Env, frames: seq<Frame>)
    requires AllFit(frames, s.config.maxFrame) && (s.state == Connected || s.state == Closing)
    ensures Drain(s, env, Wire(frames)) == HandleAll(s, env, frames)
    decreases |frames|
  {
    hide Handle, EncodeHeader, DecodeHeader, TurnOf;
    if frames != [] && s.state == Connected {
      var f := frames[0];
      var rest := Wire(frames[1..]);
      FrameAhead(s, env, f, rest);
      FrameTaken(s, env, f, rest);
      var r := Handle(s, env, f.header, f.payload);
      if r.status == Ready {
        DrainHandlesAll(r.s, env, frames[1..]);
      }
    }
  }

  /** A client's preface followed by any frames, cut into pieces in any way that does not overflow the
      receive buffer: the session handles exactly those frames, in order, up to the first that stops it. */
  lemma FramesRecovered(s: Session, env: Env, frames: seq<Frame>, pieces: seq<seq<Byte>>)
    requires s.state == ExpectPreface && AllFit(frames, s.config.maxFrame)
    requires Flatten(pieces) == Preface() + Wire(frames) && NeverOverflows(s, env, [], pieces)
    ensures var fed := FeedAll(s, env, [], pieces);
            var all := HandleAll(s.(state := Connected), env, frames);
            fed.events == [SentSettings] + all.events && fed.status == all.status && fed.s == all.s
  {
    hide Preface, Wire, HandleAll, FrameTurn, FeedAll, NeverOverflows;
    var stream := Preface() + Wire(frames);
    assert [] + Flatten(pieces) == stream;
    FeedAllIsDrain(s, env, [], pieces);
    assert stream[..24] == Preface() && stream[24..] == Wire(frames);
    assert Preface()[..24] == Preface();
    assert TurnOf(s, env, stream) == Go(s.(state := Connected), 24, [SentSettings]);
    DrainHandlesAll(s.(state := Connected), env, frames);
  }

  lemma {:induction false} DrainShrinks(s: Session, env: Env, buffer: seq<Byte>)
    ensures |Drain(s, env, buffer).buffer| <= |buffer| && Drain(s, env, buffer).s.config == s.config
    decreases |buffer|
  {
    hide Handle, DecodeHeader, Preface;
    if buffer != [] && Reading(s) {
      match TurnOf(s, env, buffer)
      case Go(t, used, events) => DrainShrinks(t, env, buffer[used..]);
      case _ =>
    }
  }

  /** A stream no longer than the receive buffer never overflows it. */
  lemma {:induction false} ShortStreamFits(s: Session, env: Env, buffer: seq<Byte>, pieces: seq<seq<Byte>>)
    requires |buffer| + |Flatten(pieces)| <= s.config.maxBuffer
    ensures NeverOverflows(s, env, buffer, pieces)
    decreases |pieces|
  {
    hide Drain;
    if pieces != [] {
      DrainShrinks(s, env, buffer + pieces[0]);
      var first := Feed(s, env, buffer, pieces[0]);
      ShortStreamFits(first.s, env, first.buffer, pieces[1..]);
    }
  }
}

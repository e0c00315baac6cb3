/** What every run of the HTTP/2 receiver keeps, stated over the list of events since the connection
    began: stream identifiers, stream limit, receive credit, and what is dispatched. */
module H2Lifecycle {
  import opened Bytes
  import opened Frames
  import opened Protocol
  import opened Hpack
  import opened H2Inbound

  type Log = seq<Event>

  // ---- observers of the log ----

  /** The identifiers of the streams opened so far, in order. */
  function Ids(log: Log): seq<nat> {
    if log == [] then []
    else
      var e := log[|log| - 1];
      Ids(log[..|log| - 1]) + if e.OpenedStream? then [e.id] else []
  }

  /** The identifiers dispatched so far, in order. */
  function DispatchedIds(log: Log): seq<nat> {
    if log == [] then []
    else
      var e := log[|log| - 1];
      DispatchedIds(log[..|log| - 1]) + if e.Dispatched? then [e.request.id] else []
  }

  /** The unpadded DATA octets accepted for a stream, in order. */
  function DataOf(log: Log, id: nat): seq<Byte> {
    if log == [] then []
    else
      var e := log[|log| - 1];
      DataOf(log[..|log| - 1], id) + if e.AcceptedData? && e.id == id then e.data else []
  }

  /** The payload octets of accepted DATA frames, padding included, of one stream or (None) of all. */
  function FlowOf(log: Log, id: Option<nat>): nat {
    if log == [] then 0
    else
      var e := log[|log| - 1];
      FlowOf(log[..|log| - 1], id) + if e.AcceptedData? && (id == None || id == Some(e.id)) then e.flow else 0
  }

  /** The window increments sent for a stream, or for the connection (id 0). */
  function GrantsOf(log: Log, id: nat): nat {
    if log == [] then 0
    else
      var e := log[|log| - 1];
      GrantsOf(log[..|log| - 1], id) + if e.Granted? && e.id == id then e.increment else 0
  }

  /** A frame that ends the stream, or the header block, was taken off the buffer. */
  ghost predicate SawEndStream(log: Log, id: nat) {
    exists i :: 0 <= i < |log| && log[i].Took? && log[i].header.id == id
                && (log[i].header.kind == HEADERS || log[i].header.kind == DATA) && EndStream(log[i].header)
  }

  ghost predicate SawEndHeaders(log: Log, id: nat) {
    exists i :: 0 <= i < |log| && log[i].Took? && log[i].header.id == id
                && (log[i].header.kind == HEADERS || log[i].header.kind == CONTINUATION) && EndHeaders(log[i].header)
  }

  // ---- the invariant ----

  ghost predicate StreamInv(s: Session, log: Log, id: nat)
    requires id in s.streams
  {
    var st := s.streams[id];
    && 0 < id && id in Ids(log) && id !in DispatchedIds(log)
    && st.body == DataOf(log, id)
    && st.window + FlowOf(log, Some(id)) == s.config.window + GrantsOf(log, id)
    && s.config.window / 2 <= st.window <= s.config.window
    && (st.ended ==> SawEndStream(log, id))
    && (st.complete ==> SawEndHeaders(log, id))
    && (st.request.Some? ==> st.request.value.id == id)
  }

  ghost predicate IdsInv(s: Session, log: Log) {
    && (forall i, j :: 0 <= i < j < |Ids(log)| ==> Ids(log)[i] < Ids(log)[j])
    && (forall i :: 0 <= i < |Ids(log)| ==> Ids(log)[i] % 2 == 1 && Ids(log)[i] <= s.lastId)
  }

  /** Nothing was recorded for a stream that was never opened. */
  ghost predicate Unheard(log: Log, id: nat) {
    DataOf(log, id) == [] && FlowOf(log, Some(id)) == 0 && GrantsOf(log, id) == 0 && id !in DispatchedIds(log)
  }

  /** Each identifier is dispatched at most once, only when headers and stream are complete, and with
      exactly the DATA octets of its stream as body. */
  ghost predicate DispatchInv(log: Log) {
    && (forall i, j :: 0 <= i < j < |DispatchedIds(log)| ==> DispatchedIds(log)[i] != DispatchedIds(log)[j])
    && forall i :: 0 <= i < |log| && log[i].Dispatched? ==> DispatchOk(log, i)
  }

  /** After `log` a request is due: its stream was opened, its header block and the stream were ended, it
      was not dispatched before, and its body is what was accepted for the stream. */
  ghost predicate Due(log: Log, request: Request) {
    && request.id in Ids(log) && request.id !in DispatchedIds(log) && request.body == DataOf(log, request.id)
    && SawEndHeaders(log, request.id) && SawEndStream(log, request.id)
  }

  /** The dispatch at `i` was due then, and nothing was accepted for its stream since. */
  ghost predicate DispatchOk(log: Log, i: nat)
    requires i < |log| && log[i].Dispatched?
  {
    var request := log[i].request;
    Due(log[..i], request) && request.id in DispatchedIds(log) && request.body == DataOf(log, request.id)
  }

  ghost predicate Inv(s: Session, log: Log) {
    && IdsInv(s, log) && DispatchInv(log)
    && (forall id: nat :: 0 < id && id !in Ids(log) ==> Unheard(log, id))
    && |s.streams| <= s.config.maxStreams
    && s.window + FlowOf(log, None) == s.config.window + GrantsOf(log, 0)
    && s.config.window / 2 <= s.window <= s.config.window
    && (forall id :: id in s.streams ==> StreamInv(s, log, id))
    && (s.continuation.Some? ==> s.continuation.value in s.streams && !s.streams[s.continuation.value].complete)
  }

  // ---- neutral changes ----

  predicate Neutral(e: Event) {
    !e.OpenedStream? && !e.Dispatched? && !e.AcceptedData? && !e.Granted?
  }

  /** What one more event adds to each observer. */
  lemma Appended(log: Log, e: Event, id: nat)
    ensures Ids(log + [e]) == Ids(log) + (if e.OpenedStream? then [e.id] else [])
    ensures DispatchedIds(log + [e]) == DispatchedIds(log) + (if e.Dispatched? then [e.request.id] else [])
    ensures DataOf(log + [e], id) == DataOf(log, id) + (if e.AcceptedData? && e.id == id then e.data else [])
    ensures FlowOf(log + [e], Some(id)) == FlowOf(log, Some(id)) + (if e.AcceptedData? && e.id == id then e.flow else 0)
    ensures FlowOf(log + [e], None) == FlowOf(log, None) + (if e.AcceptedData? then e.flow else 0)
    ensures GrantsOf(log + [e], id) == GrantsOf(log, id) + (if e.Granted? && e.id == id then e.increment else 0)
    ensures SawEndStream(log, id) ==> SawEndStream(log + [e], id)
    ensures SawEndHeaders(log, id) ==> SawEndHeaders(log + [e], id)
  {
    var all := log + [e];
    assert all[..|all| - 1] == log;
    if SawEndStream(log, id) {
      var i :| 0 <= i < |log| && log[i].Took? && log[i].header.id == id
               && (log[i].header.kind == HEADERS || log[i].header.kind == DATA) && EndStream(log[i].header);
      assert all[i] == log[i];
    }
    if SawEndHeaders(log, id) {
      var i :| 0 <= i < |log| && log[i].Took? && log[i].header.id == id
               && (log[i].header.kind == HEADERS || log[i].header.kind == CONTINUATION) && EndHeaders(log[i].header);
      assert all[i] == log[i];
    }
  }

  lemma NeutralKeeps(s: Session, log: Log, e: Event)
    requires Inv(s, log) && Neutral(e)
    ensures Inv(s, log + [e])
  {
    hide Ids, DispatchedIds, DataOf, FlowOf, GrantsOf, SawEndStream, SawEndHeaders;
    Appended(log, e, 0);
    forall id | id in s.streams ensures StreamInv(s, log + [e], id) {
      assert StreamInv(s, log, id);
      Appended(log, e, id);
    }
    forall id: nat | 0 < id && id !in Ids(log + [e]) ensures Unheard(log + [e], id) {
      Appended(log, e, id);
      assert Unheard(log, id);
    }
    OldDispatches(log, e);
  }

  /** Requests already dispatched are untouched by an event that is not data of theirs. */
  lemma OldDispatches(log: Log, e: Event)
    requires DispatchInv(log)
    requires e.AcceptedData? ==> e.id !in DispatchedIds(log)
    ensures forall i :: 0 <= i < |log| && (log + [e])[i].Dispatched? ==> DispatchOk(log + [e], i)
  {
    hide Ids, DispatchedIds, DataOf, FlowOf, GrantsOf, Due;
    forall i | 0 <= i < |log| && (log + [e])[i].Dispatched? ensures DispatchOk(log + [e], i) {
      assert DispatchOk(log, i);
      assert (log + [e])[..i] == log[..i];
      Appended(log, e, log[i].request.id);
    }
  }

  /** Only five fields matter. */
  lemma OtherFields(s: Session, t: Session, log: Log)
    requires Inv(s, log)
    requires t.config == s.config && t.lastId == s.lastId && t.window == s.window
    requires t.continuation == s.continuation && t.streams == s.streams
    ensures Inv(t, log)
  {
    hide Ids, DispatchedIds, DataOf, FlowOf, GrantsOf, SawEndStream, SawEndHeaders, DispatchInv, Unheard;
    forall id | id in t.streams ensures StreamInv(t, log, id) {
      assert StreamInv(s, log, id);
    }
  }

  // ---- changes of the stream table ----

  lemma Without<T>(m: map<nat, T>, id: nat)
    ensures |m - {id}| <= |m|
  {
    assert (m - {id}).Keys == m.Keys - {id};
    assert m.Keys == (m.Keys - {id}) + (m.Keys * {id});
  }

  /** A stream that did not change. */
  lemma SameStream(s: Session, t: Session, log: Log, id: nat)
    requires id in s.streams && id in t.streams && t.streams[id] == s.streams[id] && t.config == s.config
    requires StreamInv(s, log, id)
    ensures StreamInv(t, log, id)
  {
    hide Ids, DispatchedIds, DataOf, FlowOf, GrantsOf, SawEndStream, SawEndHeaders;
  }

  lemma CloseKeeps(s: Session, log: Log, id: nat)
    requires Inv(s, log) && s.continuation != Some(id)
    ensures Inv(Close(s, id), log)
  {
    hide Ids, DispatchedIds, DataOf, FlowOf, GrantsOf, DispatchInv, Unheard, StreamInv;
    Without(s.streams, id);
    var t := Close(s, id);
    forall x | x in t.streams ensures StreamInv(t, log, x) {
      SameStream(s, t, log, x);
    }
  }

  /** Changing one open stream and the continuation mark. */
  lemma UpdateKeeps(s: Session, log: Log, id: nat, st: Inflow, open: Option<nat>)
    requires Inv(s, log) && id in s.streams
    requires open == None || (open == Some(id) && !st.complete)
    requires StreamInv(s.(streams := s.streams[id := st]), log, id)
    ensures Inv(s.(streams := s.streams[id := st], continuation := open), log)
  {
    hide Ids, DispatchedIds, DataOf, FlowOf, GrantsOf, DispatchInv, Unheard, StreamInv;
    var t := s.(streams := s.streams[id := st], continuation := open);
    assert t.streams.Keys == s.streams.Keys;
    forall x | x in t.streams ensures StreamInv(t, log, x) {
      SameStream(if x == id then s.(streams := s.streams[id := st]) else s, t, log, x);
    }
  }

  ghost function Opened(s: Session, id: nat): Session {
    s.(streams := s.streams[id := Inflow(s.config.window, [], [], false, false, None)], lastId := id)
  }

  lemma OpenKeeps(s: Session, log: Log, id: nat)
    requires Inv(s, log) && s.continuation == None
    requires id % 2 == 1 && id > s.lastId && id !in s.streams && |s.streams| < s.config.maxStreams
    ensures Inv(Opened(s, id), log + [OpenedStream(id)])
  {
    hide DispatchedIds, DataOf, FlowOf, GrantsOf, SawEndStream, SawEndHeaders, Ids, DispatchInv, IdsInv, StreamInv, Unheard;
    var e := OpenedStream(id);
    var t := Opened(s, id);
    Appended(log, e, 0);
    IdsGrow(s, log, id);
    assert t.streams.Keys == s.streams.Keys + {id};
    forall x | x in t.streams ensures StreamInv(t, log + [e], x) {
      if x == id {
        NewStream(s, log, id);
      } else {
        StreamKept(s, log, e, x);
        SameStream(s, t, log + [e], x);
      }
    }
    forall x: nat | 0 < x && x !in Ids(log + [e]) ensures Unheard(log + [e], x) {
      StillUnheard(log, e, x);
    }
    DispatchInvKept(log, e);
  }

  lemma NewStream(s: Session, log: Log, id: nat)
    requires 0 < id && Unheard(log, id)
    ensures StreamInv(Opened(s, id), log + [OpenedStream(id)], id)
  {
    hide Ids, DispatchedIds, DataOf, FlowOf, GrantsOf, SawEndStream, SawEndHeaders;
    Appended(log, OpenedStream(id), id);
  }

  lemma IdsGrow(s: Session, log: Log, id: nat)
    requires IdsInv(s, log) && id % 2 == 1 && id > s.lastId
    ensures id !in Ids(log) && IdsInv(Opened(s, id), log + [OpenedStream(id)])
  {
    hide Ids, DispatchedIds, DataOf, FlowOf, GrantsOf, SawEndStream, SawEndHeaders;
    Appended(log, OpenedStream(id), 0);
  }

  // ---- the handlers ----

  /** An event that is no data and no grant of a stream leaves what is recorded of it. */
  lemma StreamKept(s: Session, log: Log, e: Event, id: nat)
    requires id in s.streams && StreamInv(s, log, id) && !e.AcceptedData? && !e.Granted?
    requires e.Dispatched? ==> e.request.id != id
    ensures StreamInv(s, log + [e], id)
  {
    hide Ids, DispatchedIds, DataOf, FlowOf, GrantsOf, SawEndStream, SawEndHeaders;
    Appended(log, e, id);
  }

  lemma DispatchAdds(s: Session, log: Log, id: nat, e: Event)
    requires Inv(s, log) && s.continuation == None && id in s.streams
    requires s.streams[id].complete && s.streams[id].ended && s.streams[id].request.Some?
    requires e.Dispatched? && e.request == s.streams[id].request.value.(body := s.streams[id].body)
    ensures Inv(Close(s, id), log + [e])
  {
    hide DispatchedIds, DataOf, FlowOf, GrantsOf, SawEndStream, SawEndHeaders, Ids, DispatchInv, StreamInv, IdsInv, Unheard;
    Without(s.streams, id);
    var t := Close(s, id);
    Appended(log, e, 0);
    ReadyToDispatch(s, log, id);
    forall x | x in t.streams ensures StreamInv(t, log + [e], x) {
      StreamKept(s, log, e, x);
      SameStream(s, t, log + [e], x);
    }
    forall x: nat | 0 < x && x !in Ids(log + [e]) ensures Unheard(log + [e], x) {
      StillUnheard(log, e, x);
    }
    SameIds(s, t, log, log + [e]);
    DispatchOnce(log, e);
  }

  lemma ReadyToDispatch(s: Session, log: Log, id: nat)
    requires id in s.streams && StreamInv(s, log, id)
    ensures var st := s.streams[id];
            && 0 < id && id in Ids(log) && id !in DispatchedIds(log) && st.body == DataOf(log, id)
            && (st.ended ==> SawEndStream(log, id)) && (st.complete ==> SawEndHeaders(log, id))
            && (st.request.Some? ==> st.request.value.id == id)
  {
  }

  lemma StillUnheard(log: Log, e: Event, id: nat)
    requires Unheard(log, id) && !e.AcceptedData? && !e.Granted? && (e.Dispatched? ==> e.request.id != id)
    ensures Unheard(log + [e], id)
  {
    hide Ids, DispatchedIds, DataOf, FlowOf, GrantsOf, SawEndStream, SawEndHeaders;
    Appended(log, e, id);
  }

  lemma SameIds(s: Session, t: Session, log: Log, all: Log)
    requires IdsInv(s, log) && t.lastId == s.lastId && Ids(all) == Ids(log)
    ensures IdsInv(t, all)
  {
    hide Ids;
  }

  lemma DispatchOnce(log: Log, e: Event)
    requires DispatchInv(log) && e.Dispatched? && Due(log, e.request)
    ensures DispatchInv(log + [e])
  {
    hide DispatchedIds, DataOf, FlowOf, GrantsOf, SawEndStream, SawEndHeaders, Ids;
    Appended(log, e, e.request.id);
    OldDispatches(log, e);
    assert (log + [e])[..|log|] == log;
    assert DispatchOk(log + [e], |log|);
  }

  lemma DispatchKeeps(s: Session, env: Env, log: Log, id: nat)
    requires Inv(s, log) && s.continuation == None
    ensures Inv(Dispatch(s, env, id).s, log + Dispatch(s, env, id).events)
  {
    hide Inv;
    var r := Dispatch(s, env, id);
    if r.events == [] {
      assert log + [] == log;
    } else {
      var e := r.events[0];
      DispatchAdds(s, log, id, e);
      OtherFields0(Close(s, id), r.s, log + [e]);
      if |r.events| == 1 {
        assert r.events == [e];
      } else {
        NeutralKeeps(r.s, log + [e], ClosedStream(id));
        assert log + r.events == log + [e] + [ClosedStream(id)];
      }
    }
  }

  lemma OtherFields0(s: Session, t: Session, log: Log)
    requires Inv(s, log)
    requires t == s.(dispatches := t.dispatches, queries := t.queries, peer := t.peer, gotSettings := t.gotSettings,
                     state := t.state, decoder := t.decoder)
    ensures Inv(t, log)
  {
    hide Inv;
    OtherFields(s, t, log);
  }

  lemma FinishKeeps(s: Session, env: Env, log: Log, id: nat)
    requires Inv(s, log) && s.continuation == None && id in s.streams && SawEndHeaders(log, id)
    ensures Inv(FinishHeaders(s, env, id).s, log + FinishHeaders(s, env, id).events)
  {
    hide Inv, DecodeBlock, Assemble, Dispatch, SawEndHeaders;
    var st := s.streams[id];
    var out := DecodeBlock(s.decoder, st.block);
    var next := s.(decoder := out.codec);
    OtherFields0(s, next, log);
    CloseKeeps(next, log, id);
    if !out.ok {
      NeutralKeeps(Close(next, id), log, SentReset(id, COMPRESSION_ERROR));
      NeutralKeeps(Close(next, id), log + [SentReset(id, COMPRESSION_ERROR)], ClosedStream(id));
      assert log + [SentReset(id, COMPRESSION_ERROR), ClosedStream(id)]
          == log + [SentReset(id, COMPRESSION_ERROR)] + [ClosedStream(id)];
    } else {
      match Assemble(id, out.headers)
      case Malformed => assert log + [] == log;
      case Unusable => NeutralKeeps(Close(next, id), log, ClosedStream(id));
      case Usable(request) =>
        var done := st.(request := Some(request), complete := true);
        var ready := next.(streams := s.streams[id := done]);
        CompletedStream(next, log, id, done);
        UpdateKeeps(next, log, id, done, None);
        assert ready == next.(streams := next.streams[id := done], continuation := None);
        DispatchKeeps(ready, env, log, id);
        assert log + [] == log;
    }
  }

  lemma CompletedStream(s: Session, log: Log, id: nat, done: Inflow)
    requires Inv(s, log) && id in s.streams && SawEndHeaders(log, id)
    requires done == s.streams[id].(request := done.request, complete := true)
    requires done.request.Some? && done.request.value.id == id
    ensures StreamInv(s.(streams := s.streams[id := done]), log, id)
  {
    hide Ids, DispatchedIds, DataOf, FlowOf, GrantsOf, SawEndStream, SawEndHeaders, DispatchInv, Unheard;
    assert StreamInv(s, log, id);
  }

  lemma GrownStream(s: Session, log: Log, id: nat, st: Inflow)
    requires Inv(s, log) && id in s.streams
    requires st == s.streams[id].(block := st.block, ended := st.ended)
    requires st.ended ==> s.streams[id].ended || SawEndStream(log, id)
    ensures StreamInv(s.(streams := s.streams[id := st]), log, id)
  {
    hide Ids, DispatchedIds, DataOf, FlowOf, GrantsOf, SawEndStream, SawEndHeaders, DispatchInv, Unheard;
    assert StreamInv(s, log, id);
  }

  lemma FragmentKeeps(s: Session, env: Env, log: Log, h: FrameHeader, fragment: seq<Byte>, ended: bool)
    requires Inv(s, log) && h.id in s.streams && !s.streams[h.id].complete
    requires ended ==> SawEndStream(log, h.id)
    requires EndHeaders(h) ==> SawEndHeaders(log, h.id)
    ensures Inv(AddFragment(s, env, h, fragment, ended).s, log + AddFragment(s, env, h, fragment, ended).events)
  {
    hide Inv, FinishHeaders, SawEndHeaders, SawEndStream, EndHeaders;
    var st := s.streams[h.id];
    var grown := st.(block := st.block + fragment, ended := st.ended || ended);
    GrownStream(s, log, h.id, grown);
    if !EndHeaders(h) {
      UpdateKeeps(s, log, h.id, grown, Some(h.id));
      assert log + [] == log;
    } else {
      UpdateKeeps(s, log, h.id, grown, None);
      FinishKeeps(s.(streams := s.streams[h.id := grown], continuation := None), env, log, h.id);
    }
  }

  /** The frame being handled is the last thing in the log. */
  ghost predicate Current(log: Log, h: FrameHeader, p: seq<Byte>) {
    log != [] && log[|log| - 1] == Took(h, p)
  }

  lemma Sees(log: Log, h: FrameHeader, p: seq<Byte>)
    requires Current(log, h, p)
    ensures (h.kind == HEADERS || h.kind == DATA) && EndStream(h) ==> SawEndStream(log, h.id)
    ensures (h.kind == HEADERS || h.kind == CONTINUATION) && EndHeaders(h) ==> SawEndHeaders(log, h.id)
  {
    assert log[|log| - 1].header == h;
  }

  lemma ContinuationKeeps(s: Session, env: Env, log: Log, h: FrameHeader, p: seq<Byte>)
    requires Inv(s, log) && Current(log, h, p) && h.kind == CONTINUATION
    ensures Inv(HandleContinuation(s, env, h, p).s, log + HandleContinuation(s, env, h, p).events)
  {
    hide AddFragment, SawEndHeaders, SawEndStream, StreamInv, IdsInv, DispatchInv, EndHeaders, EndStream, Unheard;
    Sees(log, h, p);
    assert log + [] == log;
    if s.continuation == Some(h.id) {
      FragmentKeeps(s, env, log, h, p, false);
    }
  }

  lemma HeadersKeeps(s: Session, env: Env, log: Log, h: FrameHeader, p: seq<Byte>)
    requires Inv(s, log) && Current(log, h, p) && h.kind == HEADERS && s.continuation == None
    ensures Inv(HandleHeaders(s, env, h, p).s, log + HandleHeaders(s, env, h, p).events)
  {
    hide Inv, AddFragment, SawEndHeaders, SawEndStream, EndHeaders, EndStream, Unpad;
    var r := HandleHeaders(s, env, h, p);
    assert log + [] == log;
    if r.events != [] {
      var opening := OpenedStream(h.id);
      Sees(log, h, p);
      Appended(log, opening, h.id);
      OpenKeeps(s, log, h.id);
      match Unpad(h, p, if Priority(h) then 5 else 0)
      case None =>
      case Some(fragment) =>
        FragmentKeeps(Opened(s, h.id), env, log + [opening], h, fragment, EndStream(h));
        var f := AddFragment(Opened(s, h.id), env, h, fragment, EndStream(h));
        Assoc(log, [opening], f.events);
    }
  }

  // ---- DATA ----

  lemma DispatchInvKept(log: Log, e: Event)
    requires DispatchInv(log) && !e.Dispatched?
    requires e.AcceptedData? ==> e.id !in DispatchedIds(log)
    ensures DispatchInv(log + [e])
  {
    hide DispatchedIds, DataOf, FlowOf, GrantsOf, SawEndStream, SawEndHeaders, Ids;
    Appended(log, e, 0);
    OldDispatches(log, e);
  }

  /** What an optional grant adds. */
  lemma GrantAdds(log: Log, id: nat, increment: nat, x: nat)
    ensures var all := log + Grant(id, increment);
            && Ids(all) == Ids(log) && DispatchedIds(all) == DispatchedIds(log) && DataOf(all, x) == DataOf(log, x)
            && FlowOf(all, Some(x)) == FlowOf(log, Some(x)) && FlowOf(all, None) == FlowOf(log, None)
            && GrantsOf(all, x) == GrantsOf(log, x) + (if x == id then increment else 0)
            && (SawEndStream(log, x) ==> SawEndStream(all, x)) && (SawEndHeaders(log, x) ==> SawEndHeaders(all, x))
            && (DispatchInv(log) ==> DispatchInv(all))
  {
    hide DispatchedIds, DataOf, FlowOf, GrantsOf, SawEndStream, SawEndHeaders, Ids, DispatchInv;
    if increment == 0 {
      assert log + [] == log;
    } else {
      Appended(log, Granted(id, increment), x);
      if DispatchInv(log) {
        DispatchInvKept(log, Granted(id, increment));
      }
    }
  }

  ghost function TakenLog(log: Log, id: nat, flow: nat, data: seq<Byte>, connection: nat, stream: nat): Log {
    log + [AcceptedData(id, flow, data)] + Grant(0, connection) + Grant(id, stream)
  }

  lemma TakenAdds(log: Log, id: nat, flow: nat, data: seq<Byte>, connection: nat, stream: nat, x: nat)
    requires 0 < id && DispatchInv(log) && id !in DispatchedIds(log)
    ensures var all := TakenLog(log, id, flow, data, connection, stream);
            && Ids(all) == Ids(log) && DispatchedIds(all) == DispatchedIds(log)
            && DataOf(all, x) == DataOf(log, x) + (if x == id then data else [])
            && FlowOf(all, Some(x)) == FlowOf(log, Some(x)) + (if x == id then flow else 0)
            && FlowOf(all, None) == FlowOf(log, None) + flow
            && GrantsOf(all, x) == GrantsOf(log, x) + (if x == 0 then connection else if x == id then stream else 0)
            && (SawEndStream(log, x) ==> SawEndStream(all, x)) && (SawEndHeaders(log, x) ==> SawEndHeaders(all, x))
            && DispatchInv(all)
  {
    hide DispatchedIds, DataOf, FlowOf, GrantsOf, SawEndStream, SawEndHeaders, Ids, DispatchInv, Grant;
    var e := AcceptedData(id, flow, data);
    Appended(log, e, x);
    DispatchInvKept(log, e);
    GrantAdds(log + [e], 0, connection, x);
    GrantAdds(log + [e] + Grant(0, connection), id, stream, x);
  }

  lemma TakenKeeps(s: Session, log: Log, id: nat, flow: nat, data: seq<Byte>, ended: bool)
    requires Inv(s, log) && id in s.streams && s.continuation == None
    requires flow <= s.streams[id].window && flow <= s.window
    requires ended ==> SawEndStream(log, id)
    ensures var connection := Charge(s.window, flow, s.config.window);
            var stream := Charge(s.streams[id].window, flow, s.config.window);
            var st := s.streams[id].(window := stream.0, body := s.streams[id].body + data, ended := ended);
            Inv(s.(window := connection.0, streams := s.streams[id := st]),
                TakenLog(log, id, flow, data, connection.1, stream.1))
  {
    hide DispatchedIds, DataOf, FlowOf, GrantsOf, SawEndStream, SawEndHeaders, Ids, DispatchInv, Charge, TakenLog, StreamInv,
         Unheard, IdsInv;
    ReadyToDispatch(s, log, id);
    var connection := Charge(s.window, flow, s.config.window);
    var stream := Charge(s.streams[id].window, flow, s.config.window);
    var st := s.streams[id].(window := stream.0, body := s.streams[id].body + data, ended := ended);
    var t := s.(window := connection.0, streams := s.streams[id := st]);
    var all := TakenLog(log, id, flow, data, connection.1, stream.1);
    assert t.streams.Keys == s.streams.Keys;
    TakenAdds(log, id, flow, data, connection.1, stream.1, 0);
    SameIds(s, t, log, all);
    forall x | x in t.streams ensures StreamInv(t, all, x) {
      TakenStream(s, log, id, flow, data, ended, connection.1, x);
      SameStream(s.(streams := s.streams[id := st]), t, all, x);
    }
    forall x: nat | 0 < x && x !in Ids(all) ensures Unheard(all, x) {
      TakenUnheard(log, id, flow, data, connection.1, stream.1, x);
    }
  }

  lemma TakenStream(s: Session, log: Log, id: nat, flow: nat, data: seq<Byte>, ended: bool, grant: nat, x: nat)
    requires id in s.streams && flow <= s.streams[id].window && (ended ==> SawEndStream(log, id)) && DispatchInv(log)
    requires StreamInv(s, log, id) && x in s.streams && StreamInv(s, log, x)
    ensures var stream := Charge(s.streams[id].window, flow, s.config.window);
            var st := s.streams[id].(window := stream.0, body := s.streams[id].body + data, ended := ended);
            StreamInv(s.(streams := s.streams[id := st]), TakenLog(log, id, flow, data, grant, stream.1), x)
  {
    hide DispatchedIds, DataOf, FlowOf, GrantsOf, SawEndStream, SawEndHeaders, Ids, DispatchInv, Charge, TakenLog;
    var stream := Charge(s.streams[id].window, flow, s.config.window);
    TakenAdds(log, id, flow, data, grant, stream.1, x);
  }

  lemma TakenUnheard(log: Log, id: nat, flow: nat, data: seq<Byte>, connection: nat, stream: nat, x: nat)
    requires 0 < id && DispatchInv(log) && id !in DispatchedIds(log) && x != id && x != 0 && Unheard(log, x)
    ensures Unheard(TakenLog(log, id, flow, data, connection, stream), x)
  {
    hide DispatchedIds, DataOf, FlowOf, GrantsOf, SawEndStream, SawEndHeaders, Ids, DispatchInv, TakenLog;
    TakenAdds(log, id, flow, data, connection, stream, x);
  }

  lemma TakeKeeps(s: Session, env: Env, log: Log, h: FrameHeader, flow: nat, data: seq<Byte>)
    requires Inv(s, log) && h.id in s.streams && s.continuation == None
    requires flow <= s.streams[h.id].window && flow <= s.window
    requires EndStream(h) ==> SawEndStream(log, h.id)
    ensures Inv(TakeData(s, env, h, flow, data).s, log + TakeData(s, env, h, flow, data).events)
  {
    hide Inv, Dispatch, Charge, Grant, SawEndStream, EndStream;
    var st := s.streams[h.id];
    var connection := Charge(s.window, flow, s.config.window);
    var stream := Charge(st.window, flow, s.config.window);
    var next := st.(window := stream.0, body := st.body + data, ended := EndStream(h));
    var done := s.(window := connection.0, streams := s.streams[h.id := next]);
    var events := [AcceptedData(h.id, flow, data)] + Grant(0, connection.1) + Grant(h.id, stream.1);
    TakenKeeps(s, log, h.id, flow, data, EndStream(h));
    assert TakenLog(log, h.id, flow, data, connection.1, stream.1) == log + events;
    if EndStream(h) {
      DispatchKeeps(done, env, log + events, h.id);
      Assoc(log, events, Dispatch(done, env, h.id).events);
    }
  }

  lemma DataKeeps(s: Session, env: Env, log: Log, h: FrameHeader, p: seq<Byte>)
    requires Inv(s, log) && Current(log, h, p) && h.kind == DATA && s.continuation == None
    ensures Inv(HandleData(s, env, h, p).s, log + HandleData(s, env, h, p).events)
  {
    hide Inv, TakeData, Unpad, SawEndStream, SawEndHeaders, EndStream, EndHeaders;
    var r := HandleData(s, env, h, p);
    assert log + [] == log;
    if h.id != 0 && h.id in s.streams {
      var st := s.streams[h.id];
      Sees(log, h, p);
      CloseKeeps(s, log, h.id);
      NeutralKeeps(Close(s, h.id), log, ClosedStream(h.id));
      match Unpad(h, p, 0)
      case None =>
      case Some(data) =>
        if |p| <= st.window && |p| <= s.window {
          TakeKeeps(s, env, log, h, |p|, data);
        }
    }
  }

  // ---- the other handlers ----

  lemma SettingsKeeps(s: Session, env: Env, log: Log, h: FrameHeader, p: seq<Byte>)
    requires Inv(s, log)
    ensures Inv(HandleSettings(s, env, h, p).s, log + HandleSettings(s, env, h, p).events)
  {
    hide Inv, ReadSettings, Ack;
    var r := HandleSettings(s, env, h, p);
    assert log + [] == log;
    OtherFields0(s, r.s, log);
    if r.events != [] {
      NeutralKeeps(r.s, log, r.events[0]);
      if |r.events| == 2 {
        NeutralKeeps(r.s, log + [r.events[0]], SentAck);
        assert log + r.events == log + [r.events[0]] + [SentAck];
      } else {
        assert r.events == [r.events[0]];
      }
    }
  }

  lemma OtherKeeps(s: Session, env: Env, log: Log, h: FrameHeader, p: seq<Byte>)
    requires Inv(s, log) && s.continuation == None
    ensures Inv(HandleOther(s, h, p).s, log + HandleOther(s, h, p).events)
    ensures Inv(HandleWindowUpdate(s, env, h, p).s, log + HandleWindowUpdate(s, env, h, p).events)
  {
    hide Inv, Ack, ReadIncrement;
    var r := HandleOther(s, h, p);
    var u := HandleWindowUpdate(s, env, h, p);
    assert log + [] == log;
    OtherFields0(s, u.s, log);
    CloseKeeps(s, log, h.id);
    if h.kind == RST_STREAM {
      NeutralKeeps(Close(s, h.id), log, ClosedStream(h.id));
    } else {
      OtherFields0(s, r.s, log);
      NeutralKeeps(s, log, SentPong(p));
    }
    if u.events != [] {
      assert u.events == [u.events[0]];
      NeutralKeeps(u.s, log, u.events[0]);
    }
  }

  /** Every frame, whatever it is, keeps the invariant. */
  lemma HandleKeeps(s: Session, env: Env, log: Log, h: FrameHeader, p: seq<Byte>)
    requires Inv(s, log) && Current(log, h, p)
    ensures Inv(Handle(s, env, h, p).s, log + Handle(s, env, h, p).events)
  {
    hide Inv, HandleSettings, HandleHeaders, HandleContinuation, HandleData, HandleWindowUpdate, HandleOther, Ack;
    assert log + [] == log;
    OtherFields0(s, s.(state := Closing), log);
    if h.kind == SETTINGS {
      SettingsKeeps(s, env, log, h, p);
    } else if h.kind == CONTINUATION {
      ContinuationKeeps(s, env, log, h, p);
    } else if s.continuation == None {
      if h.kind == HEADERS {
        HeadersKeeps(s, env, log, h, p);
      } else if h.kind == DATA {
        DataKeeps(s, env, log, h, p);
      } else {
        OtherKeeps(s, env, log, h, p);
      }
    }
  }

  // ---- the order of frames ----

  /** The stream whose header block is open after a frame, if any. */
  function Next(open: Option<nat>, h: FrameHeader): Option<nat> {
    if h.kind == HEADERS || h.kind == CONTINUATION then (if EndHeaders(h) then None else Some(h.id)) else open
  }

  function OpenBlock(log: Log): Option<nat> {
    if log == [] then None
    else
      var e := log[|log| - 1];
      var before := OpenBlock(log[..|log| - 1]);
      if e.Took? then Next(before, e.header) else before
  }

  /** An open header block admits only its own CONTINUATION, and no CONTINUATION comes without one. */
  predicate Admitted(open: Option<nat>, h: FrameHeader) {
    if open.Some? then h.kind == CONTINUATION && h.id == open.value else h.kind != CONTINUATION
  }

  predicate AllAdmitted(log: Log) {
    log == [] ||
    var e := log[|log| - 1];
    var before := log[..|log| - 1];
    AllAdmitted(before) && (e.Took? ==> Admitted(OpenBlock(before), e.header))
  }

  predicate NoTook(events: seq<Event>) {
    forall i :: 0 <= i < |events| ==> !events[i].Took?
  }

  /** Only the very last frame taken may break the order; it ends the connection. */
  ghost predicate OrderlyUntilClosed(log: Log) {
    AllAdmitted(log) || exists k :: 0 <= k < |log| && AllAdmitted(log[..k]) && NoTook(log[k + 1..])
  }

  ghost predicate Ordered(s: Session, log: Log) {
    && (s.state != Closed ==> AllAdmitted(log) && s.continuation == OpenBlock(log))
    && OrderlyUntilClosed(log)
  }

  lemma {:induction false} OthersKeepBlock(log: Log, events: seq<Event>)
    requires NoTook(events)
    ensures OpenBlock(log + events) == OpenBlock(log) && (AllAdmitted(log) ==> AllAdmitted(log + events))
    decreases |events|
  {
    hide Admitted, Next;
    var all := log + events;
    if events == [] {
      assert all == log;
    } else {
      assert all[..|all| - 1] == log + events[..|events| - 1];
      OthersKeepBlock(log, events[..|events| - 1]);
    }
  }

  lemma {:induction false} OthersKeepOrder(log: Log, events: seq<Event>)
    requires NoTook(events)
    ensures OpenBlock(log + events) == OpenBlock(log) && (AllAdmitted(log) ==> AllAdmitted(log + events))
    ensures OrderlyUntilClosed(log) ==> OrderlyUntilClosed(log + events)
  {
    hide OpenBlock, AllAdmitted;
    OthersKeepBlock(log, events);
    if OrderlyUntilClosed(log) && !AllAdmitted(log) {
      var all := log + events;
      var k :| 0 <= k < |log| && AllAdmitted(log[..k]) && NoTook(log[k + 1..]);
      assert all[..k] == log[..k] && all[k + 1..] == log[k + 1..] + events;
    }
  }

  /** What a handler does to the order of frames, given the frame. */
  predicate KeepsOrder(s: Session, h: FrameHeader, r: Step) {
    && NoTook(r.events)
    && (r.status != ProtocolError ==> Admitted(s.continuation, h) && r.s.continuation == Next(s.continuation, h))
  }

  lemma FrameOrder(s: Session, env: Env, h: FrameHeader, p: seq<Byte>)
    ensures KeepsOrder(s, h, Handle(s, env, h, p))
  {
    hide HandleHeaders, HandleContinuation, HandleData, HandleSettings, ReadIncrement, EndHeaders, Ack;
    SettingsOrder(s, env, h, p);
    if h.kind == CONTINUATION {
      ContinuationOrder(s, env, h, p);
    } else if s.continuation == None {
      if h.kind == HEADERS {
        HeadersOrder(s, env, h, p);
      } else if h.kind == DATA {
        DataOrder(s, env, h, p);
      }
    }
  }

  lemma FragmentOrder(s: Session, env: Env, h: FrameHeader, fragment: seq<Byte>, ended: bool)
    requires h.id in s.streams
    ensures var r := AddFragment(s, env, h, fragment, ended);
            NoTook(r.events) && r.s.continuation == if EndHeaders(h) then None else Some(h.id)
  {
    hide FinishHeaders, EndHeaders;
    InnerOrder(env);
  }

  lemma HeadersOrder(s: Session, env: Env, h: FrameHeader, p: seq<Byte>)
    requires h.kind == HEADERS && s.continuation == None
    ensures KeepsOrder(s, h, HandleHeaders(s, env, h, p))
  {
    hide AddFragment, EndHeaders, EndStream, Unpad, Priority;
    match Unpad(h, p, if Priority(h) then 5 else 0)
    case Some(fragment) =>
      FragmentOrder(s.(streams := s.streams[h.id := Inflow(s.config.window, [], [], false, false, None)], lastId := h.id),
                    env, h, fragment, EndStream(h));
    case None =>
  }

  lemma ContinuationOrder(s: Session, env: Env, h: FrameHeader, p: seq<Byte>)
    requires h.kind == CONTINUATION
    ensures KeepsOrder(s, h, HandleContinuation(s, env, h, p))
  {
    hide AddFragment, EndHeaders;
    if h.id in s.streams {
      FragmentOrder(s, env, h, p, false);
    }
  }

  lemma NoTookAppend(a: seq<Event>, b: seq<Event>)
    requires NoTook(a) && NoTook(b)
    ensures NoTook(a + b)
  {
  }

  lemma TakeOrder(s: Session, env: Env, h: FrameHeader, flow: nat, data: seq<Byte>)
    requires h.id in s.streams && flow <= s.streams[h.id].window && flow <= s.window
    ensures var r := TakeData(s, env, h, flow, data);
            NoTook(r.events) && r.s.continuation == s.continuation
  {
    hide EndStream, Charge, Dispatch, NoTook, Grant;
    var st := s.streams[h.id];
    var connection, stream := Charge(s.window, flow, s.config.window), Charge(st.window, flow, s.config.window);
    var next := st.(window := stream.0, body := st.body + data, ended := EndStream(h));
    var done := s.(window := connection.0, streams := s.streams[h.id := next]);
    var first: seq<Event> := [AcceptedData(h.id, flow, data)];
    GrantOrder(first, 0, connection.1, h.id, stream.1);
    DispatchOrder(done, env, h.id);
    NoTookAppend(first + Grant(0, connection.1) + Grant(h.id, stream.1), Dispatch(done, env, h.id).events);
  }

  lemma GrantOrder(first: seq<Event>, a: nat, x: nat, b: nat, y: nat)
    requires |first| == 1 && !first[0].Took?
    ensures NoTook(first + Grant(a, x) + Grant(b, y))
  {
  }

  lemma DataOrder(s: Session, env: Env, h: FrameHeader, p: seq<Byte>)
    requires h.kind == DATA && s.continuation == None
    ensures KeepsOrder(s, h, HandleData(s, env, h, p))
  {
    hide Unpad, TakeData, EndHeaders, EndStream;
    match Unpad(h, p, 0)
    case Some(data) =>
      if h.id in s.streams && |p| <= s.streams[h.id].window && |p| <= s.window {
        TakeOrder(s, env, h, |p|, data);
      }
    case None =>
  }

  lemma SettingsOrder(s: Session, env: Env, h: FrameHeader, p: seq<Byte>)
    ensures NoTook(HandleSettings(s, env, h, p).events)
    ensures HandleSettings(s, env, h, p).s.continuation == s.continuation
  {
    hide ReadSettings, Ack;
  }

  lemma DispatchOrder(s: Session, env: Env, id: nat)
    ensures NoTook(Dispatch(s, env, id).events)
    ensures Dispatch(s, env, id).s.continuation == s.continuation
  {
  }

  lemma FinishOrder(s: Session, env: Env, id: nat)
    requires id in s.streams
    ensures NoTook(FinishHeaders(s, env, id).events)
    ensures FinishHeaders(s, env, id).s.continuation == s.continuation
  {
    hide DecodeBlock, Assemble, Dispatch;
    var st := s.streams[id];
    var out := DecodeBlock(s.decoder, st.block);
    if out.ok {
      match Assemble(id, out.headers)
      case Usable(request) =>
        DispatchOrder(s.(decoder := out.codec, streams := s.streams[id := st.(request := Some(request), complete := true)]),
                      env, id);
      case _ =>
    }
  }

  lemma InnerOrder(env: Env)
    ensures forall t: Session, id :: id in t.streams ==>
      NoTook(FinishHeaders(t, env, id).events) && FinishHeaders(t, env, id).s.continuation == t.continuation
    ensures forall t: Session, id :: NoTook(Dispatch(t, env, id).events) && Dispatch(t, env, id).s.continuation == t.continuation
  {
    hide FinishHeaders, Dispatch, NoTook;
    forall t: Session, id | id in t.streams
      ensures NoTook(FinishHeaders(t, env, id).events) && FinishHeaders(t, env, id).s.continuation == t.continuation
    {
      FinishOrder(t, env, id);
    }
    forall t: Session, id
      ensures NoTook(Dispatch(t, env, id).events) && Dispatch(t, env, id).s.continuation == t.continuation
    {
      DispatchOrder(t, env, id);
    }
  }

  // ---- whole runs ----

  lemma FailKeeps(s: Session, log: Log, code: nat)
    requires Inv(s, log)
    ensures Inv(Fail(s, code).0, log + Fail(s, code).1)
  {
    hide Inv;
    var t := Fail(s, code).0;
    Emptied(s, t, log);
    if s.state == Connected || s.state == Closing {
      var e := SentGoaway(s.lastId, code);
      NeutralKeeps(t, log, e);
      NeutralKeeps(t, log + [e], ClosedOutbound);
      assert log + ([e] + [ClosedOutbound]) == log + [e] + [ClosedOutbound];
    } else {
      NeutralKeeps(t, log, ClosedOutbound);
      assert log + ([] + [ClosedOutbound]) == log + [ClosedOutbound];
    }
  }

  lemma Emptied(s: Session, t: Session, log: Log)
    requires Inv(s, log) && t == s.(state := Closed, streams := map[], continuation := None)
    ensures Inv(t, log)
  {
    hide Ids, DispatchedIds, DataOf, FlowOf, GrantsOf, DispatchInv, Unheard, StreamInv;
  }

  /** What holds of a session together with everything it did since the connection began. */
  ghost predicate Good(s: Session, log: Log) {
    Inv(s, log) && Ordered(s, log)
  }

  lemma FailGood(s: Session, log: Log, code: nat)
    requires Inv(s, log) && OrderlyUntilClosed(log)
    ensures Good(Fail(s, code).0, log + Fail(s, code).1)
  {
    hide Inv, OrderlyUntilClosed;
    FailKeeps(s, log, code);
    OthersKeepOrder(log, Fail(s, code).1);
  }

  lemma TookKeeps(s: Session, env: Env, log: Log, h: FrameHeader, p: seq<Byte>)
    requires Good(s, log) && s.state != Closed
    ensures var r := Handle(s, env, h, p);
            var all := log + ([Took(h, p)] + r.events);
            Inv(r.s, all) && OrderlyUntilClosed(all) && (r.status != ProtocolError ==> Good(r.s, all))
  {
    hide Inv, Handle, Admitted, Next;
    var r := Handle(s, env, h, p);
    var taken := log + [Took(h, p)];
    assert taken[..|taken| - 1] == log && taken[|log| + 1..] == [];
    NeutralKeeps(s, log, Took(h, p));
    HandleKeeps(s, env, taken, h, p);
    FrameOrder(s, env, h, p);
    Assoc(log, [Took(h, p)], r.events);
    assert OrderlyUntilClosed(taken) by {
      assert AllAdmitted(taken[..|log|]);
    }
    OthersKeepOrder(taken, r.events);
  }

  lemma TurnKeeps(s: Session, env: Env, log: Log, buffer: seq<Byte>)
    requires Good(s, log) && Reading(s)
    ensures var t := TurnOf(s, env, buffer);
            !t.Wait? ==> Good(t.s, log + t.events)
  {
    hide Good, Fail, Handle, DecodeHeader, Preface;
    if s.state == ExpectPreface {
      PrefaceKeeps(s, log, buffer, Preface());
    } else if |buffer| >= HEADER_SIZE {
      var h := DecodeHeader(buffer);
      Aborted(s, log);
      if HEADER_SIZE + h.length <= |buffer| {
        var p := buffer[HEADER_SIZE..HEADER_SIZE + h.length];
        var r := Handle(s, env, h, p);
        TookGood(s, env, log, h, p);
        Assoc(log, [Took(h, p)] + r.events, Fail(r.s, PROTOCOL_ERROR).1);
      }
    }
  }

  lemma Aborted(s: Session, log: Log)
    requires Good(s, log)
    ensures var f := Fail(s.(state := Closing), PROTOCOL_ERROR);
            Good(f.0, log + f.1)
  {
    hide Inv, OrderlyUntilClosed, Fail;
    OtherFields0(s, s.(state := Closing), log);
    FailGood(s.(state := Closing), log, PROTOCOL_ERROR);
  }

  lemma TookGood(s: Session, env: Env, log: Log, h: FrameHeader, p: seq<Byte>)
    requires Good(s, log) && s.state != Closed
    ensures var r := Handle(s, env, h, p);
            var all := log + ([Took(h, p)] + r.events);
            var f := Fail(r.s, PROTOCOL_ERROR);
            if r.status == ProtocolError then Good(f.0, all + f.1) else Good(r.s, all)
  {
    hide Good, Inv, Handle, Fail, OrderlyUntilClosed;
    TookKeeps(s, env, log, h, p);
    var r := Handle(s, env, h, p);
    FailGood(r.s, log + ([Took(h, p)] + r.events), PROTOCOL_ERROR);
  }

  lemma PrefaceKeeps(s: Session, log: Log, buffer: seq<Byte>, preface: seq<Byte>)
    requires Good(s, log) && s.state == ExpectPreface
    ensures var t := PrefaceTurn(s, buffer, preface);
            !t.Wait? ==> Good(t.s, log + t.events)
  {
    hide Inv, Fail, OrderlyUntilClosed, AllAdmitted, OpenBlock;
    Aborted(s, log);
    OtherFields0(s, s.(state := Connected), log);
    NeutralKeeps(s.(state := Connected), log, SentSettings);
    OthersKeepOrder(log, [SentSettings]);
  }

  lemma {:induction false} DrainKeeps(s: Session, env: Env, log: Log, buffer: seq<Byte>)
    requires Good(s, log)
    ensures var r := Drain(s, env, buffer);
            Good(r.s, log + r.events)
    decreases |buffer|
  {
    hide Good, TurnOf;
    assert log + [] == log;
    if buffer != [] && Reading(s) {
      TurnKeeps(s, env, log, buffer);
      match TurnOf(s, env, buffer)
      case Go(t, used, events) =>
        DrainKeeps(t, env, log + events, buffer[used..]);
        Assoc(log, events, Drain(t, env, buffer[used..]).events);
      case _ =>
    }
  }

  lemma FeedKeeps(s: Session, env: Env, log: Log, buffer: seq<Byte>, bytes: seq<Byte>)
    requires Good(s, log)
    ensures var r := Feed(s, env, buffer, bytes);
            Good(r.s, log + r.events)
  {
    hide Inv, Drain, OrderlyUntilClosed, Fail;
    assert log + [] == log;
    if s.state != Closed {
      DrainKeeps(s, env, log, buffer + bytes);
      FailGood(s, log, ENHANCE_YOUR_CALM);
    }
  }

  /** A connection's life: any number of pieces of any content, fed whatever the results were. */
  ghost function Life(config: Config, decoder: Codec, env: Env, pieces: seq<seq<Byte>>): Drained
    decreases |pieces|
  {
    if pieces == [] then Drained(H2Inbound.Fresh(config, decoder), [], Ready, [])
    else
      var before := Life(config, decoder, env, pieces[..|pieces| - 1]);
      var r := Feed(before.s, env, before.buffer, pieces[|pieces| - 1]);
      r.(events := before.events + r.events)
  }

  lemma {:induction false} LifeIsGood(config: Config, decoder: Codec, env: Env, pieces: seq<seq<Byte>>)
    ensures var r := Life(config, decoder, env, pieces);
            Good(r.s, r.events) && r.s.config == config
    decreases |pieces|
  {
    hide Good, Feed;
    if pieces == [] {
      FreshIsGood(config, decoder);
    } else {
      var before := Life(config, decoder, env, pieces[..|pieces| - 1]);
      LifeIsGood(config, decoder, env, pieces[..|pieces| - 1]);
      FeedKeeps(before.s, env, before.events, before.buffer, pieces[|pieces| - 1]);
      FeedConfig(before.s, env, before.buffer, pieces[|pieces| - 1]);
    }
  }

  lemma FreshIsGood(config: Config, decoder: Codec)
    ensures Good(H2Inbound.Fresh(config, decoder), [])
  {
  }

  lemma FeedConfig(s: Session, env: Env, buffer: seq<Byte>, bytes: seq<Byte>)
    ensures Feed(s, env, buffer, bytes).s.config == s.config
  {
    hide Drain;
    DrainConfig(s, env, buffer + bytes);
  }

  lemma {:induction false} DrainConfig(s: Session, env: Env, buffer: seq<Byte>)
    ensures Drain(s, env, buffer).s.config == s.config
    decreases |buffer|
  {
    hide Handle, DecodeHeader, Preface;
    if buffer != [] && Reading(s) {
      match TurnOf(s, env, buffer)
      case Go(t, used, events) => DrainConfig(t, env, buffer[used..]);
      case _ =>
    }
  }

  /** Section 5.1.1 of RFC 9113 and the stream limit, in every reachable state: the streams accepted are
      odd and strictly increasing, never more open at once than allowed, and only frames that the open
      header block admits were ever handled, but for a last one that closed the connection. */
  ghost predicate OpenInOrder(s: Session, log: Log, maxStreams: nat) {
    var ids := Ids(log);
    && (forall i :: 0 <= i < |ids| ==> ids[i] % 2 == 1 && ids[i] <= s.lastId)
    && (forall i, j :: 0 <= i < j < |ids| ==> ids[i] < ids[j])
    && (forall id :: id in s.streams ==> id in ids)
    && |s.streams| <= maxStreams
    && OrderlyUntilClosed(log) && (s.state != Closed ==> AllAdmitted(log))
  }

  lemma StreamsOpenInOrder(config: Config, decoder: Codec, env: Env, pieces: seq<seq<Byte>>)
    ensures OpenInOrder(Life(config, decoder, env, pieces).s, Life(config, decoder, env, pieces).events, config.maxStreams)
  {
    hide Life, Ids, OrderlyUntilClosed, AllAdmitted, DispatchInv, Unheard;
    LifeIsGood(config, decoder, env, pieces);
    var r := Life(config, decoder, env, pieces);
    forall id | id in r.s.streams ensures id in Ids(r.events) {
      assert StreamInv(r.s, r.events, id);
    }
  }

  /** Every dispatched request was dispatched once; before that its stream had been opened and its header
      block and stream ended; and it carries exactly the octets ever accepted for its stream, in order. */
  lemma DispatchedOnce(config: Config, decoder: Codec, env: Env, pieces: seq<seq<Byte>>)
    ensures DispatchInv(Life(config, decoder, env, pieces).events)
  {
    hide Life, DispatchInv, Unheard, OrderlyUntilClosed, AllAdmitted;
    LifeIsGood(config, decoder, env, pieces);
  }

  /** Receive credit in every reachable state: each window is its initial size plus the increments
      sent minus the DATA payload lengths accepted, and lies between half its initial size and it. */
  ghost predicate Credited(s: Session, log: Log, initial: nat, id: nat) {
    && s.window == initial + GrantsOf(log, 0) - FlowOf(log, None) && initial / 2 <= s.window <= initial
    && (id in s.streams ==>
          var st := s.streams[id];
          && st.window == initial + GrantsOf(log, id) - FlowOf(log, Some(id)) && initial / 2 <= st.window <= initial
          && st.body == DataOf(log, id))
  }

  lemma AcceptedCredit(config: Config, decoder: Codec, env: Env, pieces: seq<seq<Byte>>, id: nat)
    ensures Credited(Life(config, decoder, env, pieces).s, Life(config, decoder, env, pieces).events, config.window, id)
  {
    hide Life, Ids, DispatchedIds, DataOf, FlowOf, GrantsOf, SawEndHeaders, SawEndStream, Unheard, DispatchInv,
         OrderlyUntilClosed, AllAdmitted;
    LifeIsGood(config, decoder, env, pieces);
    var r := Life(config, decoder, env, pieces);
    if id in r.s.streams {
      assert StreamInv(r.s, r.events, id);
    }
  }

  /** The flow-control check is exact: in every reachable state, a well-padded DATA frame on an open stream
      that awaits data ends the connection if and only if its payload is longer than the credit still
      outstanding for the stream or for the connection; it is refused alone if and only if it fits that
      credit but the body grows too long; and otherwise it is accepted. */
  lemma FlowCheckIff(config: Config, decoder: Codec, env: Env, pieces: seq<seq<Byte>>, h: FrameHeader, p: seq<Byte>)
    requires var r := Life(config, decoder, env, pieces);
             && r.s.gotSettings && r.s.continuation == None && 0 < h.id && h.id in r.s.streams && h.kind == DATA
             && r.s.streams[h.id].complete && !r.s.streams[h.id].ended && Unpad(h, p, 0).Some?
    ensures var r := Life(config, decoder, env, pieces);
            var log := r.events;
            var data := Unpad(h, p, 0).value;
            var fits := && |p| <= config.window + GrantsOf(log, h.id) - FlowOf(log, Some(h.id))
                        && |p| <= config.window + GrantsOf(log, 0) - FlowOf(log, None);
            var small := |DataOf(log, h.id)| + |data| <= config.maxBody;
            var step := Handle(r.s, env, h, p);
            && (!fits <==> step == Step(Close(r.s, h.id), ProtocolError, [ClosedStream(h.id)]))
            && (fits && !small <==> step == Step(Close(r.s, h.id), BufferLimit, [ClosedStream(h.id)]))
            && (fits && small <==> step.events != [] && step.events[0] == AcceptedData(h.id, |p|, data))
  {
    hide Life, DataOf, FlowOf, GrantsOf, Unpad, TakeData;
    AcceptedCredit(config, decoder, env, pieces, h.id);
    LifeIsGood(config, decoder, env, pieces);
    var s := Life(config, decoder, env, pieces).s;
    if |p| <= s.streams[h.id].window && |p| <= s.window {
      TakeReports(s, env, h, |p|, Unpad(h, p, 0).value);
    }
  }

  lemma TakeReports(s: Session, env: Env, h: FrameHeader, flow: nat, data: seq<Byte>)
    requires h.id in s.streams && flow <= s.streams[h.id].window && flow <= s.window
    ensures var events := TakeData(s, env, h, flow, data).events;
            events != [] && events[0] == AcceptedData(h.id, flow, data)
  {
    hide Dispatch, Charge, Grant;
  }
}

/** The life of one TCP connection: tcp_connection.cpp. Every section under the connection's mutex is one
    step; what the socket calls answer and when their completions arrive is up to the environment. */
module Connection {
  import opened Bytes
  import opened SendQueue

  datatype Limits = Limits(items: nat, bytes: nat, gatherSegments: nat, gatherBytes: nat, batchSegments: nat)

  datatype State = Active | Closing | Closed

  datatype Reason = PeerClosed | ReceiveError | SendError | SendQueueOverflow | ProtocolClose | HandlerError | LocalShutdown

  /** The fields of TcpConnection, then what happened so far: the octets admitted, those reported sent,
      those handed to the pending send, how often removal from the registry was triggered, and what the
      receive handler was given, call by call. */
  datatype Conn = Conn(
    limits: Limits, state: State, reason: Option<Reason>, receiving: bool, sending: bool, outstanding: nat,
    closeAfterSend: bool, queue: seq<Segment>, delivering: bool,
    admitted: seq<Byte>, sent: seq<Byte>, flight: seq<Byte>, removals: nat,
    delivered: seq<seq<Byte>>)

  function Fresh(limits: Limits): Conn {
    Conn(limits, Active, None, false, false, 0, false, [], false, [], [], [], 0, [])
  }

  /** `ok` is the answer to the socket call the step makes, if it makes one. */
  datatype Op =
    | Start(ok: bool)
    | Send(segments: seq<seq<Byte>>, close: bool, ok: bool)
    | ReceiveDone(storage: seq<Byte>, bytes: nat, error: bool)   // `bytes` octets were put into the storage
    | NextReceive(ok: bool)                        // after the receive handler returned
    | SendDone(bytes: nat, error: bool, ok: bool)
    | Close(reason: Reason)

  /** Completions come only for operations in flight, the next receive only after a delivery. */
  predicate Enabled(c: Conn, op: Op) {
    match op
    case ReceiveDone(_, _, _) => c.receiving
    case SendDone(_, _, _) => c.sending
    case NextReceive(_) => c.delivering
    case _ => true
  }

  // ---- the helpers called under the lock ----

  function BeginClose(c: Conn, reason: Reason): Conn {
    if c.state == Active then c.(state := Closing, reason := Some(reason), closeAfterSend := false) else c
  }

  /** MoveToClosedIfDrainedLocked, and the removal its caller then triggers. */
  function Settle(c: Conn): Conn {
    if c.state == Closing && c.outstanding == 0 then c.(state := Closed, queue := [], removals := c.removals + 1) else c
  }

  /** PostReceiveLocked: the connection and whether the receive was posted. */
  function PostReceive(c: Conn, ok: bool): (Conn, bool) {
    if c.state != Active || c.receiving || !ok then (c, false)
    else (c.(receiving := true, outstanding := c.outstanding + 1), true)
  }

  /** PostSendLocked: hands a gather of the queue to the socket. */
  function PostSend(c: Conn, ok: bool): (Conn, bool) {
    if c.state != Active || c.sending || c.queue == [] then (c, false)
    else
      var gather := Slices(c.queue, c.limits.gatherSegments, c.limits.gatherBytes);
      if gather == [] || !ok then (c, false)
      else (c.(sending := true, outstanding := c.outstanding + 1, flight := SliceOctets(gather)), true)
  }

  function SomeAll(segments: seq<seq<Byte>>): (r: seq<Option<seq<Byte>>>)
    ensures None !in r
  {
    if segments == [] then [] else [Some(segments[0])] + SomeAll(segments[1..])
  }

  predicate Fits(c: Conn, more: seq<Segment>) {
    && |more| <= c.limits.batchSegments
    && |c.queue| + |more| <= c.limits.items && |Octets(c.queue)| + |Octets(more)| <= c.limits.bytes
  }

  // ---- the locked sections ----

  function DoStart(c: Conn, ok: bool): Conn {
    var r := PostReceive(c, ok);
    if r.1 then r.0 else Settle(BeginClose(r.0, ReceiveError))
  }

  /** SendBatchInternal. */
  function DoSend(c: Conn, segments: seq<seq<Byte>>, close: bool, ok: bool): Conn {
    var more := Segments(SomeAll(segments));
    if more == [] then
      if close then Settle(BeginClose(c, ProtocolClose)) else c
    else if c.state != Active || c.closeAfterSend then c
    else if !Fits(c, more) then Settle(BeginClose(c, SendQueueOverflow))
    else
      var d := c.(queue := c.queue + more, admitted := c.admitted + Octets(more), closeAfterSend := close);
      if d.sending then d
      else
        var r := PostSend(d, ok);
        if r.1 then r.0 else Settle(BeginClose(r.0, SendError))
  }

  datatype SendStatus = Taken | Refused | Overflowed | StartFailed

  /** What SendBatchInternal answers. */
  function SendAnswer(c: Conn, segments: seq<seq<Byte>>, close: bool, ok: bool): SendStatus {
    var more := Segments(SomeAll(segments));
    if more == [] then Taken
    else if c.state != Active || c.closeAfterSend then Refused
    else if !Fits(c, more) then Overflowed
    else
      var d := c.(queue := c.queue + more, admitted := c.admitted + Octets(more), closeAfterSend := close);
      if d.sending || PostSend(d, ok).1 then Taken else StartFailed
  }

  /** The first section of OnReceiveComplete and, if octets are to be delivered, the call of the handler. */
  function DoReceiveDone(c: Conn, storage: seq<Byte>, bytes: nat, error: bool): Conn {
    var d := c.(receiving := false, outstanding := if c.outstanding > 0 then c.outstanding - 1 else 0);
    if error then Settle(BeginClose(d, ReceiveError))
    else if bytes == 0 then Settle(BeginClose(d, PeerClosed))
    else if bytes > |storage| then Settle(BeginClose(d, ReceiveError))
    else if d.state == Active then d.(delivering := true, delivered := c.delivered + [storage[..bytes]])
    else Settle(d)
  }

  function DoNextReceive(c: Conn, ok: bool): Conn {
    var d := c.(delivering := false);
    if d.state != Active then d else DoStart(d, ok)
  }

  function DoSendDone(c: Conn, bytes: nat, error: bool, ok: bool): Conn {
    var d := c.(sending := false, outstanding := if c.outstanding > 0 then c.outstanding - 1 else 0);
    if error then Settle(BeginClose(d, SendError))
    else if d.state != Active then Settle(d)
    else if bytes == 0 || bytes > |c.flight| || bytes > |Octets(c.queue)| then Settle(BeginClose(d, SendError))
    else
      var e := d.(queue := Drop(c.queue, bytes), sent := c.sent + c.flight[..bytes]);
      if e.queue != [] then
        var r := PostSend(e, ok);
        if r.1 then r.0 else Settle(BeginClose(r.0, SendError))
      else if e.closeAfterSend then Settle(BeginClose(e, ProtocolClose))
      else e
  }

  function Step(c: Conn, op: Op): Conn {
    match op
    case Start(ok) => DoStart(c, ok)
    case Send(segments, close, ok) => DoSend(c, segments, close, ok)
    case ReceiveDone(storage, bytes, error) => DoReceiveDone(c, storage, bytes, error)
    case NextReceive(ok) => DoNextReceive(c, ok)
    case SendDone(bytes, error, ok) => DoSendDone(c, bytes, error, ok)
    case Close(reason) => Settle(BeginClose(c, reason))
  }

  // ---- what every step keeps ----

  predicate Counted(c: Conn) {
    c.outstanding == (if c.receiving then 1 else 0) + (if c.sending then 1 else 0)
  }

  /** The close drain: Closing only while something is in flight, Closed with nothing in flight and the
      removal triggered once, a reason exactly once closing has begun. */
  predicate Drains(c: Conn) {
    && Counted(c)
    && (c.state == Closing ==> c.outstanding > 0)
    && (c.state == Closed ==> c.outstanding == 0 && c.queue == [])
    && c.removals == (if c.state == Closed then 1 else 0)
    && (c.reason.Some? <==> c.state != Active)
  }

  /** The send path: while Active a send is in flight exactly when octets wait; what is in flight is a
      prefix of what waits; and sent octets followed by waiting ones are the admitted ones. */
  predicate Flows(c: Conn) {
    && Tidy(c.queue) && |c.queue| <= c.limits.items && |Octets(c.queue)| <= c.limits.bytes
    && (c.state == Active ==> (c.sending <==> c.queue != []))
    && (c.state == Active && c.sending ==> c.flight != [] && c.flight <= Octets(c.queue))
    && (c.state != Closed ==> c.admitted == c.sent + Octets(c.queue))
    && c.sent <= c.admitted
  }

  predicate Usable(limits: Limits) {
    limits.gatherSegments > 0 && limits.gatherBytes > 0
  }

  predicate Inv(c: Conn) {
    Drains(c) && Flows(c) && Usable(c.limits)
  }

  /** What holds in the middle of a locked section, before the connection settles. */
  predicate Loose(c: Conn) {
    && Counted(c) && Usable(c.limits) && c.state != Closed && c.removals == 0
    && (c.reason.Some? <==> c.state != Active)
    && Tidy(c.queue) && |c.queue| <= c.limits.items && |Octets(c.queue)| <= c.limits.bytes
    && c.admitted == c.sent + Octets(c.queue)
  }

  /** Closing begun, or already under way, then settled: everything is in order again. */
  lemma CloseKeeps(c: Conn, reason: Reason)
    requires Loose(c)
    ensures Inv(Settle(BeginClose(c, reason)))
  {
    hide Octets, Tidy;
    NothingTidy();
  }

  lemma NothingTidy()
    ensures Tidy([]) && Octets([]) == []
  {
  }

  lemma SettleKeeps(c: Conn)
    requires Loose(c) && c.state == Closing
    ensures Inv(Settle(c))
  {
    hide Octets, Tidy;
    NothingTidy();
  }

  lemma InvIsLoose(c: Conn)
    requires Inv(c) && c.state != Closed
    ensures Loose(c)
  {
  }

  /** Posting a send when none is in flight, octets wait and the connection is Active: done, or refused. */
  lemma PostKeeps(c: Conn, ok: bool)
    requires Loose(c) && c.state == Active && !c.sending && c.queue != []
    ensures var r := PostSend(c, ok);
            if r.1 then Inv(r.0) else r.0 == c
  {
    hide Octets, SliceOctets, Slices, Tidy;
    GatherIsPrefix(c.queue, c.limits.gatherSegments, c.limits.gatherBytes);
  }

  lemma StartKeeps(c: Conn, ok: bool)
    requires Inv(c)
    ensures Inv(DoStart(c, ok))
  {
    hide Octets, Tidy;
    if c.state != Closed {
      InvIsLoose(c);
      CloseKeeps(c, ReceiveError);
    }
  }

  /** A longer queue is still a bounded tidy one whose octets begin with the old ones. */
  lemma PushKeeps(c: Conn, more: seq<Segment>, close: bool)
    requires Inv(c) && c.state == Active && Fits(c, more)
    requires forall i :: 0 <= i < |more| ==> more[i].offset == 0 < |more[i].data|
    ensures var d := c.(queue := c.queue + more, admitted := c.admitted + Octets(more), closeAfterSend := close);
            Loose(d) && (c.sending ==> Inv(d))
  {
    hide Octets;
    OctetsAppend(c.queue, more);
    Assoc(c.sent, Octets(c.queue), Octets(more));
  }

  lemma SendKeeps(c: Conn, segments: seq<seq<Byte>>, close: bool, ok: bool)
    requires Inv(c)
    ensures Inv(DoSend(c, segments, close, ok))
  {
    hide Octets, Tidy, Fits, PostSend, Segments, Settle, Flows, Drains;
    var more := Segments(SomeAll(segments));
    SegmentsCarryAll(SomeAll(segments));
    if c.state == Closed {
      ClosedStays(c);
    } else {
      InvIsLoose(c);
      CloseKeeps(c, ProtocolClose);
      CloseKeeps(c, SendQueueOverflow);
      if more != [] && c.state == Active && Fits(c, more) {
        PushKeeps(c, more, close);
        var d := c.(queue := c.queue + more, admitted := c.admitted + Octets(more), closeAfterSend := close);
        if !c.sending {
          PostKeeps(d, ok);
          CloseKeeps(d, SendError);
        }
      }
    }
  }

  lemma ClosedStays(c: Conn)
    requires c.state == Closed
    ensures forall reason :: Settle(BeginClose(c, reason)) == c
  {
  }

  lemma ReceiveDoneKeeps(c: Conn, storage: seq<Byte>, bytes: nat, error: bool)
    requires Inv(c) && c.receiving
    ensures Inv(DoReceiveDone(c, storage, bytes, error))
  {
    hide Octets, Tidy;
    var d := c.(receiving := false, outstanding := c.outstanding - 1);
    assert Loose(d);
    CloseKeeps(d, ReceiveError);
    CloseKeeps(d, PeerClosed);
    if d.state == Closing {
      SettleKeeps(d);
    }
  }

  lemma NextReceiveKeeps(c: Conn, ok: bool)
    requires Inv(c)
    ensures Inv(DoNextReceive(c, ok))
  {
    hide Octets, Tidy, DoStart;
    StartKeeps(c.(delivering := false), ok);
  }

  /** The octets the socket took are the first that waited. */
  lemma ConsumeKeeps(c: Conn, bytes: nat)
    requires Inv(c) && c.state == Active && c.sending && 0 < bytes <= |c.flight|
    ensures bytes <= |Octets(c.queue)| && c.flight[..bytes] == Octets(c.queue)[..bytes]
    ensures var e := c.(sending := false, outstanding := c.outstanding - 1, queue := Drop(c.queue, bytes),
                        sent := c.sent + c.flight[..bytes]);
            Loose(e)
  {
    hide Octets, Drop, Tidy;
    var all := Octets(c.queue);
    assert c.flight == all[..|c.flight|];
    assert c.flight[..bytes] == all[..bytes];
    DropDrops(c.queue, bytes);
    DropShrinks(c.queue, bytes);
    assert all == all[..bytes] + all[bytes..];
    Assoc(c.sent, all[..bytes], all[bytes..]);
  }

  lemma {:induction false} DropShrinks(q: seq<Segment>, k: nat)
    ensures |Drop(q, k)| <= |q|
  {
    if k > 0 && q != [] && k >= |Left(q[0])| {
      DropShrinks(q[1..], k - |Left(q[0])|);
    }
  }

  lemma SendDoneKeeps(c: Conn, bytes: nat, error: bool, ok: bool)
    requires Inv(c) && c.sending
    ensures Inv(DoSendDone(c, bytes, error, ok))
  {
    hide Octets, Tidy, Drop, PostSend, Settle;
    var d := c.(sending := false, outstanding := c.outstanding - 1);
    assert Loose(d);
    CloseKeeps(d, SendError);
    if d.state == Closing {
      SettleKeeps(d);
    } else if 0 < bytes <= |c.flight| {
      ConsumeKeeps(c, bytes);
      var e := d.(queue := Drop(c.queue, bytes), sent := c.sent + c.flight[..bytes]);
      CloseKeeps(e, SendError);
      CloseKeeps(e, ProtocolClose);
      if e.queue != [] {
        PostKeeps(e, ok);
      }
    }
  }

  /** Every step keeps the invariant. */
  lemma StepKeeps(c: Conn, op: Op)
    requires Inv(c) && Enabled(c, op)
    ensures Inv(Step(c, op))
  {
    hide Inv, DoStart, DoSend, DoReceiveDone, DoNextReceive, DoSendDone;
    match op
    case Start(ok) => StartKeeps(c, ok);
    case Send(segments, close, ok) => SendKeeps(c, segments, close, ok);
    case ReceiveDone(storage, bytes, error) => ReceiveDoneKeeps(c, storage, bytes, error);
    case NextReceive(ok) => NextReceiveKeeps(c, ok);
    case SendDone(bytes, error, ok) => SendDoneKeeps(c, bytes, error, ok);
    case Close(reason) =>
      if c.state == Closed {
        ClosedStays(c);
      } else {
        InvIsLoose(c);
        CloseKeeps(c, reason);
      }
  }

  /** A sender can tell from the answer what became of its octets: taken, they follow all that was
      admitted before and the connection goes on; refused, nothing changed; and on the two failures the
      connection was open until then and closes for that reason. */
  lemma SendAnswerTells(c: Conn, segments: seq<seq<Byte>>, close: bool, ok: bool)
    requires Inv(c)
    ensures var more := Segments(SomeAll(segments));
            var d := Step(c, Send(segments, close, ok));
            var answer := SendAnswer(c, segments, close, ok);
            && (more != [] ==>
                  && (answer == Taken <==> d.state == Active && d.admitted == c.admitted + Octets(more) && c.state == Active)
                  && (answer == Refused <==> d == c)
                  && (answer == Overflowed <==> c.state == Active && d.reason == Some(SendQueueOverflow))
                  && (answer == StartFailed <==> c.state == Active && d.reason == Some(SendError)))
            && (more == [] ==> answer == Taken && d.admitted == c.admitted)
  {
    hide Octets, Fits, Segments, PostSend, Settle, Flows;
    var more := Segments(SomeAll(segments));
    SegmentsCarryAll(SomeAll(segments));
    NothingSettles(c, ProtocolClose);
    if more != [] {
      FullSegments(more);
      assert |c.admitted + Octets(more)| > |c.admitted|;
    }
    if more != [] && c.state == Active && !c.closeAfterSend {
      ClosesFor(c, SendQueueOverflow);
      if Fits(c, more) {
        var d := c.(queue := c.queue + more, admitted := c.admitted + Octets(more), closeAfterSend := close);
        ClosesFor(d, SendError);
        PostedOnly(d, ok);
      }
    }
  }

  /** The buffers of a batch that hold anything. */
  function Filled(segments: seq<seq<Byte>>): nat {
    if segments == [] then 0 else (if segments[0] == [] then 0 else 1) + Filled(segments[1..])
  }

  lemma {:induction false} FilledSegments(segments: seq<seq<Byte>>)
    ensures |Segments(SomeAll(segments))| == Filled(segments) && Values(SomeAll(segments)) == segments
  {
    if segments != [] {
      FilledSegments(segments[1..]);
      var all := SomeAll(segments);
      assert all[0] == Some(segments[0]) && all[1..] == SomeAll(segments[1..]);
      assert [segments[0]] + segments[1..] == segments;
    }
  }

  /** What a batch would take beyond a limit. */
  predicate Exceeds(c: Conn, segments: seq<seq<Byte>>) {
    || Filled(segments) > c.limits.batchSegments || |c.queue| + Filled(segments) > c.limits.items
    || |Octets(c.queue)| + |Flatten(segments)| > c.limits.bytes
  }

  /** When each answer is given: refused once closing has begun or was asked for, overflowed exactly beyond a limit, failed
      exactly when the socket refuses the send it starts; an empty batch does nothing but perhaps ask for the
      close. */
  lemma SendAnswerIff(c: Conn, segments: seq<seq<Byte>>, close: bool, ok: bool)
    requires Inv(c)
    ensures var d := Step(c, Send(segments, close, ok));
            var answer := SendAnswer(c, segments, close, ok);
            var open := c.state == Active && !c.closeAfterSend;
            if Filled(segments) > 0 then
              && (answer == Refused <==> !open) && (answer == Overflowed <==> open && Exceeds(c, segments))
              && (answer == StartFailed <==> open && !Exceeds(c, segments) && !c.sending && !ok)
              && (answer == Taken ==> d.closeAfterSend == close && d.queue == c.queue + Segments(SomeAll(segments)))
            else d == if close then Step(c, Close(ProtocolClose)) else c
  {
    hide Octets, Segments, PostSend, Settle, Flows;
    var more := Segments(SomeAll(segments));
    FilledSegments(segments);
    SegmentsCarryAll(SomeAll(segments));
    if more != [] && c.state == Active && !c.closeAfterSend && Fits(c, more) {
      InvIsLoose(c);
      PushKeeps(c, more, close);
      var d := c.(queue := c.queue + more, admitted := c.admitted + Octets(more), closeAfterSend := close);
      if !d.sending {
        PostPosts(d, ok);
      }
    }
  }

  lemma NothingSettles(c: Conn, reason: Reason)
    ensures Settle(BeginClose(c, reason)).admitted == c.admitted
  {
  }

  lemma ClosesFor(c: Conn, reason: Reason)
    requires c.state == Active
    ensures var d := Settle(BeginClose(c, reason)); d.state != Active && d.reason == Some(reason)
  {
  }

  lemma PostedOnly(c: Conn, ok: bool)
    ensures var d := PostSend(c, ok).0; d.state == c.state && d.admitted == c.admitted && d.reason == c.reason
    ensures !PostSend(c, ok).1 ==> PostSend(c, ok).0 == c
  {
    hide Slices, SliceOctets;
  }

  /** Segments built from a batch carry at least one octet. */
  lemma FullSegments(more: seq<Segment>)
    requires more != [] && forall i :: 0 <= i < |more| ==> more[i].offset == 0 < |more[i].data|
    ensures Octets(more) != []
  {
  }

  // ---- every interleaving ----

  /** The connection after steps that were each possible when taken. */
  function Run(c: Conn, ops: seq<Op>): Conn
    decreases |ops|
  {
    if ops == [] then c else Run(Step(c, ops[0]), ops[1..])
  }

  predicate Possible(c: Conn, ops: seq<Op>)
    decreases |ops|
  {
    ops == [] || (Enabled(c, ops[0]) && Possible(Step(c, ops[0]), ops[1..]))
  }

  lemma {:induction false} RunKeeps(c: Conn, ops: seq<Op>)
    requires Inv(c) && Possible(c, ops)
    ensures Inv(Run(c, ops))
    decreases |ops|
  {
    hide Inv, Step, Enabled;
    if ops != [] {
      StepKeeps(c, ops[0]);
      RunKeeps(Step(c, ops[0]), ops[1..]);
    }
  }

  lemma FreshInv(limits: Limits)
    requires Usable(limits)
    ensures Inv(Fresh(limits))
  {
  }

  /** The send path over every interleaving: no octet is lost, repeated or reordered, and none waits while
      nothing is being sent. */
  lemma SendPath(limits: Limits, ops: seq<Op>)
    requires Usable(limits) && Possible(Fresh(limits), ops)
    ensures var c := Run(Fresh(limits), ops);
            && (c.state == Active ==> (c.sending <==> Octets(c.queue) != []))
            && (c.state != Closed ==> c.sent + Octets(c.queue) == c.admitted)
            && c.sent <= c.admitted
            && |c.queue| <= c.limits.items && |Octets(c.queue)| <= c.limits.bytes
  {
    FreshInv(limits);
    RunKeeps(Fresh(limits), ops);
    var c := Run(Fresh(limits), ops);
    if c.queue != [] {
      assert Left(c.queue[0]) != [];
    }
  }

  /** The close drain over every interleaving. */
  lemma CloseDrain(limits: Limits, ops: seq<Op>)
    requires Usable(limits) && Possible(Fresh(limits), ops)
    ensures var c := Run(Fresh(limits), ops);
            && c.outstanding == (if c.receiving then 1 else 0) + (if c.sending then 1 else 0)
            && (c.state == Closing ==> c.receiving || c.sending)
            && (c.state == Closed ==> !c.receiving && !c.sending && c.queue == [])
            && (c.removals == 1 <==> c.state == Closed) && c.removals <= 1
  {
    hide Flows, Step;
    FreshInv(limits);
    RunKeeps(Fresh(limits), ops);
  }

  // ---- the receive path ----

  /** A completion that brought octets to an open connection. */
  predicate Brings(c: Conn, op: Op) {
    op.ReceiveDone? && !op.error && 0 < op.bytes <= |op.storage| && c.state == Active
  }

  /** The octets that such completions brought, in order. */
  function Arrived(c: Conn, ops: seq<Op>): seq<seq<Byte>>
    decreases |ops|
  {
    if ops == [] then []
    else (if Brings(c, ops[0]) then [ops[0].storage[..ops[0].bytes]] else []) + Arrived(Step(c, ops[0]), ops[1..])
  }

  /** An open connection waits for octets, or is handing some on and will then wait again. */
  predicate Listens(c: Conn) {
    c.state == Active ==> c.receiving || c.delivering
  }

  /** What one step does to the receive path. */
  lemma ReceiveStep(c: Conn, op: Op)
    requires Inv(c) && Enabled(c, op)
    ensures var d := Step(c, op);
            && d.delivered == c.delivered + (if Brings(c, op) then [op.storage[..op.bytes]] else [])
            && (Listens(c) || op == Start(true) ==> Listens(d))
            && (Brings(c, op) ==> d.state == Active && d.delivering && !d.receiving)
  {
    hide Octets, Slices, SliceOctets, Drop, Segments, Fits, PostSend;
    assert c.delivered + [] == c.delivered;
    if op.Send? || op.SendDone? {
      SendingAside(c, op);
    }
  }

  /** The receive path is as it was, unless the connection closed. */
  predicate Aside(c: Conn, d: Conn) {
    d.delivered == c.delivered && d.receiving == c.receiving && d.delivering == c.delivering && (d.state == Active ==> c.state == Active)
  }

  lemma PostAside(c: Conn, ok: bool)
    ensures Aside(c, PostSend(c, ok).0)
  {
    hide Octets, Slices, SliceOctets;
  }

  lemma CloseAside(c: Conn, reason: Reason)
    ensures Aside(c, Settle(BeginClose(c, reason))) && Aside(c, Settle(c))
  {
  }

  lemma SendingAside(c: Conn, op: Op)
    requires op.Send? || op.SendDone?
    ensures Aside(c, Step(c, op))
  {
    hide Octets, Slices, SliceOctets, Drop, Segments, Fits, PostSend, Settle, BeginClose;
    forall x: Conn, ok ensures Aside(x, PostSend(x, ok).0) {
      PostAside(x, ok);
    }
    forall x: Conn, reason ensures Aside(x, Settle(BeginClose(x, reason))) {
      CloseAside(x, reason);
    }
    forall x: Conn ensures Aside(x, Settle(x)) {
      CloseAside(x, SendError);
    }
  }

  lemma {:induction false} ReceiveRun(c: Conn, ops: seq<Op>)
    requires Inv(c) && Possible(c, ops)
    ensures Run(c, ops).delivered == c.delivered + Arrived(c, ops)
    ensures Listens(c) ==> Listens(Run(c, ops))
    decreases |ops|
  {
    hide Inv, Step, Enabled, Listens;
    if ops == [] {
      assert c.delivered + [] == c.delivered;
    } else {
      StepKeeps(c, ops[0]);
      ReceiveStep(c, ops[0]);
      ReceiveRun(Step(c, ops[0]), ops[1..]);
      var one := if Brings(c, ops[0]) then [ops[0].storage[..ops[0].bytes]] else [];
      Assoc(c.delivered, one, Arrived(Step(c, ops[0]), ops[1..]));
    }
  }

  /** The receive path over every interleaving of a connection that was started: the handler is given exactly
      the octets that arrived while it was open, once each and in order, and as long as it is open a receive
      is in flight or octets are being handed on. */
  lemma ReceivePath(limits: Limits, ops: seq<Op>)
    requires Usable(limits) && Possible(Fresh(limits), [Start(true)] + ops)
    ensures var c := Run(Fresh(limits), [Start(true)] + ops);
            c.delivered == Arrived(Fresh(limits), [Start(true)] + ops) && (c.state == Active ==> c.receiving || c.delivering)
  {
    hide Inv, Step, Run, Arrived;
    var c := Fresh(limits);
    var all := [Start(true)] + ops;
    FreshInv(limits);
    ReceiveRun(c, all);
    StepKeeps(c, Start(true));
    ReceiveStep(c, Start(true));
    assert all[0] == Start(true) && all[1..] == ops;
    OneThenRest(c, all);
    ReceiveRun(Step(c, Start(true)), ops);
    assert [] + Arrived(c, all) == Arrived(c, all);
  }

  lemma OneThenRest(c: Conn, ops: seq<Op>)
    requires ops != [] && Possible(c, ops)
    ensures Enabled(c, ops[0]) && Possible(Step(c, ops[0]), ops[1..]) && Run(c, ops) == Run(Step(c, ops[0]), ops[1..])
  {
    hide Step, Enabled;
  }

  /** A receive is posted exactly if the socket takes it and none is in flight; otherwise the connection closes. */
  lemma StartTells(c: Conn, op: Op)
    requires Inv(c) && Enabled(c, op) && c.state == Active && (op.Start? || op.NextReceive?)
    ensures var d := Step(c, op);
            && (d.state == Active <==> op.ok && !c.receiving) && (d.state == Active ==> d.receiving && !(op.NextReceive? && d.delivering))
            && (d.state != Active ==> d.reason == Some(ReceiveError))
  {
    hide Octets, Tidy;
  }

  /** A close is begun with its reason, and only once. */
  lemma CloseTells(c: Conn, reason: Reason)
    requires Inv(c)
    ensures var d := Step(c, Close(reason));
            if c.state == Active then d.state != Active && d.reason == Some(reason) && !d.closeAfterSend else d == c
  {
    hide Octets, Tidy;
  }

  /** Why a completion closes an open connection: an error or more octets than there is room for, the end
      of the peer's octets, or not at all. */
  lemma ReceiveTells(c: Conn, storage: seq<Byte>, bytes: nat, error: bool)
    requires Inv(c) && c.state == Active && c.receiving
    ensures var d := Step(c, ReceiveDone(storage, bytes, error));
            && (d.reason == Some(ReceiveError) <==> error || bytes > |storage|)
            && (d.reason == Some(PeerClosed) <==> !error && bytes == 0)
            && (d.state == Active <==> !error && 0 < bytes <= |storage|)
  {
    hide Octets, Tidy;
  }

  /** Why a send completion closes an open connection: an error, or a count that cannot be, or a next send
      that fails, or nothing left to send before the close that was asked for. */
  lemma SentTells(c: Conn, bytes: nat, error: bool, ok: bool)
    requires Inv(c) && c.state == Active && c.sending
    ensures var d := Step(c, SendDone(bytes, error, ok));
            var done := !error && 0 < bytes <= |c.flight|;
            && (done ==> d.sent == c.sent + c.flight[..bytes])
            && (!done ==> d.sent == c.sent && d.reason == Some(SendError))
            && (d.reason == Some(ProtocolClose) <==> done && bytes == |Octets(c.queue)| && c.closeAfterSend)
            && (d.reason == Some(SendError) <==> !done || (bytes < |Octets(c.queue)| && !ok))
            && (d.state == Active <==> done && if bytes < |Octets(c.queue)| then ok else !c.closeAfterSend)
  {
    hide Octets, Tidy, Slices, SliceOctets, Drop, Settle;
    if !error && 0 < bytes <= |c.flight| {
      ConsumeKeeps(c, bytes);
      DropDrops(c.queue, bytes);
      var d := c.(sending := false, outstanding := c.outstanding - 1);
      var e := d.(queue := Drop(c.queue, bytes), sent := c.sent + c.flight[..bytes]);
      SettleTells(e, SendError);
      SettleTells(e, ProtocolClose);
      QueueEmptyIff(e.queue);
      if e.queue != [] {
        PostKeeps(e, ok);
        PostPosts(e, ok);
      }
    } else {
      SettleTells(c.(sending := false, outstanding := c.outstanding - 1), SendError);
    }
  }

  lemma SettleTells(c: Conn, reason: Reason)
    requires c.state == Active
    ensures var d := Settle(BeginClose(c, reason)); d.reason == Some(reason) && d.state != Active && d.sent == c.sent
  {
  }

  lemma QueueEmptyIff(q: seq<Segment>)
    requires Tidy(q)
    ensures q == [] <==> Octets(q) == []
  {
    if q != [] {
      assert Left(q[0]) != [];
    }
  }

  /** The socket's answer decides whether a send with octets waiting is posted; it carries the first octets of the first
      segments, as many as one send may. */
  lemma PostPosts(c: Conn, ok: bool)
    requires Loose(c) && c.state == Active && !c.sending && c.queue != []
    ensures PostSend(c, ok).1 == ok
    ensures var d := PostSend(c, ok).0;
            && d.state == c.state && d.reason == c.reason && d.sent == c.sent && d.queue == c.queue && d.closeAfterSend == c.closeAfterSend
            && (ok ==> d.flight == Take(Octets(c.queue[..Min(c.limits.gatherSegments, |c.queue|)]), c.limits.gatherBytes))
  {
    hide Octets, SliceOctets, Slices;
    GatherIsPrefix(c.queue, c.limits.gatherSegments, c.limits.gatherBytes);
    GatherIsFront(c.queue, c.limits.gatherSegments, c.limits.gatherBytes);
  }

  function Order(s: State): nat {
    match s case Active => 0 case Closing => 1 case Closed => 2
  }

  lemma Forward(c: Conn, op: Op)
    requires Inv(c) && Enabled(c, op)
    ensures Order(c.state) <= Order(Step(c, op).state)
    ensures c.reason.Some? ==> Step(c, op).reason == c.reason
    ensures c.state == Closed ==> Step(c, op).removals == c.removals
  {
    hide Octets, Slices, SliceOctets, Drop, Segments, Fits;
  }

  /** The state only moves on, Closed is for good, and the first close reason is kept. */
  lemma {:induction false} FirstReasonKept(c: Conn, ops: seq<Op>)
    requires Inv(c) && Possible(c, ops)
    ensures Order(c.state) <= Order(Run(c, ops).state)
    ensures c.reason.Some? ==> Run(c, ops).reason == c.reason
    ensures c.state == Closed ==> Run(c, ops).removals == c.removals
    decreases |ops|
  {
    hide Inv, Step, Enabled;
    if ops != [] {
      StepKeeps(c, ops[0]);
      Forward(c, ops[0]);
      FirstReasonKept(Step(c, ops[0]), ops[1..]);
    }
  }

  /** A close begun by a send completion for the protocol happens only when all admitted octets were sent. */
  lemma ProtocolCloseIsComplete(c: Conn, bytes: nat, error: bool, ok: bool)
    requires Inv(c) && c.state == Active && c.sending
    ensures var d := DoSendDone(c, bytes, error, ok);
            d.reason == Some(ProtocolClose) ==> d.sent == d.admitted && c.closeAfterSend
  {
    hide Tidy, PostSend;
    if 0 < bytes <= |c.flight| {
      ConsumeKeeps(c, bytes);
      var e := c.(sending := false, outstanding := c.outstanding - 1, queue := Drop(c.queue, bytes),
                  sent := c.sent + c.flight[..bytes]);
      if e.queue == [] {
        assert Octets(e.queue) == [] && e.sent + [] == e.sent;
      } else {
        PostOnlyPosts(e, ok);
      }
    }
  }

  lemma PostOnlyPosts(c: Conn, ok: bool)
    ensures PostSend(c, ok).0.reason == c.reason && PostSend(c, ok).0.state == c.state
  {
  }

  /** Closing ends: once the completions in flight have come, whatever they report, the connection is Closed. */
  lemma ClosingEnds(c: Conn, storage: seq<Byte>, bytes: nat, error: bool, moved: nat, failed: bool, ok: bool)
    requires Inv(c) && c.state == Closing
    ensures var d := if c.receiving then DoReceiveDone(c, storage, bytes, error) else c;
            (if c.sending then DoSendDone(d, moved, failed, ok) else d).state == Closed
  {
    hide Octets, Slices, SliceOctets, Drop, Tidy;
  }
}

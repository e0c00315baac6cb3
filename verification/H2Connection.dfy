/** Both halves of an HTTP/2 connection together: the receiving session of http2_stream.cpp drives the
    outbound scheduler of http2_outbound.cpp, while the application submits responses at any time. */
module H2Connection {
  import opened Bytes
  import opened Hpack
  import opened H2Inbound
  import L = H2Lifecycle
  import A = H2Answers
  import Q = H2Replies
  import Outbound
  import R = OutboundRuns
  import W = OutboundWire

  /** The call on the scheduler that an event of the session is, if any; `order` is the order in which
      the scheduler's map is then visited. */
  function CallOf(e: Event, order: seq<nat>): Option<Outbound.Op> {
    match e
    case OpenedStream(id) => Some(Outbound.Open(id))
    case ClosedStream(id) => Some(Outbound.CloseStream(id))
    case ClosedOutbound => Some(Outbound.Close)
    case PeerSettings(peer) => Some(Outbound.Settings(peer.initialWindow, peer.maxFrame, peer.tableSize, order))
    case PeerConnectionCredit(increment) => Some(Outbound.UpdateConnection(increment, order))
    case PeerStreamCredit(id, increment) => Some(Outbound.UpdateStream(id, increment))
    case _ => None
  }

  /** `ops` are the session's calls in the order of its events, with submissions anywhere in between. */
  ghost predicate Drives(events: seq<Event>, ops: seq<Outbound.Op>)
    decreases |events| + |ops|
  {
    || (events == [] && ops == [])
    || (ops != [] && ops[0].Submit? && Drives(events, ops[1..]))
    || (events != [] && CallOf(events[0], []) == None && Drives(events[1..], ops))
    || (events != [] && ops != [] && (exists order :: CallOf(events[0], order) == Some(ops[0])) && Drives(events[1..], ops[1..]))
  }

  /** Every walk over the scheduler's map visits all of it. */
  ghost predicate Visits(h: R.History, ops: seq<Outbound.Op>)
    requires Outbound.Sane(h.s)
    decreases |ops|
  {
    ops == [] ||
    (&& (ops[0].Settings? || ops[0].UpdateConnection? ==> forall id :: id in h.s.streams ==> id in ops[0].order)
     && Visits(R.Advance(h, ops[0]), ops[1..]))
  }

  /** The streams opened, by the session and at the scheduler. */
  function Opened(events: seq<Event>): seq<nat> {
    if events == [] then [] else (if events[0].OpenedStream? then [events[0].id] else []) + Opened(events[1..])
  }

  function Opens(ops: seq<Outbound.Op>): seq<nat> {
    if ops == [] then [] else (if ops[0].Open? then [ops[0].id] else []) + Opens(ops[1..])
  }

  lemma {:induction false} OpenedAppend(a: seq<Event>, b: seq<Event>)
    ensures Opened(a + b) == Opened(a) + Opened(b)
  {
    if a == [] {
      assert a + b == b;
    } else {
      assert (a + b)[1..] == a[1..] + b && (a + b)[0] == a[0];
      OpenedAppend(a[1..], b);
      Assoc(if a[0].OpenedStream? then [a[0].id] else [], Opened(a[1..]), Opened(b));
    }
  }

  lemma {:induction false} OpenedIsIds(log: seq<Event>)
    ensures Opened(log) == L.Ids(log)
    decreases |log|
  {
    if log != [] {
      var front, e := log[..|log| - 1], log[|log| - 1];
      OpenedIsIds(front);
      OpenedAppend(front, [e]);
      var one := [e];
      assert one[1..] == [] && front + one == log;
    }
  }

  lemma {:induction false} DrivenOpens(events: seq<Event>, ops: seq<Outbound.Op>)
    requires Drives(events, ops)
    ensures Opens(ops) == Opened(events)
    decreases |events| + |ops|
  {
    if ops != [] && ops[0].Submit? && Drives(events, ops[1..]) {
      DrivenOpens(events, ops[1..]);
    } else if events != [] && CallOf(events[0], []) == None && Drives(events[1..], ops) {
      DrivenOpens(events[1..], ops);
    } else if events != [] && ops != [] {
      DrivenOpens(events[1..], ops[1..]);
    }
  }

  predicate Increasing(ids: seq<nat>) {
    forall i, j :: 0 <= i < j < |ids| ==> ids[i] < ids[j]
  }

  /** Opening ever higher streams, none is opened twice. */
  lemma {:induction false} IncreasingIsAllowed(h: R.History, ops: seq<Outbound.Op>)
    requires Outbound.Sane(h.s) && Visits(h, ops) && Increasing(Opens(ops))
    requires forall x, i :: x in h.seen && 0 <= i < |Opens(ops)| ==> x < Opens(ops)[i]
    ensures R.AllowedRun(h, ops)
    decreases |ops|
  {
    hide R.Advance;
    if ops != [] {
      var rest := Opens(ops[1..]);
      SeenGrows(h, ops[0]);
      if ops[0].Open? {
        assert Opens(ops) == [ops[0].id] + rest;
        assert Opens(ops)[0] == ops[0].id;
        assert forall i :: 0 <= i < |rest| ==> rest[i] == Opens(ops)[i + 1];
      } else {
        assert Opens(ops) == rest;
      }
      IncreasingIsAllowed(R.Advance(h, ops[0]), ops[1..]);
    }
  }

  lemma SeenGrows(h: R.History, op: Outbound.Op)
    requires Outbound.Sane(h.s)
    ensures R.Advance(h, op).seen == if op.Open? then h.seen + {op.id} else h.seen
  {
    hide Outbound.Step, EncodeBlock, Outbound.HeaderFrames, Outbound.HeaderList;
  }

  /** The whole connection. Whatever octets the peer sends, in whatever pieces, and whenever the application
      submits responses: the session calls the scheduler only as the scheduler's theorems assume, so in
      every state reached credit is conserved, no response waits although both windows are open, every
      accepted response is delivered, and header blocks are contiguous on the wire. The session may be
      given any answers, those of the scheduler among them. */
  lemma SessionDrivesScheduler(config: Config, decoder: Codec, env: Env, pieces: seq<seq<Byte>>,
                               h: R.History, ops: seq<Outbound.Op>)
    requires R.Constructed(h) && Drives(L.Life(config, decoder, env, pieces).events, ops) && Visits(h, ops)
    ensures R.AllowedRun(h, ops) && R.Good(R.Run(h, ops)) && W.Contiguous(R.Run(h, ops).wire, None)
  {
    hide R.Run, R.AllowedRun, W.Contiguous, Drives, L.Life, R.Good, Visits, L.OrderlyUntilClosed, L.AllAdmitted,
         L.Ids;
    var log := L.Life(config, decoder, env, pieces).events;
    L.StreamsOpenInOrder(config, decoder, env, pieces);
    OpenedIsIds(log);
    DrivenOpens(log, ops);
    IncreasingIsAllowed(h, ops);
    R.EveryReachableStateIsGood(h, ops);
    W.BlocksContiguous(h, ops);
  }

  // ---- credit, from the peer's frames to the sender's windows ----

  /** The increment that a call grants a stream or (0) the connection. */
  function Raise(op: Outbound.Op, id: nat): nat {
    match op
    case UpdateConnection(increment, _) => if id == 0 then increment else 0
    case UpdateStream(x, increment) => if id == x > 0 then increment else 0
    case _ => 0
  }

  function Raises(ops: seq<Outbound.Op>, id: nat): nat {
    if ops == [] then 0 else Raise(ops[0], id) + Raises(ops[1..], id)
  }

  function Worths(events: seq<Event>, id: nat): nat {
    if events == [] then 0 else A.Worth(events[0], id) + Worths(events[1..], id)
  }

  lemma {:induction false} WorthsAppend(a: seq<Event>, e: Event, id: nat)
    ensures Worths(a + [e], id) == Worths(a, id) + A.Worth(e, id)
  {
    hide A.Worth;
    if a == [] {
      var one := [e];
      assert a + [e] == one && one[1..] == [];
    } else {
      assert (a + [e])[1..] == a[1..] + [e] && (a + [e])[0] == a[0];
      WorthsAppend(a[1..], e, id);
    }
  }

  lemma {:induction false} WorthsAreCredits(log: seq<Event>, id: nat)
    ensures Worths(log, id) == A.Credits(log, id)
    decreases |log|
  {
    hide A.Worth;
    if log != [] {
      var front, e := log[..|log| - 1], log[|log| - 1];
      WorthsAreCredits(front, id);
      WorthsAppend(front, e, id);
      assert front + [e] == log;
    }
  }

  lemma CallRaises(e: Event, order: seq<nat>, op: Outbound.Op, id: nat)
    ensures CallOf(e, order) == Some(op) ==> Raise(op, id) == A.Worth(e, id)
    ensures CallOf(e, order) == None ==> A.Worth(e, id) == 0
  {
  }

  /** The scheduler is granted what the session tells it. */
  lemma {:induction false} DrivenRaises(events: seq<Event>, ops: seq<Outbound.Op>, id: nat)
    requires Drives(events, ops)
    ensures Raises(ops, id) == Worths(events, id)
    decreases |events| + |ops|
  {
    hide CallOf, A.Worth;
    if ops != [] && ops[0].Submit? && Drives(events, ops[1..]) {
      DrivenRaises(events, ops[1..], id);
    } else if events != [] && CallOf(events[0], []) == None && Drives(events[1..], ops) {
      DrivenRaises(events[1..], ops, id);
      CallRaises(events[0], [], Outbound.Close, id);
    } else if events != [] && ops != [] {
      var order :| CallOf(events[0], order) == Some(ops[0]);
      DrivenRaises(events[1..], ops[1..], id);
      CallRaises(events[0], order, ops[0], id);
    }
  }

  /** The increments the scheduler refused, at the states it was in. */
  ghost function Refusals(h: R.History, ops: seq<Outbound.Op>, id: nat): nat
    requires Outbound.Sane(h.s)
    decreases |ops|
  {
    if ops == [] then 0
    else (if Outbound.Step(h.s, ops[0]).ok then 0 else Raise(ops[0], id)) + Refusals(R.Advance(h, ops[0]), ops[1..], id)
  }

  lemma {:induction false} ConnectionRaised(h: R.History, ops: seq<Outbound.Op>)
    requires Outbound.Sane(h.s)
    ensures R.Run(h, ops).granted + Refusals(h, ops, 0) == h.granted + Raises(ops, 0)
    decreases |ops|
  {
    hide R.Advance, Outbound.Step;
    if ops != [] {
      GrantedBy(h, ops[0]);
      ConnectionRaised(R.Advance(h, ops[0]), ops[1..]);
    }
  }

  lemma GrantedBy(h: R.History, op: Outbound.Op)
    requires Outbound.Sane(h.s)
    ensures R.Advance(h, op).granted == h.granted + if Outbound.Step(h.s, op).ok then Raise(op, 0) else 0
  {
    hide Outbound.Step, EncodeBlock, Outbound.HeaderFrames, Outbound.HeaderList;
  }

  function GrantOf(h: R.History, id: nat): nat {
    if id in h.grants then h.grants[id] else 0
  }

  lemma GrantBy(h: R.History, op: Outbound.Op, id: nat)
    requires R.Good(h) && R.Allowed(h, op) && h.grants.Keys <= h.seen && id > 0
    ensures var n := R.Advance(h, op);
            && n.grants.Keys <= n.seen
            && GrantOf(n, id) == GrantOf(h, id) + if Outbound.Step(h.s, op).ok then Raise(op, id) else 0
  {
    hide EncodeBlock, Outbound.HeaderFrames, Outbound.HeaderList, Outbound.FlushAll, Outbound.FlushOne, R.NoStall,
         R.Logs, Outbound.SubmitStep, Outbound.SettingsStep;
    assert forall x :: x in h.s.streams ==> R.StreamOk(h, x);
  }

  lemma {:induction false} StreamRaised(h: R.History, ops: seq<Outbound.Op>, id: nat)
    requires R.Good(h) && R.AllowedRun(h, ops) && h.grants.Keys <= h.seen && id > 0
    ensures GrantOf(R.Run(h, ops), id) + Refusals(h, ops, id) == GrantOf(h, id) + Raises(ops, id)
    decreases |ops|
  {
    hide R.Advance, Outbound.Step, R.Credit, R.Logs, R.NoStall, R.Allowed;
    if ops != [] {
      GrantBy(h, ops[0], id);
      R.AdvanceKeeps(h, ops[0]);
      StreamRaised(R.Advance(h, ops[0]), ops[1..], id);
    }
  }

  /** The send windows of the pair in terms of the peer's frames: what a window has left and what was sent
      against it are its initial size and the increments of all the WINDOW_UPDATE frames taken for it,
      less those the scheduler refused. */
  lemma CreditFromFrames(config: Config, decoder: Codec, env: Env, pieces: seq<seq<Byte>>, h: R.History, ops: seq<Outbound.Op>)
    requires R.Constructed(h) && Drives(L.Life(config, decoder, env, pieces).events, ops) && Visits(h, ops)
    ensures var n := R.Run(h, ops);
            var log := L.Life(config, decoder, env, pieces).events;
            && n.s.connection + R.DataTotal(n.wire) + Refusals(h, ops, 0) == 65535 + A.Increments(log, 0)
            && forall id :: id in n.s.streams && id > 0 ==>
                 n.s.streams[id].window + n.s.streams[id].offset + Refusals(h, ops, id) == n.s.initial + A.Increments(log, id)
  {
    hide R.Run, R.AllowedRun, Drives, L.Life, R.Good, Visits, A.Increments, Refusals, Raises, Worths, A.Credits;
    SessionDrivesScheduler(config, decoder, env, pieces, h, ops);
    R.CreditConserved(h, ops);
    var log := L.Life(config, decoder, env, pieces).events;
    var n := R.Run(h, ops);
    ToldRaises(config, decoder, env, pieces, ops, 0);
    ConnectionRaised(h, ops);
    Begins(h);
    forall id | id in n.s.streams && id > 0
      ensures n.s.streams[id].window + n.s.streams[id].offset + Refusals(h, ops, id) == n.s.initial + A.Increments(log, id)
    {
      ToldRaises(config, decoder, env, pieces, ops, id);
      StreamRaised(h, ops, id);
    }
  }

  lemma ToldRaises(config: Config, decoder: Codec, env: Env, pieces: seq<seq<Byte>>, ops: seq<Outbound.Op>, id: nat)
    requires Drives(L.Life(config, decoder, env, pieces).events, ops)
    ensures Raises(ops, id) == A.Increments(L.Life(config, decoder, env, pieces).events, id)
  {
    hide Drives, L.Life, A.Increments, Raises, Worths, A.Credits;
    var log := L.Life(config, decoder, env, pieces).events;
    DrivenRaises(log, ops, id);
    WorthsAreCredits(log, id);
    A.WindowUpdatesTold(Q.World(env, config, decoder), pieces, id);
  }

  lemma Begins(h: R.History)
    requires R.Constructed(h)
    ensures R.Good(h) && h.grants == map[] && h.granted == 0
  {
    hide R.Good;
    var initial: nat, maxFrame: nat, encoder: Codec :|
      && initial <= Outbound.MAX_WINDOW && Outbound.MIN_FRAME <= maxFrame <= Outbound.MAX_FRAME && |encoder.statics| > 0
      && h == R.Start(initial, maxFrame, encoder);
    R.StartIsGood(initial, maxFrame, encoder);
  }

  // ---- with the scheduler's own answers ----

  predicate Asked(op: Outbound.Op) {
    op.Settings? || op.UpdateConnection? || op.UpdateStream?
  }

  /** From the k-th on, the session's questions are answered as the scheduler answers. */
  ghost predicate Honest(env: Env, k: nat, h: R.History, ops: seq<Outbound.Op>)
    requires Outbound.Sane(h.s)
    decreases |ops|
  {
    ops == [] ||
    (&& (Asked(ops[0]) ==> env.outbound(k) == Outbound.Step(h.s, ops[0]).ok)
     && Honest(env, if Asked(ops[0]) then k + 1 else k, R.Advance(h, ops[0]), ops[1..]))
  }

  /** Questions about the connection that were all answered with yes, counted from the k-th on. */
  ghost predicate Approved(env: Env, k: nat, events: seq<Event>)
    decreases |events|
  {
    events == [] ||
    (&& (events[0].PeerConnectionCredit? ==> env.outbound(k))
     && Approved(env, if Q.Asks(events[0]) then k + 1 else k, events[1..]))
  }

  lemma {:induction false} NothingRefused(env: Env, k: nat, h: R.History, events: seq<Event>, ops: seq<Outbound.Op>)
    requires Outbound.Sane(h.s) && Drives(events, ops) && Honest(env, k, h, ops) && Approved(env, k, events)
    ensures Refusals(h, ops, 0) == 0
    decreases |events| + |ops|
  {
    hide R.Advance, Outbound.Step;
    if ops != [] && ops[0].Submit? && Drives(events, ops[1..]) {
      NothingRefused(env, k, R.Advance(h, ops[0]), events, ops[1..]);
    } else if events != [] && CallOf(events[0], []) == None && Drives(events[1..], ops) {
      NothingRefused(env, k, h, events[1..], ops);
    } else if events != [] && ops != [] {
      var next := if Q.Asks(events[0]) then k + 1 else k;
      NothingRefused(env, next, R.Advance(h, ops[0]), events[1..], ops[1..]);
    }
  }

  lemma {:induction false} ApprovedFrom(env: Env, log: seq<Event>, j: nat)
    requires j <= |log| && forall i :: 0 <= i < |log| && log[i].PeerConnectionCredit? ==> env.outbound(Q.Queries(log[..i]))
    ensures Approved(env, Q.Queries(log[..j]), log[j..])
    decreases |log| - j
  {
    if j < |log| {
      ApprovedFrom(env, log, j + 1);
      var more := log[..j + 1];
      assert more[..|more| - 1] == log[..j] && more[j] == log[j];
      assert log[j..][1..] == log[j + 1..];
    }
  }

  /** While the session has not ended the connection, the connection's credit is exact: nothing the peer granted
      it is lost, nothing is sent that was not granted. */
  lemma ConnectionCreditExact(config: Config, decoder: Codec, env: Env, pieces: seq<seq<Byte>>, h: R.History, ops: seq<Outbound.Op>)
    requires R.Constructed(h) && Drives(L.Life(config, decoder, env, pieces).events, ops) && Visits(h, ops)
    requires Honest(env, 0, h, ops) && L.Life(config, decoder, env, pieces).s.state != Closed
    ensures var n := R.Run(h, ops);
            n.s.connection + R.DataTotal(n.wire) == 65535 + A.Increments(L.Life(config, decoder, env, pieces).events, 0)
  {
    hide R.Run, Drives, L.Life, R.Good, Visits, A.Increments, Refusals, Honest, Approved, Q.Queries;
    var log := L.Life(config, decoder, env, pieces).events;
    CreditFromFrames(config, decoder, env, pieces, h, ops);
    A.LifeApproved(Q.World(env, config, decoder), pieces);
    ApprovedFrom(env, log, 0);
    assert Q.Queries([]) == 0 by { NoQueries(); }
    assert log[..0] == [] && log[0..] == log;
    NothingRefused(env, 0, h, log, ops);
  }

  lemma NoQueries()
    ensures Q.Queries([]) == 0
  {
  }
}

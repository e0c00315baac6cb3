/** TcpConnection as an object: each method is one section under its mutex and does what module Connection says. */
module ConnectionObject {
  import opened Bytes
  import Q = SendQueue
  import opened Connection

  class TcpConnection {
    const limits: Limits
    const queue: Q.SendQueue
    var state: State
    var reason: Option<Reason>
    var receiving: bool
    var sending: bool
    var outstanding: nat
    var closeAfterSend: bool
    var delivering: bool
    var removals: nat
    /** What was admitted, what was reported sent, and what the pending send was handed. */
    ghost var admitted: seq<Byte>
    ghost var sent: seq<Byte>
    var flight: seq<Q.Slice>
    /** What the receive handler was given, call by call. */
    var delivered: seq<seq<Byte>>

    ghost predicate Valid()
      reads this, queue
    {
      && queue.Valid() && queue.maxItems == limits.items && queue.maxBytes == limits.bytes
      && Inv(Model())
    }

    ghost function Model(): Conn
      reads this, queue
    {
      Conn(limits, state, reason, receiving, sending, outstanding, closeAfterSend, Q.Queue(queue.batches), delivering,
           admitted, sent, Q.SliceOctets(flight), removals, delivered)
    }

    /** The queue and its limits belong together; the rest of Valid may be broken inside a locked section. */
    ghost predicate Held()
      reads this, queue
    {
      queue.Valid() && queue.maxItems == limits.items && queue.maxBytes == limits.bytes
    }

    constructor (limits: Limits)
      requires Usable(limits)
      ensures Valid() && fresh(queue) && Model() == Connection.Fresh(limits)
    {
      this.limits := limits;
      queue := new Q.SendQueue(limits.items, limits.bytes);
      state, reason, receiving, sending, outstanding := Active, None, false, false, 0;
      closeAfterSend, delivering, removals, admitted, sent, flight, delivered := false, false, 0, [], [], [], [];
      new;
      Q.FrontSegment(queue.batches);
      FreshInv(limits);
      assert Q.Queue(queue.batches) == [] by { EmptyQueue(queue); }
    }

    method BeginCloseLocked(why: Reason)
      requires Held()
      modifies this
      ensures Held() && Model() == BeginClose(old(Model()), why)
    {
      if state == Active {
        state, reason, closeAfterSend := Closing, Some(why), false;
      }
    }

    method MoveToClosedIfDrainedLocked()
      requires Held()
      modifies this, queue
      ensures Held() && Model() == Settle(old(Model()))
    {
      if state == Closing && outstanding == 0 {
        state := Closed;
        queue.Clear();
        EmptyQueue(queue);
        removals := removals + 1;
      }
    }

    method CloseLocked(why: Reason)
      requires Held()
      modifies this, queue
      ensures Held() && Model() == Settle(BeginClose(old(Model()), why))
    {
      hide Q.SendQueue.Valid;
      BeginCloseLocked(why);
      MoveToClosedIfDrainedLocked();
    }

    method PostReceiveLocked(ok: bool) returns (posted: bool)
      requires Held()
      modifies this
      ensures Held() && (Model(), posted) == PostReceive(old(Model()), ok)
    {
      if state != Active || receiving {
        return false;
      }
      outstanding, receiving := outstanding + 1, true;
      if !ok {
        outstanding, receiving := outstanding - 1, false;
        return false;
      }
      return true;
    }

    method PostSendLocked(ok: bool) returns (posted: bool)
      requires Held()
      modifies this
      ensures Held() && (Model(), posted) == PostSend(old(Model()), ok)
    {
      hide Q.Slices, Q.SliceOctets, Q.Octets;
      Q.FrontSegment(queue.batches);
      if state != Active || sending || queue.batches == [] {
        return false;
      }
      var gather, total := queue.Gather(limits.gatherSegments, limits.gatherBytes);
      if gather == [] {
        return false;
      }
      outstanding, sending := outstanding + 1, true;
      if !ok {
        outstanding, sending := outstanding - 1, false;
        return false;
      }
      flight := gather;
      return true;
    }

    /** Start; the answer says whether the first receive was posted. */
    method BeginFirstReceive(ok: bool) returns (started: bool)
      requires Valid()
      modifies this, queue
      ensures Valid() && Model() == Step(old(Model()), Start(ok))
      ensures started <==> ok && old(state) == Active && !old(receiving)
      ensures !started && old(state) == Active ==> reason == Some(ReceiveError)
    {
      hide Inv, Q.SendQueue.Valid;
      StepKeeps(Model(), Start(ok));
      started := PostReceiveLocked(ok);
      if !started {
        CloseLocked(ReceiveError);
      }
    }

    /** SendBatchInternal. */
    method SendBatch(segments: seq<seq<Byte>>, close: bool, ok: bool) returns (status: SendStatus)
      requires Valid()
      modifies this, queue
      ensures Valid() && Model() == Step(old(Model()), Connection.Send(segments, close, ok))
      ensures status == SendAnswer(old(Model()), segments, close, ok)
    {
      hide Inv, Q.SendQueue.Valid, Q.Segments, Q.Octets, PostSend, Settle, BeginClose, Q.Queue;
      StepKeeps(Model(), Connection.Send(segments, close, ok));
      var buffers := SomeAll(segments);
      var built := Q.BuildSegments(buffers);
      var count := |built|;
      if count == 0 {
        if close {
          CloseLocked(ProtocolClose);
        }
        return Taken;
      }
      if state != Active || closeAfterSend {
        return Refused;
      }
      var pushed := false;
      if count <= limits.batchSegments {
        pushed := PushLocked(buffers);
      }
      if !pushed {
        CloseLocked(SendQueueOverflow);
        return Overflowed;
      }
      admitted := admitted + Q.Octets(built);
      closeAfterSend := close;
      status := Taken;
      if !sending {
        var posted := PostSendLocked(ok);
        if !posted {
          CloseLocked(SendError);
          status := StartFailed;
        }
      }
    }

    method PushLocked(buffers: seq<Option<seq<Byte>>>) returns (ok: bool)
      requires Held() && None !in buffers
      modifies queue
      ensures Held() && unchanged(this)
      ensures var more := Q.Segments(buffers); var q := old(Q.Queue(queue.batches));
              && (ok <==> |q| + |more| <= limits.items && |Q.Octets(q)| + |Q.Octets(more)| <= limits.bytes)
              && Q.Queue(queue.batches) == if ok then q + more else q
    {
      ok := queue.TryPushBatch(buffers);
    }

    method OnReceiveComplete(storage: seq<Byte>, bytes: nat, error: bool)
      requires Valid() && receiving
      modifies this, queue
      ensures Valid() && Model() == Step(old(Model()), ReceiveDone(storage, bytes, error))
    {
      hide Inv, Q.SendQueue.Valid, Q.Octets, Q.Tidy, Q.Queue, Q.SliceOctets, Settle, BeginClose;
      StepKeeps(Model(), ReceiveDone(storage, bytes, error));
      Outstanding(Model());
      outstanding, receiving := outstanding - 1, false;
      if error {
        CloseLocked(ReceiveError);
      } else if bytes == 0 {
        CloseLocked(PeerClosed);
      } else if bytes > |storage| {
        CloseLocked(ReceiveError);
      } else if state == Active {
        delivering := true;
        delivered := delivered + [storage[..bytes]];
      } else {
        MoveToClosedIfDrainedLocked();
      }
    }

    /** The second section of OnReceiveComplete, after the handler. */
    method PostNextReceive(ok: bool)
      requires Valid() && delivering
      modifies this, queue
      ensures Valid() && Model() == Step(old(Model()), NextReceive(ok))
    {
      hide Q.SendQueue.Valid, Q.Octets, Q.Tidy, Q.Queue;
      StepKeeps(Model(), NextReceive(ok));
      delivering := false;
      if state == Active {
        var posted := PostReceiveLocked(ok);
        if !posted {
          CloseLocked(ReceiveError);
        }
      }
    }

    method OnSendComplete(bytes: nat, error: bool, ok: bool)
      requires Valid() && sending
      modifies this, queue
      ensures Valid() && Model() == Step(old(Model()), SendDone(bytes, error, ok))
    {
      hide Inv, Q.SendQueue.Valid, Q.Octets, Q.Queue, Q.Drop, Q.SliceOctets, PostSend, Settle, BeginClose;
      ghost var c := Model();
      StepKeeps(c, SendDone(bytes, error, ok));
      Outstanding(c);
      outstanding, sending := outstanding - 1, false;
      if error {
        CloseLocked(SendError);
        return;
      }
      if state != Active {
        MoveToClosedIfDrainedLocked();
        return;
      }
      var submitted := |Q.SliceOctets(flight)|;
      var consumed := false;
      if 0 < bytes <= submitted {
        consumed := ConsumeLocked(bytes);
      }
      if !consumed {
        CloseLocked(SendError);
        return;
      }
      sent := sent + Q.SliceOctets(flight)[..bytes];
      if queue.batches != [] {
        var posted := PostSendLocked(ok);
        if !posted {
          CloseLocked(SendError);
        }
      } else if closeAfterSend {
        CloseLocked(ProtocolClose);
      }
    }

    method ConsumeLocked(bytes: nat) returns (ok: bool)
      requires Held() && bytes > 0
      modifies queue
      ensures Held() && unchanged(this)
      ensures var q := old(Q.Queue(queue.batches));
              ok == (bytes <= |Q.Octets(q)|) && Q.Queue(queue.batches) == if ok then Q.Drop(q, bytes) else q
      ensures queue.batches == [] <==> Q.Queue(queue.batches) == []
    {
      var r := queue.Consume(bytes);
      ok := r != Q.Invalid;
      Q.FrontSegment(queue.batches);
    }

    method BeginCloseFor(why: Reason)
      requires Valid()
      modifies this, queue
      ensures Valid() && Model() == Step(old(Model()), Close(why))
    {
      hide Inv, Q.SendQueue.Valid;
      StepKeeps(Model(), Close(why));
      CloseLocked(why);
    }
  }

  lemma EmptyQueue(q: Q.SendQueue)
    requires q.Valid() && q.Contents() == []
    ensures Q.Queue(q.batches) == []
  {
  }

  lemma Outstanding(c: Conn)
    requires Inv(c) && (c.sending || c.receiving)
    ensures c.outstanding > 0
  {
  }
}

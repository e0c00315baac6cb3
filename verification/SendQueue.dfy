/** The bounded send queue of send_queue.cpp: batches of segments with offsets, which refine one flat FIFO of octets. */
module SendQueue {
  import opened Bytes

  /** A buffer of which the first `offset` octets have been sent. */
  datatype Segment = Segment(data: seq<Byte>, offset: nat)

  /** Segments admitted together; those before `next` have been sent. */
  datatype Batch = Batch(segments: seq<Segment>, next: nat)

  /** Part of a buffer, as handed to the operating system. */
  datatype Slice = Slice(data: seq<Byte>, offset: nat, size: nat)

  datatype Consumed = Progress | ItemCompleted | Invalid

  // ---- the segments still to be sent, and their octets ----

  function Left(s: Segment): seq<Byte> {
    if s.offset <= |s.data| then s.data[s.offset..] else []
  }

  function Pending(b: Batch): seq<Segment> {
    if b.next <= |b.segments| then b.segments[b.next..] else []
  }

  function Queue(bs: seq<Batch>): seq<Segment> {
    if bs == [] then [] else Pending(bs[0]) + Queue(bs[1..])
  }

  function Octets(q: seq<Segment>): seq<Byte> {
    if q == [] then [] else Left(q[0]) + Octets(q[1..])
  }

  /** Every segment has octets left, and only the first may be partly sent. */
  predicate Tidy(q: seq<Segment>) {
    && (forall i :: 0 <= i < |q| ==> q[i].offset < |q[i].data|)
    && (forall i :: 0 < i < |q| ==> q[i].offset == 0)
  }

  predicate Open(bs: seq<Batch>) {
    forall i :: 0 <= i < |bs| ==> bs[i].next < |bs[i].segments|
  }

  lemma {:induction false} QueueAppend(a: seq<Batch>, b: seq<Batch>)
    ensures Queue(a + b) == Queue(a) + Queue(b)
  {
    if a == [] {
      assert a + b == b;
    } else {
      assert (a + b)[1..] == a[1..] + b && (a + b)[0] == a[0];
      QueueAppend(a[1..], b);
      Assoc(Pending(a[0]), Queue(a[1..]), Queue(b));
    }
  }

  lemma {:induction false} OctetsAppend(a: seq<Segment>, b: seq<Segment>)
    ensures Octets(a + b) == Octets(a) + Octets(b)
  {
    if a == [] {
      assert a + b == b;
    } else {
      assert (a + b)[1..] == a[1..] + b && (a + b)[0] == a[0];
      OctetsAppend(a[1..], b);
      Assoc(Left(a[0]), Octets(a[1..]), Octets(b));
    }
  }

  // ---- admission ----

  /** The segments of a batch: null buffers refuse it, empty ones are left out. */
  function Segments(buffers: seq<Option<seq<Byte>>>): seq<Segment>
    requires None !in buffers
  {
    if buffers == [] then []
    else (if buffers[0].value == [] then [] else [Segment(buffers[0].value, 0)]) + Segments(buffers[1..])
  }

  function Values(buffers: seq<Option<seq<Byte>>>): seq<seq<Byte>>
    requires None !in buffers
  {
    if buffers == [] then [] else [buffers[0].value] + Values(buffers[1..])
  }

  /** Leaving empty buffers out loses no octet. */
  lemma {:induction false} SegmentsCarryAll(buffers: seq<Option<seq<Byte>>>)
    requires None !in buffers
    ensures Octets(Segments(buffers)) == Flatten(Values(buffers))
    ensures forall i :: 0 <= i < |Segments(buffers)| ==> Segments(buffers)[i].offset == 0 < |Segments(buffers)[i].data|
  {
    if buffers != [] {
      SegmentsCarryAll(buffers[1..]);
      var first: seq<Segment> := if buffers[0].value == [] then [] else [Segment(buffers[0].value, 0)];
      OctetsAppend(first, Segments(buffers[1..]));
      assert first != [] ==> first[1..] == [];
    }
  }

  lemma {:induction false} SegmentsLast(buffers: seq<Option<seq<Byte>>>, b: Option<seq<Byte>>)
    requires None !in buffers && b.Some?
    ensures Segments(buffers + [b]) == Segments(buffers) + if b.value == [] then [] else [Segment(b.value, 0)]
  {
    if buffers == [] {
      assert buffers + [b] == [b];
    } else {
      assert (buffers + [b])[1..] == buffers[1..] + [b];
      SegmentsLast(buffers[1..], b);
    }
  }

  /** One more buffer of a batch. */
  lemma {:induction false} PushOne(buffers: seq<Option<seq<Byte>>>, i: nat)
    requires i < |buffers| && None !in buffers[..i] && buffers[i].Some?
    ensures None !in buffers[..i + 1]
    ensures var a, b := Segments(buffers[..i]), Segments(buffers[..i + 1]);
            && |b| == |a| + (if buffers[i].value == [] then 0 else 1)
            && |Octets(b)| == |Octets(a)| + |buffers[i].value|
  {
    assert buffers[..i + 1] == buffers[..i] + [buffers[i]];
    SegmentsLast(buffers[..i], buffers[i]);
    var last: seq<Segment> := if buffers[i].value == [] then [] else [Segment(buffers[i].value, 0)];
    OctetsAppend(Segments(buffers[..i]), last);
    assert last != [] ==> last[1..] == [];
  }

  lemma {:induction false} PushGrows(buffers: seq<Option<seq<Byte>>>, i: nat)
    requires i <= |buffers| && None !in buffers
    ensures |Segments(buffers[..i])| <= |Segments(buffers)| && |Octets(Segments(buffers[..i]))| <= |Octets(Segments(buffers))|
    decreases |buffers| - i
  {
    if i == |buffers| {
      assert buffers[..i] == buffers;
    } else {
      PushOne(buffers, i);
      PushGrows(buffers, i + 1);
    }
  }

  lemma {:induction false} NoBuffers(buffers: seq<Option<seq<Byte>>>)
    ensures Segments(buffers[..0]) == [] && Octets(Segments(buffers[..0])) == []
  {
  }

  lemma {:induction false} NoOctets(q: seq<Segment>)
    requires q == []
    ensures Octets(q) == []
  {
  }

  /** The loop that builds the batch. */
  method BuildSegments(buffers: seq<Option<seq<Byte>>>) returns (segments: seq<Segment>)
    requires None !in buffers
    ensures segments == Segments(buffers)
  {
    segments := [];
    for i := 0 to |buffers|
      invariant segments == Segments(buffers[..i])
    {
      assert buffers[..i + 1] == buffers[..i] + [buffers[i]];
      SegmentsLast(buffers[..i], buffers[i]);
      if buffers[i].value != [] {
        segments := segments + [Segment(buffers[i].value, 0)];
      }
    }
    assert buffers[..|buffers|] == buffers;
  }

  // ---- gathering ----

  /** The slices of a queue within a number of segments and of octets. */
  function Slices(q: seq<Segment>, segments: nat, bytes: nat): seq<Slice> {
    if q == [] || segments == 0 || bytes == 0 then []
    else
      var n := Min(|Left(q[0])|, bytes);
      [Slice(q[0].data, q[0].offset, n)] + Slices(q[1..], segments - 1, bytes - n)
  }

  function SliceOctets(slices: seq<Slice>): seq<Byte> {
    if slices == [] then []
    else
      var s := slices[0];
      (if s.offset + s.size <= |s.data| then s.data[s.offset..s.offset + s.size] else []) + SliceOctets(slices[1..])
  }

  lemma {:induction false} SliceFirst(s: Slice, rest: seq<Slice>)
    requires s.offset + s.size <= |s.data|
    ensures SliceOctets([s] + rest) == s.data[s.offset..s.offset + s.size] + SliceOctets(rest)
  {
    assert ([s] + rest)[1..] == rest;
  }

  /** A gather is a prefix of the queue's octets within both limits, as long as they allow: it stops only
      at the end of the queue, at the octet limit or at the segment limit. */
  lemma {:induction false} GatherIsPrefix(q: seq<Segment>, segments: nat, bytes: nat)
    requires Tidy(q)
    ensures var g := Slices(q, segments, bytes);
            var octets := SliceOctets(g);
            && octets <= Octets(q) && |g| <= segments && |octets| <= bytes
            && (octets == Octets(q) || |octets| == bytes || |g| == segments)
            && (g != [] <==> q != [] && segments > 0 && bytes > 0) && (g != [] ==> octets != [])
    decreases |q|
  {
    hide SliceOctets, Tidy, Left;
    if q == [] || segments == 0 || bytes == 0 {
      assert SliceOctets([]) == [] by { NoSlices(); }
    } else {
      var left, later := Left(q[0]), Octets(q[1..]);
      var n := Min(|left|, bytes);
      TidyFirst(q);
      var rest := Slices(q[1..], segments - 1, bytes - n);
      GatherIsPrefix(q[1..], segments - 1, bytes - n);
      SliceFirst(Slice(q[0].data, q[0].offset, n), rest);
      assert q[0].data[q[0].offset..q[0].offset + n] == left[..n];
      PrefixParts(left, n, later, SliceOctets(rest));
    }
  }

  /** At most that many octets from the front. */
  function Take(s: seq<Byte>, n: nat): seq<Byte> {
    if n < |s| then s[..n] else s
  }

  lemma TakeParts(a: seq<Byte>, b: seq<Byte>, n: nat)
    ensures Take(a + b, n) == if n < |a| then a[..n] else a + Take(b, n - |a|)
  {
  }

  /** Exactly: the first octets of the first segments, up to either limit. */
  lemma {:induction false} GatherIsFront(q: seq<Segment>, segments: nat, bytes: nat)
    requires Tidy(q)
    ensures SliceOctets(Slices(q, segments, bytes)) == Take(Octets(q[..Min(segments, |q|)]), bytes)
    decreases |q|
  {
    hide SliceOctets, Tidy, Left, Take;
    var front := q[..Min(segments, |q|)];
    if q == [] || segments == 0 || bytes == 0 {
      NoSlices();
      TakeNone(Octets(front), bytes);
      assert front == [] || bytes == 0;
    } else {
      var left := Left(q[0]);
      var n := Min(|left|, bytes);
      TidyFirst(q);
      var rest := q[1..];
      GatherIsFront(rest, segments - 1, bytes - n);
      SliceFirst(Slice(q[0].data, q[0].offset, n), Slices(rest, segments - 1, bytes - n));
      assert q[0].data[q[0].offset..q[0].offset + n] == left[..n];
      assert front[0] == q[0] && front[1..] == rest[..Min(segments - 1, |rest|)];
      TakeParts(left, Octets(front[1..]), bytes);
      if bytes <= |left| {
        TakeNone(Octets(front[1..]), 0);
        TakeAll(left, Octets(front[1..]), bytes);
      }
    }
  }

  lemma TakeNone(s: seq<Byte>, n: nat)
    ensures n == 0 || s == [] ==> Take(s, n) == []
  {
  }

  lemma TakeAll(a: seq<Byte>, b: seq<Byte>, n: nat)
    requires n <= |a|
    ensures Take(a + b, n) == a[..n] + []
  {
  }

  lemma {:induction false} TidyFirst(q: seq<Segment>)
    requires Tidy(q) && q != []
    ensures q[0].offset < |q[0].data| && Left(q[0]) == q[0].data[q[0].offset..] && Tidy(q[1..])
  {
  }

  lemma {:induction false} NoSlices()
    ensures SliceOctets([]) == []
  {
  }

  lemma {:induction false} PrefixParts(left: seq<Byte>, n: nat, later: seq<Byte>, more: seq<Byte>)
    requires n <= |left| && more <= later && (n < |left| ==> more == [])
    ensures left[..n] + more <= left + later
    ensures n == |left| ==> left[..n] == left
  {
    if n < |left| {
      assert left[..n] + more == left[..n];
      assert left[..n] == (left + later)[..n];
    }
  }

  // ---- consuming ----

  /** The queue after its first k octets are sent. */
  function Drop(q: seq<Segment>, k: nat): seq<Segment> {
    if k == 0 || q == [] then q
    else
      var n := |Left(q[0])|;
      if k < n then [q[0].(offset := q[0].offset + k)] + q[1..] else Drop(q[1..], k - n)
  }

  /** The k-th octet is the last of its segment. */
  predicate EndsSegment(q: seq<Segment>, k: nat) {
    q != [] &&
    var n := |Left(q[0])|;
    k == n || (k > n && EndsSegment(q[1..], k - n))
  }

  lemma SkipLeft(left: seq<Byte>, rest: seq<Byte>, k: nat)
    requires k <= |left + rest|
    ensures (left + rest)[k..] == if k < |left| then left[k..] + rest else rest[k - |left|..]
  {
  }

  lemma {:induction false} DropDrops(q: seq<Segment>, k: nat)
    requires Tidy(q) && k <= |Octets(q)|
    ensures Tidy(Drop(q, k)) && Octets(Drop(q, k)) == Octets(q)[k..]
    decreases |q|
  {
    hide Tidy, Left;
    if k > 0 && q != [] {
      var left, rest := Left(q[0]), Octets(q[1..]);
      TidyFirst(q);
      if k < |left| {
        PartlySent(q, k);
        SkipLeft(left, rest, k);
      } else {
        DropDrops(q[1..], k - |left|);
        SkipLeft(left, rest, k);
      }
    }
  }

  lemma {:induction false} PartlySent(q: seq<Segment>, k: nat)
    requires Tidy(q) && q != [] && 0 < k < |Left(q[0])|
    ensures var r := [q[0].(offset := q[0].offset + k)] + q[1..];
            Tidy(r) && Octets(r) == Left(q[0])[k..] + Octets(q[1..])
  {
    var head := q[0].(offset := q[0].offset + k);
    assert Left(head) == Left(q[0])[k..];
    assert ([head] + q[1..])[1..] == q[1..];
  }

  /** Sending in two instalments; a later end of a segment is an end of the whole. */
  lemma {:induction false} DropTwice(q: seq<Segment>, k: nat, n: nat)
    requires Tidy(q) && q != [] && 0 < k <= n && k <= |Left(q[0])| && (k < n ==> k == |Left(q[0])|)
    ensures Drop(Drop(q, k), n - k) == Drop(q, n)
    ensures k < n ==> (EndsSegment(q, n) <==> EndsSegment(Drop(q, k), n - k))
    ensures k == n ==> (EndsSegment(q, n) <==> k == |Left(q[0])|)
    ensures k == |Left(q[0])| ==> Drop(q, k) == q[1..] && (q[1..] == [] || q[1..][0].offset == 0)
    ensures k < |Left(q[0])| ==> Drop(q, k) != [] && Drop(q, k)[0].offset > 0
  {
    DropFront(q, k);
  }

  lemma {:induction false} FrontOctets(q: seq<Segment>)
    requires q != []
    ensures |Left(q[0])| <= |Octets(q)|
  {
  }

  /** Dropping within the first segment, or exactly all of it. */
  lemma {:induction false} DropFront(q: seq<Segment>, k: nat)
    requires q != [] && 0 < k <= |Left(q[0])|
    ensures Drop(q, k) == if k == |Left(q[0])| then q[1..] else [q[0].(offset := q[0].offset + k)] + q[1..]
  {
  }

  // ---- the object ----

  class SendQueue {
    const maxItems: nat
    const maxBytes: nat
    var batches: seq<Batch>
    var itemCount: nat
    var queuedBytes: nat

    /** The counters match the structure and stay within bounds. */
    ghost predicate Valid()
      reads this
    {
      && Open(batches) && Tidy(Queue(batches))
      && itemCount == |Queue(batches)| <= maxItems
      && queuedBytes == |Contents()| <= maxBytes
    }

    /** The octets still to be sent, in order. */
    ghost function Contents(): seq<Byte>
      reads this
    {
      Octets(Queue(batches))
    }

    constructor (maxItems: nat, maxBytes: nat)
      ensures Valid() && Contents() == [] && this.maxItems == maxItems && this.maxBytes == maxBytes
    {
      this.maxItems, this.maxBytes := maxItems, maxBytes;
      batches, itemCount, queuedBytes := [], 0, 0;
    }

    /** The admission check: how many items and octets the batch has, if it may be admitted. */
    method Measure(buffers: seq<Option<seq<Byte>>>) returns (ok: bool, items: nat, bytes: nat)
      requires itemCount <= maxItems && queuedBytes <= maxBytes
      ensures ok <==> None !in buffers && itemCount + |Segments(buffers)| <= maxItems
                      && queuedBytes + |Octets(Segments(buffers))| <= maxBytes
      ensures ok ==> items == |Segments(buffers)| && bytes == |Octets(Segments(buffers))|
    {
      hide Segments, Octets;
      items, bytes := 0, 0;
      NoBuffers(buffers);
      for i := 0 to |buffers|
        invariant None !in buffers[..i]
        invariant items == |Segments(buffers[..i])| && bytes == |Octets(Segments(buffers[..i]))|
        invariant itemCount + items <= maxItems && queuedBytes + bytes <= maxBytes
      {
        if buffers[i].None? {
          return false, 0, 0;
        }
        PushOne(buffers, i);
        var size := |buffers[i].value|;
        if size > 0 {
          if items == maxItems - itemCount || size > maxBytes - queuedBytes - bytes {
            if None !in buffers {
              PushGrows(buffers, i + 1);
            }
            return false, 0, 0;
          }
          items, bytes := items + 1, bytes + size;
        }
      }
      assert buffers[..|buffers|] == buffers;
      ok := true;
    }

    /** Admits a whole batch, or refuses it and changes nothing: refused exactly if a buffer is null or
        the items or the octets would exceed their limit. */
    method TryPushBatch(buffers: seq<Option<seq<Byte>>>) returns (ok: bool)
      requires Valid()
      modifies this
      ensures Valid()
      ensures ok <==> None !in buffers && |old(Queue(batches))| + |Segments(buffers)| <= maxItems
                      && |old(Contents())| + |Octets(Segments(buffers))| <= maxBytes
      ensures ok ==> Contents() == old(Contents()) + Flatten(Values(buffers))
      ensures ok ==> Queue(batches) == old(Queue(batches)) + Segments(buffers)
      ensures !ok ==> unchanged(this)
    {
      hide Segments, Octets, Queue, Tidy, Open, Values, Flatten;
      var items, bytes;
      ok, items, bytes := Measure(buffers);
      if ok {
        SegmentsCarryAll(buffers);
        if items == 0 {
          NoOctets(Segments(buffers));
          assert Contents() + [] == Contents() && Queue(batches) + [] == Queue(batches);
        } else {
          var segments := BuildSegments(buffers);
          Admit(Batch(segments, 0), items, bytes);
        }
      }
    }

    method Admit(batch: Batch, items: nat, bytes: nat)
      requires Valid() && batch.next == 0 && batch.segments != [] && items == |batch.segments|
      requires bytes == |Octets(batch.segments)| && itemCount + items <= maxItems && queuedBytes + bytes <= maxBytes
      requires forall i :: 0 <= i < |batch.segments| ==> batch.segments[i].offset == 0 < |batch.segments[i].data|
      modifies this
      ensures Valid() && Queue(batches) == old(Queue(batches)) + batch.segments
      ensures Contents() == old(Contents()) + Octets(batch.segments)
    {
      hide Octets;
      QueueAppend(batches, [batch]);
      OctetsAppend(Queue(batches), batch.segments);
      assert Pending(batch) == batch.segments;
      ghost var one := [batch];
      assert one[1..] == [] && Queue(one) == batch.segments;
      batches := batches + [batch];
      itemCount, queuedBytes := itemCount + items, queuedBytes + bytes;
    }

    /** Gather: slices of the pending segments, batch by batch, within both limits. */
    method Gather(segments: nat, bytes: nat) returns (slices: seq<Slice>, total: nat)
      requires Valid()
      ensures slices == Slices(Queue(batches), segments, bytes) && total == |SliceOctets(slices)|
    {
      hide Slices, SliceOctets, Octets, Tidy, Queue;
      slices, total := [], 0;
      NoSlices();
      var b := 0;
      assert batches[0..] == batches;
      while b < |batches| && |slices| < segments && total < bytes
        invariant 0 <= b <= |batches| && |slices| <= segments && total <= bytes
        invariant Slices(Queue(batches), segments, bytes) ==
                  slices + Slices(Queue(batches[b..]), segments - |slices|, bytes - total)
        invariant total == |SliceOctets(slices)| && Tidy(Queue(batches[b..]))
      {
        QueueAt(batches, b);
        ghost var later := Queue(batches[b + 1..]);
        TidyTail(Pending(batches[b]), later);
        slices, total := GatherBatch(batches[b], later, segments, bytes, slices, total);
        b := b + 1;
      }
      QueueDone(batches, b);
      LimitReached(Queue(batches[b..]), segments - |slices|, bytes - total);
    }

    /** The inner loop of Gather, over one batch; `later` is what the batches after it hold. */
    method GatherBatch(batch: Batch, ghost later: seq<Segment>, segments: nat, bytes: nat, before: seq<Slice>, sum: nat)
      returns (slices: seq<Slice>, total: nat)
      requires batch.next <= |batch.segments| && Tidy(Pending(batch) + later)
      requires |before| <= segments && sum == |SliceOctets(before)| <= bytes
      ensures |slices| <= segments && total == |SliceOctets(slices)| <= bytes
      ensures before + Slices(Pending(batch) + later, segments - |before|, bytes - sum) ==
              slices + Slices(later, segments - |slices|, bytes - total)
    {
      hide Slices, SliceOctets, Tidy;
      slices, total := before, sum;
      var index := batch.next;
      ghost var whole := before + Slices(Pending(batch) + later, segments - |before|, bytes - sum);
      while index < |batch.segments| && |slices| < segments && total < bytes
        invariant batch.next <= index <= |batch.segments| && |slices| <= segments && total <= bytes
        invariant total == |SliceOctets(slices)| && Tidy(batch.segments[index..] + later)
        invariant whole == slices + Slices(batch.segments[index..] + later, segments - |slices|, bytes - total)
      {
        var segment := batch.segments[index];
        ghost var here := batch.segments[index..] + later;
        assert here[0] == segment && here[1..] == batch.segments[index + 1..] + later;
        TidyFirst(here);
        var n := Min(|segment.data| - segment.offset, bytes - total);
        var slice := Slice(segment.data, segment.offset, n);
        SlicesStep(here, segments - |slices|, bytes - total);
        GatherMore(slices, slice);
        Assoc(slices, [slice], Slices(here[1..], segments - |slices| - 1, bytes - total - n));
        slices := slices + [slice];
        total := total + n;
        index := index + 1;
      }
      if index == |batch.segments| {
        assert batch.segments[index..] + later == later;
      } else {
        LimitReached(batch.segments[index..] + later, segments - |slices|, bytes - total);
        LimitReached(later, segments - |slices|, bytes - total);
      }
    }

    /** Consume: drops exactly k octets from the front, across segments and batches. */
    method Consume(k: nat) returns (r: Consumed)
      requires Valid()
      modifies this
      ensures Valid()
      ensures r == Invalid <==> k == 0 || k > |old(Contents())|
      ensures r == Invalid ==> unchanged(this)
      ensures r != Invalid ==> Contents() == old(Contents())[k..] && Queue(batches) == Drop(old(Queue(batches)), k)
      ensures r != Invalid ==> (r == ItemCompleted <==> EndsSegment(old(Queue(batches)), k))
    {
      if batches == [] || k == 0 || k > queuedBytes {
        return Invalid;
      }
      hide Queue, Octets, Tidy, Drop, EndsSegment;
      ghost var whole := Queue(batches);
      var todo := k;
      var completed := false;
      DropDrops(whole, k);
      while todo != 0
        invariant Valid() && 0 <= todo <= queuedBytes
        invariant Drop(Queue(batches), todo) == Drop(whole, k)
        invariant EndsSegment(whole, k) <==>
                  if todo == 0 then completed && (Queue(batches) == [] || Queue(batches)[0].offset == 0)
                  else EndsSegment(Queue(batches), todo)
      {
        ghost var q := Queue(batches);
        BatchesRemain(batches);
        var consumed, ended := TakeFront(todo);
        DropTwice(q, consumed, todo);
        completed := completed || ended;
        todo := todo - consumed;
      }
      NothingDropped(Queue(batches));
      FrontSegment(batches);
      r := if completed && (batches == [] || batches[0].segments[batches[0].next].offset == 0) then ItemCompleted else Progress;
    }

    /** One turn of the loop of Consume: what it can from the front segment. */
    method TakeFront(todo: nat) returns (consumed: nat, ended: bool)
      requires Valid() && 0 < todo <= queuedBytes && batches != []
      modifies this
      ensures Valid() && 0 < consumed <= todo && queuedBytes == old(queuedBytes) - consumed
      ensures Queue(batches) == Drop(old(Queue(batches)), consumed)
      ensures var q := old(Queue(batches));
              q != [] && consumed == Min(todo, |Left(q[0])|) && (ended <==> consumed == |Left(q[0])|)
    {
      hide Queue, Octets, Tidy;
      ghost var q := Queue(batches);
      FrontSegment(batches);
      var batch := batches[0];
      var segment := batch.segments[batch.next];
      TidyFirst(q);
      FrontOctets(q);
      consumed := Min(todo, |segment.data| - segment.offset);
      DropDrops(q, consumed);
      var sent := segment.(offset := segment.offset + consumed);
      ended := sent.offset == |segment.data|;
      queuedBytes := queuedBytes - consumed;
      FrontChanges(batches, sent);
      DropFront(q, consumed);
      if !ended {
        batches := [batch.(segments := batch.segments[batch.next := sent])] + batches[1..];
      } else {
        itemCount := itemCount - 1;
        if batch.next + 1 == |batch.segments| {
          batches := batches[1..];
        } else {
          batches := [batch.(next := batch.next + 1)] + batches[1..];
        }
      }
    }

    method Clear()
      modifies this
      ensures Valid() && Contents() == []
    {
      batches, itemCount, queuedBytes := [], 0, 0;
    }
  }

  lemma {:induction false} SlicesStep(q: seq<Segment>, segments: nat, bytes: nat)
    requires q != [] && segments > 0 && bytes > 0
    ensures var n := Min(|Left(q[0])|, bytes);
            Slices(q, segments, bytes) == [Slice(q[0].data, q[0].offset, n)] + Slices(q[1..], segments - 1, bytes - n)
  {
  }

  lemma {:induction false} LimitReached(q: seq<Segment>, segments: nat, bytes: nat)
    ensures q == [] || segments == 0 || bytes == 0 ==> Slices(q, segments, bytes) == []
  {
  }

  lemma {:induction false} QueueAt(bs: seq<Batch>, b: nat)
    requires b < |bs|
    ensures Queue(bs[b..]) == Pending(bs[b]) + Queue(bs[b + 1..])
  {
    assert bs[b..][1..] == bs[b + 1..];
  }

  lemma {:induction false} QueueDone(bs: seq<Batch>, b: nat)
    requires b <= |bs|
    ensures b == |bs| ==> Queue(bs[b..]) == []
  {
  }

  lemma {:induction false} TidyTail(a: seq<Segment>, b: seq<Segment>)
    requires Tidy(a + b)
    ensures Tidy(b)
  {
    forall i | 0 <= i < |b| ensures b[i].offset < |b[i].data| && (i > 0 ==> b[i].offset == 0) {
      assert (a + b)[|a| + i] == b[i];
    }
  }

  lemma {:induction false} GatherMore(slices: seq<Slice>, s: Slice)
    requires s.offset + s.size <= |s.data|
    ensures |SliceOctets(slices + [s])| == |SliceOctets(slices)| + s.size
  {
    if slices == [] {
      assert slices + [s] == [s];
    } else {
      assert (slices + [s])[1..] == slices[1..] + [s];
      GatherMore(slices[1..], s);
    }
  }

  /** Octets remain only in batches. */
  lemma {:induction false} BatchesRemain(bs: seq<Batch>)
    ensures Octets(Queue(bs)) != [] ==> bs != []
  {
  }

  lemma {:induction false} NothingDropped(q: seq<Segment>)
    ensures Drop(q, 0) == q
  {
  }

  /** The front segment of the queue is the next one of the front batch. */
  lemma {:induction false} FrontSegment(bs: seq<Batch>)
    requires Open(bs)
    ensures bs == [] <==> Queue(bs) == []
    ensures bs != [] ==> Queue(bs)[0] == bs[0].segments[bs[0].next]
  {
  }

  lemma {:induction false} QueueCons(b: Batch, rest: seq<Batch>)
    ensures Queue([b] + rest) == Pending(b) + Queue(rest)
  {
    assert ([b] + rest)[1..] == rest;
  }

  lemma {:induction false} ReplacePending(b: Batch, s: Segment)
    requires b.next < |b.segments|
    ensures Pending(b.(segments := b.segments[b.next := s])) == [s] + Pending(b)[1..]
  {
  }

  /** The queue when the front segment is replaced, and when it is passed over. */
  lemma {:induction false} FrontChanges(bs: seq<Batch>, s: Segment)
    requires bs != [] && bs[0].next < |bs[0].segments|
    ensures var b, rest := bs[0], bs[1..];
            && Queue(bs) != []
            && Queue([b.(segments := b.segments[b.next := s])] + rest) == [s] + Queue(bs)[1..]
            && Queue([b.(next := b.next + 1)] + rest) == Queue(bs)[1..]
            && (b.next + 1 == |b.segments| ==> Queue(rest) == Queue(bs)[1..])
  {
    hide Queue;
    var b, rest := bs[0], bs[1..];
    var c, d := b.(segments := b.segments[b.next := s]), b.(next := b.next + 1);
    assert bs == [b] + rest;
    QueueCons(b, rest);
    QueueCons(c, rest);
    QueueCons(d, rest);
    ReplacePending(b, s);
    assert Pending(d) == Pending(b)[1..];
  }
}

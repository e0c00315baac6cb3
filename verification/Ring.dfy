/** The growing ring of octets behind a connection: ring_receive_buffer.cpp, and the one or two spans
    through which it is read and written: buffer_sequence.h. */
module Ring {
  import opened Bytes

  /** Where the k-th octet after the start of a ring of `capacity` lies, for k below twice the capacity. */
  function Slot(capacity: nat, k: nat): nat {
    if k < capacity then k else k - capacity
  }

  lemma SlotIsModulo(capacity: nat, k: nat)
    requires 0 < capacity && k < 2 * capacity
    ensures k % capacity == Slot(capacity, k) < capacity
  {
    if k >= capacity {
      assert k == capacity * 1 + (k - capacity);
    }
  }

  /** The n octets from `offset` on, around the end of the storage. */
  function Around(storage: seq<Byte>, offset: nat, n: nat): (r: seq<Byte>)
    requires offset < |storage| && n <= |storage|
    ensures |r| == n && forall i :: 0 <= i < n ==> r[i] == storage[Slot(|storage|, offset + i)]
  {
    seq(n, i requires 0 <= i < n => storage[Slot(|storage|, offset + i)])
  }

  // ---- one or two spans ----

  /** BufferSequence: empty spans are left out. */
  function Spans(first: seq<Byte>, second: seq<Byte>): (r: seq<seq<Byte>>)
    ensures |r| <= 2 && Flatten(r) == first + second
    ensures forall i :: 0 <= i < |r| ==> r[i] != []
  {
    var a := if first == [] then [] else [first];
    var b := if second == [] then [] else [second];
    FlattenAppend(a, b);
    FlattenSingle(first);
    FlattenSingle(second);
    a + b
  }

  /** BufferSequence::At: None where the source throws. */
  function OctetAt(spans: seq<seq<Byte>>, index: nat): Option<Byte>
    requires |spans| <= 2
  {
    if index >= |Flatten(spans)| then None
    else if index < |spans[0]| then Some(spans[0][index])
    else if |spans| == 2 && index - |spans[0]| < |spans[1]| then Some(spans[1][index - |spans[0]|])
    else None
  }

  /** Lookups agree with the logical sequence, and throw exactly beyond its end. */
  lemma OctetAtAgrees(spans: seq<seq<Byte>>, index: nat)
    requires |spans| <= 2
    ensures OctetAt(spans, index) == if index < |Flatten(spans)| then Some(Flatten(spans)[index]) else None
  {
    if spans != [] {
      assert Flatten(spans) == spans[0] + Flatten(spans[1..]);
      if |spans| == 2 {
        assert spans[1..] == [spans[1]];
        FlattenSingle(spans[1]);
      } else {
        assert spans[1..] == [];
      }
    }
  }

  /** Overwrites part of an array: the memcpy of the copy loops. */
  method Overwrite(a: array<Byte>, at: nat, bytes: seq<Byte>)
    requires at + |bytes| <= a.Length
    modifies a
    ensures forall k :: 0 <= k < a.Length ==> a[k] == if at <= k < at + |bytes| then bytes[k - at] else old(a[k])
  {
    for i := 0 to |bytes|
      invariant forall k :: 0 <= k < a.Length ==> a[k] == if at <= k < at + i then bytes[k - at] else old(a[k])
    {
      a[at + i] := bytes[i];
    }
  }

  lemma FlattenFrom(spans: seq<seq<Byte>>, index: nat)
    requires index < |spans|
    ensures Flatten(spans[index..]) == spans[index] + Flatten(spans[index + 1..])
  {
    assert spans[index..][1..] == spans[index + 1..];
  }

  /** BufferSequence::CopyTo into the first n places of an array; refused, where the source throws,
      exactly if the range exceeds the sequence. */
  method CopyTo(spans: seq<seq<Byte>>, offset: nat, destination: array<Byte>, n: nat) returns (ok: bool)
    requires n <= destination.Length
    modifies destination
    ensures ok <==> offset + n <= |Flatten(spans)|
    ensures ok ==> destination[..n] == Flatten(spans)[offset..offset + n]
    ensures forall k :: n <= k < destination.Length ==> destination[k] == old(destination[k])
    ensures !ok ==> destination[..] == old(destination[..])
  {
    hide Flatten;
    ghost var all := Flatten(spans);
    var size := Size(spans);
    if offset > size || n > size - offset {
      return false;
    }
    var source, copied, index := offset, 0, 0;
    assert spans[0..] == spans;
    while index < |spans| && copied < n
      invariant 0 <= index <= |spans| && 0 <= copied <= n && 0 <= source
      invariant destination[..copied] == all[offset..offset + copied]
      invariant forall k :: n <= k < destination.Length ==> destination[k] == old(destination[k])
      invariant copied < n ==> |all| - |Flatten(spans[index..])| + source == offset + copied
      invariant copied < n ==> all[offset + copied..] == Flatten(spans[index..])[source..]
      decreases |spans| - index
    {
      var span := spans[index];
      ghost var rest := Flatten(spans[index + 1..]);
      FlattenFrom(spans, index);
      if source >= |span| {
        assert (span + rest)[source..] == rest[source - |span|..];
        source := source - |span|;
      } else {
        var bytes := Min(|span| - source, n - copied);
        CopyStep(all, offset + copied, span, source, rest, bytes);
        Overwrite(destination, copied, span[source..source + bytes]);
        assert destination[..copied + bytes] == all[offset..offset + copied] + span[source..source + bytes];
        Extended(all, offset, copied, bytes);
        copied := copied + bytes;
        source := 0;
      }
      index := index + 1;
    }
    NothingFrom(spans);
    ok := true;
  }

  lemma Extended(all: seq<Byte>, offset: nat, copied: nat, bytes: nat)
    requires offset + copied + bytes <= |all|
    ensures all[offset..offset + copied] + all[offset + copied..offset + copied + bytes] ==
            all[offset..offset + copied + bytes]
  {
  }

  lemma NothingFrom(spans: seq<seq<Byte>>)
    ensures Flatten(spans[|spans|..]) == []
  {
  }

  method Size(spans: seq<seq<Byte>>) returns (n: nat)
    ensures n == |Flatten(spans)|
  {
    n := 0;
    var i := |spans|;
    while i > 0
      invariant 0 <= i <= |spans| && n == |Flatten(spans[i..])|
    {
      i := i - 1;
      assert spans[i..][1..] == spans[i + 1..];
      n := n + |spans[i]|;
    }
    assert spans[0..] == spans;
  }

  lemma CopyStep(all: seq<Byte>, at: nat, span: seq<Byte>, source: nat, rest: seq<Byte>, bytes: nat)
    requires at <= |all| && source <= |span| && all[at..] == (span + rest)[source..] && source + bytes <= |span|
    ensures at + bytes <= |all| && all[at..at + bytes] == span[source..source + bytes]
    ensures source + bytes == |span| ==> all[at + bytes..] == rest
  {
    assert (span + rest)[source..] == span[source..] + rest;
    assert all[at..at + bytes] == all[at..][..bytes];
    assert all[at + bytes..] == all[at..][bytes..];
    assert span[source..source + bytes] == span[source..][..bytes];
  }

  // ---- the ring ----

  /** Doubled `k` times, and not once more than needed. */
  predicate Raised(from: nat, required: nat, capacity: nat, k: nat) {
    capacity == from * Pow2(k) && (k > 0 ==> from * Pow2(k - 1) < required)
  }

  /** Doubling `k` times is not enough, and doubling once more is too much. */
  predicate Topped(from: nat, required: nat, maximum: nat, k: nat) {
    from * Pow2(k) < required && from * Pow2(k) > maximum / 2
  }

  /** A capacity grows by doubling until it suffices, or to the maximum where doubling would exceed it. */
  ghost predicate Doubled(from: nat, required: nat, maximum: nat, capacity: nat) {
    || (exists k: nat :: Raised(from, required, capacity, k))
    || (capacity == maximum && exists k: nat :: Topped(from, required, maximum, k))
  }

  class RingReceiveBuffer {
    const maxCapacity: nat
    var storage: array<Byte>
    var readOffset: nat
    var readable: nat

    ghost predicate Valid()
      reads this
    {
      0 < storage.Length <= maxCapacity && readOffset < storage.Length && readable <= storage.Length
    }

    /** The octets to be read, in order. */
    ghost function Contents(): seq<Byte>
      requires Valid()
      reads this, storage
    {
      Around(storage[..], readOffset, readable)
    }

    constructor (initial: nat, maximum: nat)
      requires 0 < initial <= maximum
      ensures Valid() && Contents() == [] && maxCapacity == maximum && fresh(storage) && storage.Length == initial
    {
      storage := new Byte[initial](i => 0);
      maxCapacity, readOffset, readable := maximum, 0, 0;
    }

    method ReadableSequence() returns (spans: seq<seq<Byte>>)
      requires Valid()
      ensures |spans| <= 2 && Flatten(spans) == Contents() && forall i :: 0 <= i < |spans| ==> spans[i] != []
    {
      var first := Min(readable, storage.Length - readOffset);
      spans := Spans(storage[readOffset..readOffset + first], storage[..readable - first]);
      assert storage[readOffset..readOffset + first] + storage[..readable - first] == Contents();
    }

    /** Grow: the octets move to the front of a larger storage. */
    method Grow(capacity: nat)
      requires Valid() && storage.Length <= capacity <= maxCapacity
      modifies this
      ensures Valid() && fresh(storage) && storage.Length == capacity && Contents() == old(Contents())
      ensures readable == old(readable)
    {
      var next := new Byte[capacity](i => 0);
      var spans := ReadableSequence();
      var ok := CopyTo(spans, 0, next, readable);
      assert Flatten(spans)[0..readable] == Flatten(spans);
      storage := next;
      readOffset := 0;
      assert Contents() == storage[..readable];
    }

    /** The doubling loop: a capacity that suffices and is within the maximum. */
    method NextCapacity(required: nat) returns (capacity: nat)
      requires Valid() && required <= maxCapacity
      ensures storage.Length <= capacity <= maxCapacity && required <= capacity
      ensures Doubled(storage.Length, required, maxCapacity, capacity)
    {
      capacity := storage.Length;
      ghost var k: nat := 0;
      while capacity < required
        invariant storage.Length <= capacity <= maxCapacity && capacity == storage.Length * Pow2(k)
        invariant k > 0 ==> storage.Length * Pow2(k - 1) < required
        decreases maxCapacity - capacity
      {
        if capacity > maxCapacity / 2 {
          assert Topped(storage.Length, required, maxCapacity, k);
          capacity := maxCapacity;
          return;
        }
        capacity := capacity * 2;
        k := k + 1;
      }
      assert Raised(storage.Length, required, capacity, k);
    }

    /** Room for more octets, if the maximum allows it; a refusal changes nothing. */
    method EnsureWritable(minimum: nat) returns (ok: bool)
      requires Valid()
      modifies this
      ensures Valid() && (ok <==> readable + minimum <= maxCapacity)
      ensures Contents() == old(Contents()) && readable == old(readable)
      ensures ok ==> readable + minimum <= storage.Length
      ensures !ok || minimum <= old(storage.Length) - readable ==> unchanged(this)
      ensures ok && minimum > old(storage.Length) - readable ==>
                Doubled(old(storage.Length), readable + minimum, maxCapacity, storage.Length)
      ensures storage == old(storage) || fresh(storage)
    {
      if minimum <= storage.Length - readable {
        return true;
      }
      if minimum > maxCapacity - readable {
        return false;
      }
      var capacity := NextCapacity(readable + minimum);
      Grow(capacity);
      ok := true;
    }

    /** WritableSequence().CopyFrom(bytes): into the one or two free spans. */
    method CopyIn(bytes: seq<Byte>)
      requires Valid() && readable + |bytes| <= storage.Length
      modifies storage
      ensures Valid() && Around(storage[..], readOffset, readable + |bytes|) == old(Contents()) + bytes
    {
      var capacity := storage.Length;
      SlotIsModulo(capacity, readOffset + readable);
      var writeOffset := (readOffset + readable) % capacity;
      var first := Min(|bytes|, capacity - writeOffset);
      ghost var before := storage[..];
      Overwrite(storage, writeOffset, bytes[..first]);
      Overwrite(storage, 0, bytes[first..]);
      Written(before, storage[..], readOffset, readable, writeOffset, bytes);
    }

    /** Append concatenates, or refuses and changes nothing. */
    method Append(bytes: seq<Byte>) returns (ok: bool)
      requires Valid()
      modifies this, storage
      ensures Valid() && (ok <==> |old(Contents())| + |bytes| <= maxCapacity)
      ensures Contents() == if ok then old(Contents()) + bytes else old(Contents())
      ensures storage == old(storage) || fresh(storage)
    {
      ok := EnsureWritable(|bytes|);
      if ok {
        CopyIn(bytes);
        readable := readable + |bytes|;
      }
    }

    /** Consume drops exactly the first n octets, or refuses where the source throws. */
    method Consume(n: nat) returns (ok: bool)
      requires Valid()
      modifies this
      ensures Valid() && (ok <==> n <= |old(Contents())|) && storage == old(storage)
      ensures Contents() == if ok then old(Contents())[n..] else old(Contents())
    {
      if n > readable {
        return false;
      }
      if n == readable {
        readOffset, readable := 0, 0;
        return true;
      }
      SlotIsModulo(storage.Length, readOffset + n);
      ghost var all := Contents();
      readOffset := (readOffset + n) % storage.Length;
      readable := readable - n;
      Consumed(storage[..], old(readOffset), old(readable), n);
      ok := true;
    }
  }

  /** Octets written into the free slots extend the ring. */
  lemma Written(before: seq<Byte>, after: seq<Byte>, offset: nat, n: nat, writeOffset: nat, bytes: seq<Byte>)
    requires |before| == |after| && offset < |before| && n + |bytes| <= |before|
    requires writeOffset == Slot(|before|, offset + n)
    requires var first := Min(|bytes|, |before| - writeOffset);
             forall k :: 0 <= k < |after| ==>
               after[k] == if writeOffset <= k < writeOffset + first && !(k < |bytes| - first) then bytes[k - writeOffset]
                           else if k < |bytes| - first then bytes[first + k] else before[k]
    ensures Around(after, offset, n + |bytes|) == Around(before, offset, n) + bytes
  {
    var all := Around(before, offset, n) + bytes;
    forall i | 0 <= i < n + |bytes| ensures after[Slot(|after|, offset + i)] == all[i] {
    }
  }

  /** Dropping octets moves the start around the ring. */
  lemma Consumed(storage: seq<Byte>, offset: nat, readable: nat, n: nat)
    requires offset < |storage| && n < readable <= |storage|
    ensures Slot(|storage|, offset + n) < |storage|
    ensures Around(storage, Slot(|storage|, offset + n), readable - n) == Around(storage, offset, readable)[n..]
  {
  }
}

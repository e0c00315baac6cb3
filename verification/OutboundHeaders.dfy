/** The header lists that the scheduler sends, told by the responses alone (section 8.2 of RFC 9113). */
module OutboundHeaders {
  import opened Bytes
  import opened Text
  import opened Hpack
  import opened Outbound
  import opened OutboundRuns

  // ---- what is forwarded ----

  // The names of headers that concern one connection only, in octets.
  function Connection(): seq<Byte> { [99, 111, 110, 110, 101, 99, 116, 105, 111, 110] } // connection
  function KeepAlive(): seq<Byte> { [107, 101, 101, 112, 45, 97, 108, 105, 118, 101] } // keep-alive
  function ProxyConnection(): seq<Byte> { // proxy-connection
    [112, 114, 111, 120, 121, 45, 99, 111, 110, 110, 101, 99, 116, 105, 111, 110]
  }
  function TransferEncoding(): seq<Byte> { // transfer-encoding
    [116, 114, 97, 110, 115, 102, 101, 114, 45, 101, 110, 99, 111, 100, 105, 110, 103]
  }
  function Upgrade(): seq<Byte> { [117, 112, 103, 114, 97, 100, 101] } // upgrade

  predicate HopByHop(name: seq<Byte>) {
    name == Connection() || name == KeepAlive() || name == ProxyConnection() || name == TransferEncoding() || name == Upgrade()
  }

  /** A lower-case name that may stand in a response: not empty, no pseudo header, not hop by hop. */
  predicate Passes(name: seq<Byte>) {
    name != [] && name[0] != 58 && !HopByHop(name)
  }

  /** `kept` are, in order, exactly the places of the headers that pass. */
  predicate Picks(headers: seq<Entry>, kept: seq<nat>) {
    && (forall k :: 0 <= k < |kept| ==> kept[k] < |headers|)
    && (forall j, k :: 0 <= j < k < |kept| ==> kept[j] < kept[k])
    && (forall i :: 0 <= i < |headers| ==> (i in kept <==> Passes(Lowered(headers[i].name))))
  }

  /** The fields of a response: its status, then the headers that pass, names in lower case. */
  ghost predicate Describes(response: Response, list: seq<Entry>) {
    exists kept: seq<nat> :: Fields(response, list, kept)
  }

  predicate Fields(response: Response, list: seq<Entry>, kept: seq<nat>) {
    && Picks(response.headers, kept) && |list| == 1 + |kept|
    && list[0] == Entry([58, 115, 116, 97, 116, 117, 115], Decimal(response.status))
    && forall k :: 0 <= k < |kept| ==>
         list[k + 1] == Entry(Lowered(response.headers[kept[k]].name), response.headers[kept[k]].value)
  }

  lemma HopByHopIff(name: seq<Byte>)
    ensures ConnectionSpecific(name) <==> HopByHop(name)
  {
    hide Ascii, Connection, KeepAlive, ProxyConnection, TransferEncoding, Upgrade;
    ShortHops();
    LongHops();
  }

  lemma ShortHops()
    ensures CONNECTION == Connection() && KEEP_ALIVE == KeepAlive() && UPGRADE == Upgrade()
  {
    hide Ascii;
  }

  lemma LongHops()
    ensures PROXY_CONNECTION == ProxyConnection() && TRANSFER_ENCODING == TransferEncoding()
  {
    hide Ascii;
  }

  lemma ForwardableIff(name: seq<Byte>)
    ensures Forwardable(name) <==> Passes(name)
  {
    hide ConnectionSpecific;
    HopByHopIff(name);
  }

  /** The places one further on. */
  function Shift(kept: seq<nat>): (r: seq<nat>)
    ensures |r| == |kept| && forall k :: 0 <= k < |kept| ==> r[k] == kept[k] + 1
  {
    seq(|kept|, k requires 0 <= k < |kept| => kept[k] + 1)
  }

  lemma {:induction false} ForwardedPicks(headers: seq<Entry>) returns (kept: seq<nat>)
    ensures Picks(headers, kept) && Copies(headers, kept, Forwarded(headers))
    decreases |headers|
  {
    hide Passes, Forwardable, Lowered, Lowercase, Picks, Copies, Shift;
    if headers == [] {
      kept := [];
      PicksNone();
    } else {
      var rest := ForwardedPicks(headers[1..]);
      LowercaseIs(headers[0].name);
      ForwardableIff(Lowered(headers[0].name));
      var first: seq<nat> := if Passes(Lowered(headers[0].name)) then [0] else [];
      kept := first + Shift(rest);
      PicksMore(headers, rest, first);
      CopiesMore(headers, rest, first, Forwarded(headers[1..]));
    }
  }

  lemma PicksNone()
    ensures Picks([], []) && Copies([], [], [])
  {
  }

  /** Each entry is the header it is picked from, its name in lower case. */
  predicate Copies(headers: seq<Entry>, kept: seq<nat>, list: seq<Entry>) {
    && |list| == |kept|
    && forall k :: 0 <= k < |kept| ==>
         kept[k] < |headers| && list[k] == Entry(Lowered(headers[kept[k]].name), headers[kept[k]].value)
  }

  lemma CopiesMore(headers: seq<Entry>, rest: seq<nat>, first: seq<nat>, list: seq<Entry>)
    requires headers != [] && Copies(headers[1..], rest, list) && (first == [] || first == [0])
    ensures Copies(headers, first + Shift(rest),
                   (if first == [] then [] else [Entry(Lowered(headers[0].name), headers[0].value)]) + list)
  {
    hide Lowered;
  }

  lemma PicksMore(headers: seq<Entry>, rest: seq<nat>, first: seq<nat>)
    requires headers != [] && Picks(headers[1..], rest)
    requires first == if Passes(Lowered(headers[0].name)) then [0] else []
    ensures Picks(headers, first + Shift(rest))
  {
    hide Passes, Lowered;
    var kept := first + Shift(rest);
    forall i | 0 <= i < |headers| ensures i in kept <==> Passes(Lowered(headers[i].name)) {
      InShifted(first, rest, i);
      if i > 0 {
        assert headers[i] == headers[1..][i - 1];
      }
    }
  }

  lemma InShifted(first: seq<nat>, rest: seq<nat>, i: nat)
    requires first == [] || first == [0]
    ensures i in first + Shift(rest) <==> if i == 0 then first == [0] else i - 1 in rest
  {
    var kept := first + Shift(rest);
    assert first == [0] ==> kept[0] == 0;
    if i > 0 && i - 1 in rest {
      var k :| 0 <= k < |rest| && rest[k] == i - 1;
      assert kept[|first| + k] == i;
    }
    if i in kept {
      var k :| 0 <= k < |kept| && kept[k] == i;
      assert k >= |first| ==> kept[k] == rest[k - |first|] + 1;
    }
  }

  lemma StatusSpelled()
    ensures Ascii(":status") == [58, 115, 116, 97, 116, 117, 115]
  {
    hide Ascii;
  }

  /** The header list of a response describes it. */
  lemma ListDescribes(response: Response)
    ensures Describes(response, HeaderList(response))
  {
    hide Passes, Forwarded, Ascii, Decimal, Lowered;
    StatusSpelled();
    var kept := ForwardedPicks(response.headers);
    assert Fields(response, HeaderList(response), kept);
  }

  /** Ordinary lower-case headers are sent as they stand. */
  lemma {:induction false} OrdinaryHeadersStay(headers: seq<Entry>)
    requires forall i :: 0 <= i < |headers| ==> Lowered(headers[i].name) == headers[i].name && Passes(headers[i].name)
    ensures Forwarded(headers) == headers
    decreases |headers|
  {
    hide Passes, Forwardable, Lowered, Lowercase;
    if headers != [] {
      LowercaseIs(headers[0].name);
      ForwardableIff(headers[0].name);
      OrdinaryHeadersStay(headers[1..]);
    }
  }

  // ---- whole runs ----

  /** The responses accepted in a run, in order. */
  ghost function Submitted(h: History, ops: seq<Outbound.Op>): seq<Response>
    requires Sane(h.s)
    decreases |ops|
  {
    if ops == [] then []
    else
      (if ops[0].Submit? && Step(h.s, ops[0]).ok then [ops[0].response] else []) + Submitted(Advance(h, ops[0]), ops[1..])
  }

  ghost predicate AllDescribed(responses: seq<Response>, lists: seq<seq<Entry>>) {
    |responses| == |lists| && forall i :: 0 <= i < |lists| ==> Describes(responses[i], lists[i])
  }

  lemma {:induction false} SentLast(ops: seq<Hpack.Op>, op: Hpack.Op)
    ensures Hpack.Sent(ops + [op]) == if op.Send? then Hpack.Sent(ops) + [op.headers] else Hpack.Sent(ops)
    decreases |ops|
  {
    if ops == [] {
      var one := [op];
      assert ops + one == one && one[1..] == [];
    } else {
      assert (ops + [op])[1..] == ops[1..] + [op];
      SentLast(ops[1..], op);
    }
  }

  lemma AdvanceDescribes(h: History, op: Outbound.Op, done: seq<Response>)
    requires Sane(h.s) && AllDescribed(done, Hpack.Sent(h.coding))
    ensures AllDescribed(if op.Submit? && Step(h.s, op).ok then done + [op.response] else done, Hpack.Sent(Advance(h, op).coding))
  {
    hide Step, EncodeBlock, HeaderFrames, HeaderList, Describes, Hpack.Sent;
    if op.Submit? && Step(h.s, op).ok {
      SentLast(h.coding, Send(HeaderList(op.response)));
      ListDescribes(op.response);
    } else if op.Settings? && Step(h.s, op).ok {
      SentLast(h.coding, SetSize(Min(op.tableSize, h.s.encoder.maxTable)));
    }
  }

  lemma {:induction false} RunDescribes(h: History, ops: seq<Outbound.Op>, done: seq<Response>)
    requires Sane(h.s) && AllDescribed(done, Hpack.Sent(h.coding)) && AllowedRun(h, ops)
    ensures AllDescribed(done + Submitted(h, ops), Hpack.Sent(Run(h, ops).coding))
    decreases |ops|
  {
    hide Advance, AllDescribed, Allowed, Step;
    if ops == [] {
      assert done + [] == done;
    } else {
      AdvanceDescribes(h, ops[0], done);
      var one: seq<Response> := if ops[0].Submit? && Step(h.s, ops[0]).ok then [ops[0].response] else [];
      var rest := Submitted(Advance(h, ops[0]), ops[1..]);
      assert done + [] == done;
      RunDescribes(Advance(h, ops[0]), ops[1..], done + one);
      Assoc(done, one, rest);
    }
  }

  /** A peer that reassembles header blocks from the frames on the wire and decompresses them gets, for each
      accepted response in order, its status and exactly the headers that may be sent, in their order, names
      in lower case and values unchanged, whatever window updates, settings and resets came in between. */
  lemma PeerReadsResponses(initial: nat, maxFrame: nat, code: TextCode, statics: seq<Entry>, maxTable: nat, maxList: nat,
                           ops: seq<Outbound.Op>) returns (lists: seq<seq<Entry>>)
    requires initial <= MAX_WINDOW && MIN_FRAME <= maxFrame <= MAX_FRAME
    requires 0 < |statics| <= 0x1_0000 && maxTable < UINT32
    requires var codec := Fresh(code, statics, maxTable, maxList);
             && AllowedRun(Start(initial, maxFrame, codec), ops)
             && Admissible(codec, Run(Start(initial, maxFrame, codec), ops).coding)
    ensures var codec := Fresh(code, statics, maxTable, maxList);
            var h := Start(initial, maxFrame, codec);
            && DecodeRun(codec, Reassemble(Run(h, ops).wire, [])) == Some(lists)
            && AllDescribed(Submitted(h, ops), lists)
  {
    hide Run, AllowedRun, DecodeRun, Admissible, Reassemble, Describes, Submitted;
    var codec := Fresh(code, statics, maxTable, maxList);
    var h := Start(initial, maxFrame, codec);
    PeerReadsHeaders(initial, maxFrame, code, statics, maxTable, maxList, ops);
    lists := Hpack.Sent(Run(h, ops).coding);
    RunDescribes(h, ops, []);
    assert [] + Submitted(h, ops) == Submitted(h, ops);
  }
}

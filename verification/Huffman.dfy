/** Huffman strings: http2_hpack.cpp HuffmanEncoder and HuffmanDecoder, for any code table. */
module Huffman {
  import opened Bytes

  /** One table row: the code word is the low `bits` bits of `code`, most significant first. */
  datatype Code = Code(code: nat, bits: nat)

  /** A node of the decoder's vector; a negative field means "absent". */
  datatype Node = Node(value: int, left: int, right: int) {
    function Child(bit: bool): int { if bit then right else left }
  }

  const EOS := 256

  // ---- bit strings ----

  function Bits(x: nat, n: nat): (r: seq<bool>)
    ensures |r| == n
  {
    if n == 0 then [] else Bits(x / 2, n - 1) + [x % 2 == 1]
  }

  /** `x >> n`. */
  function Shr(x: nat, n: nat): nat {
    if n == 0 then x else Shr(x / 2, n - 1)
  }

  function Ones(n: nat): (r: seq<bool>)
    ensures |r| == n
    ensures forall i :: 0 <= i < n ==> r[i]
  {
    seq(n, i => true)
  }

  /** The octet (or shorter number) that a bit string spells. */
  function Number(bits: seq<bool>): (r: nat)
    ensures r < Pow2(|bits|)
  {
    if bits == [] then 0
    else 2 * Number(bits[..|bits| - 1]) + (if bits[|bits| - 1] then 1 else 0)
  }

  function Octet(bits: seq<bool>): Byte
    requires |bits| == 8
  {
    assert Pow2(8) == 256;
    Number(bits)
  }

  /** Octets of a bit string, the last one filled up with ones (section 5.2 of RFC 7541). */
  function Pack(bits: seq<bool>): (r: seq<Byte>)
  {
    if bits == [] then []
    else if |bits| < 8 then [Octet(bits + Ones(8 - |bits|))]
    else [Octet(bits[..8])] + Pack(bits[8..])
  }

  function Unpack(data: seq<Byte>): (r: seq<bool>)
    ensures |r| == 8 * |data|
  {
    if data == [] then [] else Bits(data[0], 8) + Unpack(data[1..])
  }

  lemma {:induction false} BitsOfNumber(bits: seq<bool>)
    ensures Bits(Number(bits), |bits|) == bits
  {
    if bits != [] {
      BitsOfNumber(bits[..|bits| - 1]);
    }
  }

  lemma {:induction false} NumberOfBits(x: nat, n: nat)
    requires x < Pow2(n)
    ensures Number(Bits(x, n)) == x
  {
    if n > 0 {
      NumberOfBits(x / 2, n - 1);
      assert Bits(x, n)[..n - 1] == Bits(x / 2, n - 1);
    }
  }

  /** Only the low `n` bits of a number matter to `Bits(_, n)`. */
  lemma {:induction false} BitsIgnoreHigh(x: nat, k: nat, m: nat, n: nat)
    requires n <= m
    ensures Bits(x + k * Pow2(m), n) == Bits(x, n)
  {
    if n > 0 {
      var t := TwicePow2(k, m);
      BitsIgnoreHigh(x / 2, k, m - 1, n - 1);
      Halves(t, x);
    }
  }

  lemma TwicePow2(k: nat, m: nat) returns (t: nat)
    requires m > 0
    ensures t == k * Pow2(m - 1) && k * Pow2(m) == 2 * t
  {
    t := k * Pow2(m - 1);
    assert Pow2(m) == 2 * Pow2(m - 1);
    assert k * (2 * Pow2(m - 1)) == 2 * (k * Pow2(m - 1));
  }

  lemma Halves(t: nat, x: nat)
    ensures (2 * t + x) / 2 == t + x / 2 && (2 * t + x) % 2 == x % 2
  {
  }

  lemma {:induction false} BitsShiftIn(x: nat, low: nat, f: nat, n: nat)
    requires low < Pow2(n)
    ensures Bits(x * Pow2(n) + low, f + n) == Bits(x, f) + Bits(low, n)
  {
    if n > 0 {
      var t := TwicePow2(x, n);
      BitsShiftIn(x, low / 2, f, n - 1);
      Halves(t, low);
      assert Bits(2 * t + low, f + n) == Bits(t + low / 2, f + n - 1) + [low % 2 == 1];
    } else {
      assert x * Pow2(0) == x;
    }
  }

  lemma {:induction false} BitsSplit(x: nat, high: nat, low: nat)
    ensures Bits(x, high + low) == Bits(Shr(x, low), high) + Bits(x, low)
  {
    if low > 0 {
      BitsSplit(x / 2, high, low - 1);
    }
  }

  lemma {:induction false} BitAt(x: nat, n: nat, b: nat)
    requires b < n
    ensures Bits(x, n)[n - 1 - b] == (Shr(x, b) % 2 == 1)
  {
    if b > 0 {
      BitAt(x / 2, n - 1, b - 1);
    }
  }

  lemma {:induction false} BitsOfOnes(n: nat)
    ensures Bits(Pow2(n) - 1, n) == Ones(n)
  {
    if n > 0 {
      BitsOfOnes(n - 1);
      assert (Pow2(n) - 1) / 2 == Pow2(n - 1) - 1;
      assert Ones(n) == Ones(n - 1) + [true];
    }
  }

  lemma {:induction false} UnpackAppend(a: seq<Byte>, b: Byte)
    ensures Unpack(a + [b]) == Unpack(a) + Bits(b, 8)
  {
    hide Bits;
    if a == [] {
      var one := [b];
      assert a + one == one && one[1..] == [];
    } else {
      UnpackAppend(a[1..], b);
      assert (a + [b])[1..] == a[1..] + [b];
      Assoc(Bits(a[0], 8), Unpack(a[1..]), Bits(b, 8));
    }
  }

  /** Packing loses nothing: unpacking gives the bits back with fewer than eight ones appended. */
  lemma {:induction false} UnpackPack(bits: seq<bool>) returns (pad: nat)
    ensures pad < 8 && Unpack(Pack(bits)) == bits + Ones(pad)
  {
    if bits == [] {
      pad := 0;
    } else if |bits| < 8 {
      pad := 8 - |bits|;
      BitsOfNumber(bits + Ones(pad));
      assert Pack(bits)[1..] == [];
    } else {
      pad := UnpackPack(bits[8..]);
      BitsOfNumber(bits[..8]);
      assert Pack(bits)[1..] == Pack(bits[8..]);
      assert bits[..8] + (bits[8..] + Ones(pad)) == bits + Ones(pad);
    }
  }

  lemma {:induction false} PackUnpack(data: seq<Byte>)
    ensures Pack(Unpack(data)) == data
  {
    if data != [] {
      var bits := Unpack(data);
      PackUnpack(data[1..]);
      assert bits[..8] == Bits(data[0], 8) && bits[8..] == Unpack(data[1..]);
      assert Pow2(8) == 256;
      NumberOfBits(data[0], 8);
    }
  }

  /** Filling up with ones first does not change what the octets are. */
  lemma {:induction false} PackPadded(bits: seq<bool>, pad: nat)
    requires pad < 8 && (|bits| + pad) % 8 == 0
    ensures Pack(bits + Ones(pad)) == Pack(bits)
  {
    if |bits| >= 8 {
      PackPadded(bits[8..], pad);
      assert (bits + Ones(pad))[..8] == bits[..8];
      assert (bits + Ones(pad))[8..] == bits[8..] + Ones(pad);
    } else if bits == [] {
      assert bits + Ones(pad) == [];
    } else {
      assert pad == 8 - |bits|;
      var full := bits + Ones(pad);
      assert full[..8] == full && full[8..] == [];
    }
  }

  // ---- encoder ----

  function Word(table: seq<Code>, symbol: nat): (r: seq<bool>)
    requires symbol < |table|
  {
    Bits(table[symbol].code, table[symbol].bits)
  }

  function Words(table: seq<Code>, text: seq<Byte>): seq<bool>
    requires |table| > EOS
  {
    if text == [] then [] else Words(table, text[..|text| - 1]) + Word(table, text[|text| - 1])
  }

  function Encode(table: seq<Code>, text: seq<Byte>): seq<Byte>
    requires |table| > EOS
  {
    Pack(Words(table, text))
  }

  /** Rows whose code word fits its width, and whose width fits the 64-bit accumulator. */
  predicate Fits(table: seq<Code>) {
    && |table| > EOS
    && forall s :: 0 <= s < |table| ==> table[s].bits <= 56 && table[s].code < Pow2(table[s].bits)
  }

  /** The encoder loop: a 64-bit accumulator that is emptied an octet at a time. */
  method EncodeText(table: seq<Code>, text: seq<Byte>) returns (result: seq<Byte>)
    requires Fits(table)
    ensures result == Encode(table, text)
  {
    var current: nat := 0;
    var filled: nat := 0;
    result := [];
    hide Unpack, Word, Words, Bits;
    NothingYet(table);
    for i := 0 to |text|
      invariant filled < 8
      invariant Unpack(result) + Bits(current, filled) == Words(table, text[..i])
    {
      WordsNext(table, text, i);
      ghost var before := Unpack(result) + Bits(current, filled);
      var row := table[text[i]];
      if row.bits != 0 {
        current, filled := Accumulate(current, filled, row);
        result, filled := EmitOctets(result, current, filled);
        assert Unpack(result) + Bits(current, filled) == before + Bits(row.code, row.bits);
      }
    }
    assert text[..|text|] == text;
    result := Finish(result, current, filled);
  }

  lemma WordsNext(table: seq<Code>, text: seq<Byte>, i: nat)
    requires |table| > EOS && i < |text|
    ensures Words(table, text[..i + 1]) == Words(table, text[..i]) + Bits(table[text[i]].code, table[text[i]].bits)
    ensures table[text[i]].bits == 0 ==> Words(table, text[..i + 1]) == Words(table, text[..i])
  {
    hide Bits;
    assert text[..i + 1][..i] == text[..i];
  }

  lemma NothingYet(table: seq<Code>)
    requires |table| > EOS
    ensures Unpack([]) + Bits(0, 0) == Words(table, [])
  {
  }

  /** The tail of the encoder: flushes a partly filled octet. */
  method Finish(output: seq<Byte>, current: nat, filled: nat) returns (result: seq<Byte>)
    requires filled < 8
    ensures result == Pack(Unpack(output) + Bits(current, filled))
  {
    ghost var bits := Unpack(output) + Bits(current, filled);
    result := output;
    if filled > 0 {
      var octet := LastOctet(current, filled);
      UnpackAppend(output, octet);
      result := output + [octet];
      assert Unpack(result) == bits + Ones(8 - filled);
      PackPadded(bits, 8 - filled);
    } else {
      assert bits == Unpack(output);
    }
    PackUnpack(result);
  }

  /** The inner loop: moves whole octets out of the accumulator. */
  method EmitOctets(output: seq<Byte>, current: nat, filled: nat) returns (result: seq<Byte>, left: nat)
    ensures left < 8
    ensures Unpack(result) + Bits(current, left) == Unpack(output) + Bits(current, filled)
  {
    result, left := output, filled;
    while left >= 8
      invariant Unpack(result) + Bits(current, left) == Unpack(output) + Bits(current, filled)
    {
      left := left - 8;
      var octet: Byte := Shr(current, left) % 256;
      EmittedOctet(current, left);
      UnpackAppend(result, octet);
      result := result + [octet];
    }
  }

  /** `current = (current << bits) | code`, in 64 bits. */
  method Accumulate(current: nat, filled: nat, row: Code) returns (next: nat, total: nat)
    requires filled < 8 && row.bits <= 56 && row.code < Pow2(row.bits)
    ensures total == filled + row.bits
    ensures Bits(next, total) == Bits(current, filled) + Bits(row.code, row.bits)
  {
    total := filled + row.bits;
    var wide := current * Pow2(row.bits) + row.code;
    next := wide % SIZE_LIMIT;
    BitsShiftIn(current, row.code, filled, row.bits);
    Truncated(wide, total);
  }

  lemma Truncated(wide: nat, n: nat)
    requires n <= 64
    ensures Bits(wide % SIZE_LIMIT, n) == Bits(wide, n)
  {
    hide Bits, Pow2;
    SizeIsPow2();
    Divided(wide, SIZE_LIMIT);
    BitsIgnoreHigh(wide % SIZE_LIMIT, wide / SIZE_LIMIT, 64, n);
  }

  /** The final octet: the leftover bits followed by ones. */
  method LastOctet(current: nat, filled: nat) returns (octet: Byte)
    requires 0 < filled < 8
    ensures Bits(octet, 8) == Bits(current, filled) + Ones(8 - filled)
  {
    var pad := 8 - filled;
    var wide := current * Pow2(pad) + (Pow2(pad) - 1);
    octet := wide % 256;
    BitsShiftIn(current, Pow2(pad) - 1, filled, pad);
    BitsOfOnes(pad);
    assert Pow2(8) == 256;
    assert wide == octet + wide / 256 * 256;
    BitsIgnoreHigh(octet, wide / 256, 8, 8);
  }

  lemma EmittedOctet(current: nat, low: nat)
    ensures Bits(current, low + 8) == Bits(Shr(current, low) % 256, 8) + Bits(current, low)
  {
    BitsSplit(current, 8, low);
    var high := Shr(current, low);
    assert Pow2(8) == 256;
    assert high == high % 256 + high / 256 * 256;
    BitsIgnoreHigh(high % 256, high / 256, 8, 8);
  }

  // ---- reference decoder: reads code words straight off the table ----

  /** Some code word among the first `k` rows starts with `path`. */
  ghost predicate Known(table: seq<Code>, k: nat, path: seq<bool>)
    requires k <= |table|
  {
    path == [] || exists s :: 0 <= s < k && path <= Word(table, s)
  }

  /** The last of the first `k` rows whose code word is `path`, or -1. */
  ghost function Owner(table: seq<Code>, k: nat, path: seq<bool>): (r: int)
    requires k <= |table|
    ensures -1 <= r < k
    ensures r >= 0 ==> table[r].bits > 0 && Word(table, r) == path
    ensures r < 0 ==> forall s :: 0 <= s < k && table[s].bits > 0 ==> Word(table, s) != path
  {
    if k == 0 then -1
    else if table[k - 1].bits > 0 && Word(table, k - 1) == path then k - 1
    else Owner(table, k - 1, path)
  }

  /** Decodes `bits` after the unfinished code word `path`. An end-of-string word stops the
      decoder at once: it succeeds with no text inside the last octet and fails before it. */
  ghost function Read(table: seq<Code>, path: seq<bool>, bits: seq<bool>, text: seq<Byte>): (r: Option<seq<Byte>>)
    requires |table| == EOS + 1
    decreases |bits|
  {
    if bits == [] then Some(text)
    else
      var next := path + [bits[0]];
      var owner := Owner(table, |table|, next);
      if !Known(table, |table|, next) then None
      else if owner == EOS then if |bits| <= 8 then Some([]) else None
      else if owner >= 0 then Read(table, [], bits[1..], text + [owner])
      else Read(table, next, bits[1..], text)
  }

  ghost function Decode(table: seq<Code>, data: seq<Byte>): Option<seq<Byte>>
    requires |table| == EOS + 1
  {
    Read(table, [], Unpack(data), [])
  }

  // ---- trie ----

  /** `paths[i]` is the one bit string that leads from the root to node `i`. */
  ghost predicate Labelled(nodes: seq<Node>, paths: seq<seq<bool>>) {
    && |nodes| == |paths| > 0
    && paths[0] == []
    && (forall i, j :: 0 <= i < j < |paths| ==> paths[i] != paths[j])
    && (forall p, q {:trigger p in paths, q in paths} :: p in paths && q <= p ==> q in paths)
    && forall i, b :: 0 <= i < |nodes| ==> ChildLabelled(nodes, paths, i, b)
  }

  ghost predicate ChildLabelled(nodes: seq<Node>, paths: seq<seq<bool>>, i: nat, b: bool)
    requires |nodes| == |paths| && i < |nodes|
  {
    var c := nodes[i].Child(b);
    if c < 0 then paths[i] + [b] !in paths else c < |nodes| && paths[c] == paths[i] + [b]
  }

  /** The trie built from the first `k` rows. */
  ghost predicate TrieOf(nodes: seq<Node>, paths: seq<seq<bool>>, table: seq<Code>, k: nat)
    requires k <= |table|
  {
    && Labelled(nodes, paths)
    && (forall i :: 0 <= i < |nodes| ==> nodes[i].value == Owner(table, k, paths[i]))
    && forall p :: p in paths <==> Known(table, k, p)
  }

  method BuildTree(table: seq<Code>) returns (nodes: seq<Node>, ghost paths: seq<seq<bool>>)
    ensures TrieOf(nodes, paths, table, |table|)
  {
    nodes := [Node(-1, -1, -1)];
    paths := [[]];
    for symbol := 0 to |table|
      invariant TrieOf(nodes, paths, table, symbol)
    {
      if table[symbol].bits != 0 {
        nodes, paths := AddSymbol(nodes, paths, table, symbol);
      } else {
        forall p ensures p in paths <==> Known(table, symbol + 1, p) {
          KnownNext(table, symbol, p);
        }
      }
    }
  }

  /** The body of the symbol loop: one code word, with its symbol in the last node. */
  method AddSymbol(nodes: seq<Node>, ghost paths: seq<seq<bool>>, table: seq<Code>, symbol: nat)
      returns (grown: seq<Node>, ghost labels: seq<seq<bool>>)
    requires symbol < |table| && table[symbol].bits != 0
    requires TrieOf(nodes, paths, table, symbol)
    ensures TrieOf(grown, labels, table, symbol + 1)
  {
    var leaf;
    grown, labels, leaf := AddPath(nodes, paths, table[symbol]);
    ghost var inner := grown;
    grown := grown[leaf := grown[leaf].(value := symbol)];
    Relabelled(inner, grown, labels);
    forall i | 0 <= i < |grown| ensures grown[i].value == Owner(table, symbol + 1, labels[i]) {
      if i >= |nodes| {
        assert labels[i] !in paths;
        NotOwned(table, symbol, labels[i]);
      }
    }
    forall p ensures p in labels <==> Known(table, symbol + 1, p) {
      KnownNext(table, symbol, p);
    }
  }

  /** Labels do not depend on the symbols stored in the nodes. */
  lemma Relabelled(a: seq<Node>, b: seq<Node>, paths: seq<seq<bool>>)
    requires Labelled(a, paths) && |a| == |b|
    requires forall i :: 0 <= i < |a| ==> a[i].left == b[i].left && a[i].right == b[i].right
    ensures Labelled(b, paths)
  {
    forall i, bit | 0 <= i < |b| ensures ChildLabelled(b, paths, i, bit) {
      assert ChildLabelled(a, paths, i, bit);
    }
  }

  lemma NotOwned(table: seq<Code>, k: nat, path: seq<bool>)
    requires k <= |table| && !Known(table, k, path)
    ensures Owner(table, k, path) == -1
  {
  }

  lemma KnownNext(table: seq<Code>, k: nat, p: seq<bool>)
    requires k < |table|
    ensures Known(table, k + 1, p) <==> Known(table, k, p) || p <= Word(table, k)
  {
  }

  /** The inner loop of BuildTree: walks one code word down from the root, adding missing nodes. */
  method AddPath(nodes: seq<Node>, ghost paths: seq<seq<bool>>, row: Code)
      returns (grown: seq<Node>, ghost labels: seq<seq<bool>>, current: nat)
    requires Labelled(nodes, paths)
    ensures Labelled(grown, labels) && paths <= labels
    ensures current < |grown| && labels[current] == Bits(row.code, row.bits)
    ensures SameValues(nodes, grown)
    ensures forall p :: p in labels <==> p in paths || p <= Bits(row.code, row.bits)
  {
    grown, labels, current := nodes, paths, 0;
    ghost var word := Bits(row.code, row.bits);
    var b := row.bits;
    while b > 0
      invariant 0 <= b <= row.bits
      invariant Labelled(grown, labels) && paths <= labels
      invariant current < |grown| && labels[current] == word[..row.bits - b]
      invariant SameValues(nodes, grown)
      invariant forall p :: p in labels <==> p in paths || p <= word[..row.bits - b]
    {
      b := b - 1;
      var bit := Shr(row.code, b) % 2 == 1;
      BitAt(row.code, row.bits, b);
      ghost var done := row.bits - b;
      assert word[..done] == word[..done - 1] + [bit];
      grown, labels, current := Descend(grown, labels, current, bit);
      forall p ensures p in labels <==> p in paths || p <= word[..done] {
        PrefixOfNext(word, done - 1, p);
      }
    }
    assert word[..row.bits] == word;
  }

  /** Old nodes keep their symbols and new ones have none. */
  ghost predicate SameValues(nodes: seq<Node>, grown: seq<Node>) {
    && |nodes| <= |grown|
    && forall i :: 0 <= i < |grown| ==> grown[i].value == if i < |nodes| then nodes[i].value else -1
  }

  /** One bit of AddPath. */
  method Descend(nodes: seq<Node>, ghost paths: seq<seq<bool>>, current: nat, bit: bool)
      returns (grown: seq<Node>, ghost labels: seq<seq<bool>>, next: nat)
    requires Labelled(nodes, paths) && current < |nodes|
    ensures Labelled(grown, labels) && paths <= labels
    ensures next < |grown| && labels[next] == paths[current] + [bit]
    ensures SameValues(nodes, grown)
    ensures forall p :: p in labels <==> p in paths || p == paths[current] + [bit]
  {
    assert ChildLabelled(nodes, paths, current, bit);
    var child := nodes[current].Child(bit);
    if child < 0 {
      grown, labels, next := AddChild(nodes, paths, current, bit);
    } else {
      grown, labels, next := nodes, paths, child;
      assert labels[next] in labels;
    }
  }

  lemma PrefixOfNext(word: seq<bool>, n: nat, p: seq<bool>)
    requires n < |word|
    ensures p <= word[..n + 1] <==> p <= word[..n] || p == word[..n + 1]
  {
    if p <= word[..n + 1] && |p| <= n {
      assert p == word[..n][..|p|];
    }
  }

  method AddChild(nodes: seq<Node>, ghost paths: seq<seq<bool>>, current: nat, bit: bool)
      returns (grown: seq<Node>, ghost labels: seq<seq<bool>>, next: nat)
    requires Labelled(nodes, paths) && current < |nodes| && nodes[current].Child(bit) < 0
    ensures Labelled(grown, labels) && |grown| == |nodes| + 1
    ensures next == |nodes| && labels == paths + [paths[current] + [bit]]
    ensures forall i :: 0 <= i < |nodes| ==> grown[i].value == nodes[i].value
    ensures grown[next].value == -1
  {
    next := |nodes|;
    var parent := if bit then nodes[current].(right := next) else nodes[current].(left := next);
    grown := nodes[current := parent] + [Node(-1, -1, -1)];
    labels := paths + [paths[current] + [bit]];
    assert ChildLabelled(nodes, paths, current, bit);
    assert paths[current] in paths;
    forall p, q | p in labels && q <= p ensures q in labels {
      PrefixOfNext(paths[current] + [bit], |paths[current]|, q);
      assert (paths[current] + [bit])[..|paths[current]|] == paths[current];
      assert q in paths || q == paths[current] + [bit];
    }
    forall i, b | 0 <= i < |grown| ensures ChildLabelled(grown, labels, i, b) {
      if i < |nodes| {
        assert ChildLabelled(nodes, paths, i, b);
        if i == current && b == bit {
        } else if nodes[i].Child(b) < 0 {
          assert paths[i] + [b] != paths[current] + [bit] by {
            assert (paths[i] + [b])[..|paths[i]|] == paths[i];
            assert (paths[current] + [bit])[..|paths[current]|] == paths[current];
          }
        }
      } else {
        var leaf := paths[current] + [bit];
        assert (leaf + [b])[..|leaf|] == leaf;
        assert leaf !in paths;
        assert leaf + [b] !in paths;
      }
    }
  }

  // ---- decoder ----

  /** What reading one octet leaves: a verdict, or the node and text to go on with. */
  datatype Progress = Verdict(r: Option<seq<Byte>>) | Going(node: nat, text: seq<Byte>)

  /** HuffmanDecoder::Decode: reads the octets bit by bit through the trie. */
  method DecodeText(nodes: seq<Node>, ghost paths: seq<seq<bool>>, ghost table: seq<Code>, data: seq<Byte>)
      returns (r: Option<seq<Byte>>)
    requires |table| == EOS + 1 && TrieOf(nodes, paths, table, |table|)
    ensures r == Decode(table, data)
  {
    var node: nat := 0;
    var text: seq<Byte> := [];
    for i := 0 to |data|
      invariant node < |nodes|
      invariant Decode(table, data) == Read(table, paths[node], Unpack(data[i..]), text)
    {
      assert data[i..][1..] == data[i + 1..];
      var step := DecodeOctet(nodes, paths, table, data[i], data[i + 1..], node, text);
      if step.Verdict? {
        return step.r;
      }
      node, text := step.node, step.text;
    }
    return Some(text);
  }

  /** The inner loop over the eight bits of one octet; `after` holds the octets that follow. */
  method DecodeOctet(nodes: seq<Node>, ghost paths: seq<seq<bool>>, ghost table: seq<Code>,
                     octet: Byte, after: seq<Byte>, start: nat, before: seq<Byte>) returns (r: Progress)
    requires |table| == EOS + 1 && TrieOf(nodes, paths, table, |table|) && start < |nodes|
    ensures r.Going? ==> r.node < |nodes|
    ensures Read(table, paths[start], Bits(octet, 8) + Unpack(after), before) ==
            if r.Verdict? then r.r else Read(table, paths[r.node], Unpack(after), r.text)
  {
    var node: nat := start;
    var text: seq<Byte> := before;
    var remaining: nat := 8;
    ghost var rest := Unpack(after);
    while remaining > 0
      invariant remaining <= 8 && node < |nodes|
      invariant Read(table, paths[start], Bits(octet, 8) + rest, before)
                == Read(table, paths[node], Bits(octet, remaining) + rest, text)
    {
      remaining := remaining - 1;
      var bit := Shr(octet, remaining) % 2 == 1;
      FirstBit(octet, remaining);
      ghost var here := Bits(octet, remaining + 1) + rest;
      assert here[0] == bit && here[1..] == Bits(octet, remaining) + rest;
      Walked(nodes, paths, table, node, bit);
      var next := nodes[node].Child(bit);
      if next < 0 {
        return Verdict(None);
      }
      node := next;
      var value := nodes[node].value;
      if value == EOS {
        return Verdict(if after == [] then Some([]) else None);
      }
      if value >= 0 {
        text, node := text + [value], 0;
      }
    }
    assert Bits(octet, 0) + rest == rest;
    return Going(node, text);
  }

  lemma FirstBit(x: nat, n: nat)
    ensures Bits(x, n + 1) == [Shr(x, n) % 2 == 1] + Bits(x, n)
  {
    BitsSplit(x, 1, n);
    assert Bits(Shr(x, n), 1) == [Shr(x, n) % 2 == 1];
  }

  lemma Walked(nodes: seq<Node>, paths: seq<seq<bool>>, table: seq<Code>, node: nat, bit: bool)
    requires TrieOf(nodes, paths, table, |table|) && node < |nodes|
    ensures var c := nodes[node].Child(bit);
            if c < 0 then !Known(table, |table|, paths[node] + [bit])
            else c < |nodes| && paths[c] == paths[node] + [bit] && Known(table, |table|, paths[c])
                 && nodes[c].value == Owner(table, |table|, paths[c])
  {
    assert ChildLabelled(nodes, paths, node, bit);
    var c := nodes[node].Child(bit);
    if c >= 0 {
      assert paths[c] in paths;
    }
  }

  // ---- round trip ----

  /** No other code word is a prefix of the word of `x`. */
  ghost predicate Clear(table: seq<Code>, x: nat) {
    && x < |table| && table[x].bits > 0
    && forall y :: 0 <= y < |table| && y != x && table[y].bits > 0 ==> !(Word(table, y) <= Word(table, x))
  }

  /** Up to seven ones lead into the trie without completing a word. */
  ghost predicate PadSafe(table: seq<Code>) {
    forall n :: 1 <= n <= 7 ==> Known(table, |table|, Ones(n)) && Owner(table, |table|, Ones(n)) == -1
  }

  /** `x` is read as the shorter word of another, itself unambiguous, octet. */
  ghost predicate Misread(table: seq<Code>, x: nat) {
    exists y :: 0 <= y < 256 && y != x && x < |table| && Clear(table, y) && Word(table, y) <= Word(table, x)
  }

  lemma {:induction false} ReadWord(table: seq<Code>, x: nat, i: nat, rest: seq<bool>, text: seq<Byte>)
    requires |table| == EOS + 1 && x < EOS && Clear(table, x) && i < |Word(table, x)|
    ensures Read(table, Word(table, x)[..i], Word(table, x)[i..] + rest, text) == Read(table, [], rest, text + [x])
    decreases |Word(table, x)| - i
  {
    var word := Word(table, x);
    var bits := word[i..] + rest;
    var next := word[..i] + [bits[0]];
    assert next == word[..i + 1];
    assert next <= word && Known(table, |table|, next);
    assert bits[1..] == word[i + 1..] + rest;
    var owner := Owner(table, |table|, next);
    if i + 1 == |word| {
      assert next == word && bits[1..] == rest;
      assert owner == x;
    } else {
      assert owner == -1;
      ReadWord(table, x, i + 1, rest, text);
    }
  }

  lemma {:induction false} ReadWords(table: seq<Code>, s: seq<Byte>, rest: seq<bool>, text: seq<Byte>)
    requires |table| == EOS + 1 && forall i :: 0 <= i < |s| ==> Clear(table, s[i])
    ensures Read(table, [], Words(table, s) + rest, text) == Read(table, [], rest, text + s)
  {
    if s == [] {
      assert text + s == text && Words(table, s) + rest == rest;
    } else {
      var init, last := s[..|s| - 1], s[|s| - 1];
      Assoc(Words(table, init), Word(table, last), rest);
      ReadWords(table, init, Word(table, last) + rest, text);
      ReadWord(table, last, 0, rest, text + init);
      assert text + init + [last] == text + s;
    }
  }

  lemma {:induction false} ReadPadding(table: seq<Code>, i: nat, n: nat, text: seq<Byte>)
    requires |table| == EOS + 1 && PadSafe(table) && i + n <= 7
    ensures Read(table, Ones(i), Ones(n), text) == Some(text)
    decreases n
  {
    if n > 0 {
      assert Ones(i) + [Ones(n)[0]] == Ones(i + 1);
      assert Ones(n)[1..] == Ones(n - 1);
      ReadPadding(table, i + 1, n - 1, text);
    }
  }

  /** Whatever is decoded later, text already recovered stays in front, unless an end-of-string
      word discards everything. */
  lemma {:induction false} ReadKeepsText(table: seq<Code>, path: seq<bool>, bits: seq<bool>, text: seq<Byte>)
    requires |table| == EOS + 1
    ensures var r := Read(table, path, bits, text); r.Some? ==> r.value == [] || text <= r.value
    decreases |bits|
  {
    if bits != [] {
      var next := path + [bits[0]];
      var owner := Owner(table, |table|, next);
      if Known(table, |table|, next) && owner != EOS {
        if owner >= 0 {
          ReadKeepsText(table, [], bits[1..], text + [owner]);
        } else {
          ReadKeepsText(table, next, bits[1..], text);
        }
      }
    }
  }

  /** Text in which every octet has an unambiguous code word survives encoding and decoding. */
  lemma RoundTrip(table: seq<Code>, s: seq<Byte>)
    requires |table| == EOS + 1 && PadSafe(table)
    requires forall i :: 0 <= i < |s| ==> Clear(table, s[i])
    ensures Decode(table, Encode(table, s)) == Some(s)
  {
    var pad := UnpackPack(Words(table, s));
    ReadWords(table, s, Ones(pad), []);
    assert [] + s == s;
    assert Ones(0) == [];
    ReadPadding(table, 0, pad, s);
  }

  /** Text holding an octet that is misread does not survive. */
  lemma MisreadText(table: seq<Code>, s: seq<Byte>, k: nat)
    requires |table| == EOS + 1
    requires k < |s| && (forall i :: 0 <= i < k ==> Clear(table, s[i])) && Misread(table, s[k])
    ensures Decode(table, Encode(table, s)) != Some(s)
  {
    hide Clear, Word, Words, Ones, Read, Pack, Unpack;
    var y :| 0 <= y < 256 && y != s[k] && Clear(table, y) && Word(table, y) <= Word(table, s[k]);
    var pad := UnpackPack(Words(table, s));
    var rest := MisreadBits(table, s, k, y);
    ReadMisread(table, s[..k], y, rest + Ones(pad));
    Assoc(Words(table, s[..k]), Word(table, y) + rest, Ones(pad));
    Assoc(Word(table, y), rest, Ones(pad));
    assert (s[..k] + [y])[k] == y;
  }

  lemma MisreadBits(table: seq<Code>, s: seq<Byte>, k: nat, y: Byte) returns (rest: seq<bool>)
    requires |table| > EOS && k < |s| && Word(table, y) <= Word(table, s[k])
    ensures Words(table, s) == Words(table, s[..k]) + (Word(table, y) + rest)
  {
    var tail := WordsSplit(table, s, k);
    rest := Word(table, s[k])[|Word(table, y)|..] + tail;
    assert Word(table, s[k]) == Word(table, y) + Word(table, s[k])[|Word(table, y)|..];
  }

  lemma ReadMisread(table: seq<Code>, good: seq<Byte>, y: Byte, rest: seq<bool>)
    requires |table| == EOS + 1
    requires (forall i :: 0 <= i < |good| ==> Clear(table, good[i])) && Clear(table, y)
    ensures var r := Read(table, [], Words(table, good) + (Word(table, y) + rest), []);
            r.Some? ==> r.value == [] || good + [y] <= r.value
  {
    ReadWords(table, good, Word(table, y) + rest, []);
    assert [] + good == good;
    ReadWord(table, y, 0, rest, good);
    assert Word(table, y)[0..] + rest == Word(table, y) + rest;
    ReadKeepsText(table, [], rest, good + [y]);
  }

  lemma {:induction false} WordsSplit(table: seq<Code>, s: seq<Byte>, k: nat) returns (tail: seq<bool>)
    requires |table| > EOS && k < |s|
    ensures Words(table, s) == Words(table, s[..k]) + Word(table, s[k]) + tail
  {
    if k == |s| - 1 {
      tail := [];
    } else {
      var init := s[..|s| - 1];
      tail := WordsSplit(table, init, k);
      assert init[..k] == s[..k];
      tail := tail + Word(table, s[|s| - 1]);
    }
  }

  /** Exactly the texts made of unambiguous octets survive, when every other octet is misread. */
  lemma RoundTripIff(table: seq<Code>, s: seq<Byte>)
    requires |table| == EOS + 1 && PadSafe(table)
    requires forall x :: 0 <= x < 256 ==> Clear(table, x) || Misread(table, x)
    ensures Decode(table, Encode(table, s)) == Some(s) <==> forall i :: 0 <= i < |s| ==> Clear(table, s[i])
  {
    if i: int :| 0 <= i < |s| && !Clear(table, s[i]) {
      var k := FirstUnclear(table, s, i);
      MisreadText(table, s, k);
    } else {
      RoundTrip(table, s);
    }
  }

  lemma {:induction false} FirstUnclear(table: seq<Code>, s: seq<Byte>, i: nat) returns (k: nat)
    requires i < |s| && !Clear(table, s[i])
    ensures k <= i && !Clear(table, s[k]) && forall j :: 0 <= j < k ==> Clear(table, s[j])
  {
    k := i;
    if j: int :| 0 <= j < i && !Clear(table, s[j]) {
      k := FirstUnclear(table, s, j);
    }
  }
}

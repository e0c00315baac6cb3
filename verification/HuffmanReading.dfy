/** What http2_hpack.cpp HuffmanDecode makes of any octets: exactly the texts whose code words they begin with. */
module HuffmanReading {
  import opened Bytes
  import opened Huffman

  /** The word of a row is read as that row: it is its last owner, and no part of it is a word. */
  ghost predicate Readable(table: seq<Code>, x: nat) {
    && x < |table| && table[x].bits > 0 && Owner(table, |table|, Word(table, x)) == x
    && forall k :: 0 < k < |Word(table, x)| ==> Owner(table, |table|, Word(table, x)[..k]) == -1
  }

  /** Bits that begin a word and complete none. */
  ghost predicate Unfinished(table: seq<Code>, tail: seq<bool>) {
    Known(table, |table|, tail) && forall k :: 0 < k <= |tail| ==> Owner(table, |table|, tail[..k]) == -1
  }

  /** The octets are the words of a text, then something else. */
  ghost predicate Spells(table: seq<Code>, bits: seq<bool>, text: seq<Byte>, tail: seq<bool>)
    requires |table| == EOS + 1
  {
    bits == Words(table, text) + tail && forall i :: 0 <= i < |text| ==> Readable(table, text[i])
  }

  /** The end-of-string word, in the last octet. */
  ghost predicate Stops(table: seq<Code>, tail: seq<bool>)
    requires |table| == EOS + 1
  {
    Readable(table, EOS) && Word(table, EOS) <= tail && |tail| < |Word(table, EOS)| + 8
  }

  // ---- what is spelled is read ----

  lemma {:induction false} ReadReadable(table: seq<Code>, x: nat, i: nat, rest: seq<bool>, text: seq<Byte>)
    requires |table| == EOS + 1 && Readable(table, x) && i < |Word(table, x)|
    ensures Read(table, Word(table, x)[..i], Word(table, x)[i..] + rest, text) ==
            if x == EOS then (if |rest| < 8 then Some([]) else None) else Read(table, [], rest, text + [x])
    decreases |Word(table, x)| - i
  {
    hide Owner, Word;
    var word := Word(table, x);
    var bits := word[i..] + rest;
    var next := word[..i + 1];
    assert bits[0] == word[i] && word[..i] + [word[i]] == next && bits[1..] == word[i + 1..] + rest;
    assert Known(table, |table|, next) by { assert next <= word; }
    if i + 1 == |word| {
      assert next == word && bits[1..] == rest;
    } else {
      ReadReadable(table, x, i + 1, rest, text);
    }
  }

  lemma {:induction false} ReadText(table: seq<Code>, s: seq<Byte>, rest: seq<bool>, text: seq<Byte>)
    requires |table| == EOS + 1 && forall i :: 0 <= i < |s| ==> Readable(table, s[i])
    ensures Read(table, [], Words(table, s) + rest, text) == Read(table, [], rest, text + s)
  {
    hide Read, Readable;
    if s == [] {
      assert text + s == text && Words(table, s) + rest == rest;
    } else {
      var init, last := s[..|s| - 1], s[|s| - 1];
      Assoc(Words(table, init), Word(table, last), rest);
      ReadText(table, init, Word(table, last) + rest, text);
      ReadWhole(table, last, rest, text + init);
      assert text + init + [last] == text + s;
    }
  }

  lemma ReadWhole(table: seq<Code>, x: nat, rest: seq<bool>, text: seq<Byte>)
    requires |table| == EOS + 1 && Readable(table, x)
    ensures Read(table, [], Word(table, x) + rest, text) ==
            if x == EOS then (if |rest| < 8 then Some([]) else None) else Read(table, [], rest, text + [x])
  {
    hide Read, Word, Owner;
    WordFull(table, x);
    ReadReadable(table, x, 0, rest, text);
    assert Word(table, x)[..0] == [] && Word(table, x)[0..] == Word(table, x);
  }

  lemma WordFull(table: seq<Code>, x: nat)
    requires x < |table| && table[x].bits > 0
    ensures |Word(table, x)| > 0
  {
  }

  lemma {:induction false} ReadUnfinished(table: seq<Code>, tail: seq<bool>, i: nat, text: seq<Byte>)
    requires |table| == EOS + 1 && Unfinished(table, tail) && i <= |tail|
    ensures Read(table, tail[..i], tail[i..], text) == Some(text)
    decreases |tail| - i
  {
    hide Owner, Word;
    if i < |tail| {
      assert tail[..i] + [tail[i..][0]] == tail[..i + 1] && tail[i..][1..] == tail[i + 1..];
      KnownPrefix(table, tail, i + 1);
      ReadUnfinished(table, tail, i + 1, text);
    }
  }

  lemma KnownPrefix(table: seq<Code>, path: seq<bool>, k: nat)
    requires Known(table, |table|, path) && k <= |path|
    ensures Known(table, |table|, path[..k])
  {
    hide Word;
    if path != [] {
      var s :| 0 <= s < |table| && path <= Word(table, s);
      assert path[..k] <= Word(table, s);
    }
  }

  // ---- and nothing else ----

  ghost predicate Accounts(table: seq<Code>, all: seq<bool>, from: seq<Byte>, r: seq<Byte>, more: seq<Byte>, tail: seq<bool>)
    requires |table| == EOS + 1
  {
    Spells(table, all, more, tail) && ((Unfinished(table, tail) && r == from + more) || (Stops(table, tail) && r == []))
  }

  /** A successful reading has words and an end. */
  lemma {:induction false} ReadFound(table: seq<Code>, path: seq<bool>, bits: seq<bool>, text: seq<Byte>)
      returns (more: seq<Byte>, tail: seq<bool>)
    requires |table| == EOS + 1 && Unfinished(table, path) && Read(table, path, bits, text).Some?
    ensures Accounts(table, path + bits, text, Read(table, path, bits, text).value, more, tail)
    decreases |bits|
  {
    hide Owner, Word;
    if bits == [] {
      more, tail := [], path;
      assert path + bits == path && text + [] == text && Words(table, []) + path == path;
    } else {
      var next := path + [bits[0]];
      var owner := Owner(table, |table|, next);
      assert next[..|path|] == path && next[..|next|] == next && path + bits == next + bits[1..];
      assert forall k :: 0 < k < |next| ==> next[..k] == path[..k];
      if owner >= 0 {
        OwnerReadable(table, path, next, owner);
        if owner == EOS {
          more, tail := [], path + bits;
          assert Words(table, []) + tail == tail;
          assert Word(table, EOS) <= tail;
        } else {
          Nothing(table);
          var later, rest := ReadFound(table, [], bits[1..], text + [owner]);
          assert [] + bits[1..] == bits[1..];
          more, tail := [owner] + later, rest;
          FirstWord(table, owner, later);
          Assoc(Word(table, owner), Words(table, later), rest);
          Assoc(text, [owner], later);
        }
      } else {
        more, tail := ReadFound(table, next, bits[1..], text);
      }
    }
  }

  lemma Nothing(table: seq<Code>)
    ensures Unfinished(table, [])
  {
  }

  /** The first owner on the way is read as itself. */
  lemma OwnerReadable(table: seq<Code>, path: seq<bool>, next: seq<bool>, owner: nat)
    requires Unfinished(table, path) && |next| == |path| + 1 && next[..|path|] == path && owner < |table|
    requires Owner(table, |table|, next) == owner
    ensures Readable(table, owner) && Word(table, owner) == next
  {
    hide Word, Known;
    assert forall k :: 0 < k < |next| ==> next[..k] == path[..k];
  }

  lemma {:induction false} FirstWord(table: seq<Code>, x: Byte, later: seq<Byte>)
    requires |table| > EOS
    ensures Words(table, [x] + later) == Word(table, x) + Words(table, later)
    decreases |later|
  {
    hide Word;
    var all := [x] + later;
    if later == [] {
      assert all[..0] == [] && Words(table, []) + Word(table, x) == Word(table, x) + Words(table, later);
    } else {
      assert all[..|all| - 1] == [x] + later[..|later| - 1] && all[|all| - 1] == later[|later| - 1];
      FirstWord(table, x, later[..|later| - 1]);
    }
  }

  /** Any octets: they decode to a text exactly if they are its code words and then an unfinished one, or, for no text at all, if
      the end-of-string word comes in their last octet; all other octets are refused. */
  lemma DecodeIff(table: seq<Code>, data: seq<Byte>, text: seq<Byte>)
    requires |table| == EOS + 1
    ensures Decode(table, data) == Some(text) <==>
            || (exists tail :: Spells(table, Unpack(data), text, tail) && Unfinished(table, tail))
            || (text == [] && exists before, tail :: Spells(table, Unpack(data), before, tail) && Stops(table, tail))
  {
    hide Read, Words, Unfinished, Stops, Readable, Unpack;
    var bits := Unpack(data);
    if Decode(table, data) == Some(text) {
      Nothing(table);
      var more, tail := ReadFound(table, [], bits, []);
      assert [] + bits == bits && [] + more == more;
    }
    forall tail | Spells(table, bits, text, tail) && Unfinished(table, tail) ensures Decode(table, data) == Some(text) {
      SpelledRead(table, data, text, tail);
    }
    forall before, tail | Spells(table, bits, before, tail) && Stops(table, tail) ensures Decode(table, data) == Some([]) {
      StoppedRead(table, data, before, tail);
    }
  }

  lemma SpelledRead(table: seq<Code>, data: seq<Byte>, text: seq<Byte>, tail: seq<bool>)
    requires |table| == EOS + 1 && Spells(table, Unpack(data), text, tail) && Unfinished(table, tail)
    ensures Decode(table, data) == Some(text)
  {
    hide Read, Words, Readable, Unpack, Owner, Known;
    ReadText(table, text, tail, []);
    ReadUnfinished(table, tail, 0, text);
    assert tail[..0] == [] && tail[0..] == tail && [] + text == text;
  }

  lemma StoppedRead(table: seq<Code>, data: seq<Byte>, before: seq<Byte>, tail: seq<bool>)
    requires |table| == EOS + 1 && Spells(table, Unpack(data), before, tail) && Stops(table, tail)
    ensures Decode(table, data) == Some([])
  {
    hide Read, Words, Readable, Unpack, Word;
    var word := Word(table, EOS);
    ReadText(table, before, tail, []);
    assert tail == word + tail[|word|..];
    ReadWhole(table, EOS, tail[|word|..], [] + before);
  }
}

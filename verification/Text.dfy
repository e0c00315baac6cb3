/** Character helpers shared by the HTTP/1.1 and HTTP/2 models (C locale, octets). */
module Text {
  import opened Bytes

  const SP: Byte := 32
  const HTAB: Byte := 9
  const CR: Byte := 13
  const LF: Byte := 10

  function Lower(c: Byte): Byte {
    if 65 <= c <= 90 then c + 32 else c
  }

  function Lowercase(s: seq<Byte>): (r: seq<Byte>)
    ensures |r| == |s|
    ensures forall i :: 0 <= i < |s| ==> r[i] == Lower(s[i])
  {
    if s == [] then [] else [Lower(s[0])] + Lowercase(s[1..])
  }

  /** The octets 65 to 90 are letters that differ from their lower case by 32; all others stay. */
  function Lowered(s: seq<Byte>): (r: seq<Byte>)
    ensures |r| == |s|
  {
    seq(|s|, i requires 0 <= i < |s| => if 65 <= s[i] <= 90 then s[i] + 32 else s[i])
  }

  lemma LowercaseIs(s: seq<Byte>)
    ensures Lowercase(s) == Lowered(s)
  {
    forall i | 0 <= i < |s| ensures Lowercase(s)[i] == Lowered(s)[i] {
    }
  }

  /** The decimal digits of a number, as `std::to_string` writes them. */
  function Decimal(n: nat): (r: seq<Byte>)
    ensures |r| > 0
    ensures forall i :: 0 <= i < |r| ==> 48 <= r[i] <= 57
  {
    if n < 10 then [48 + n] else Decimal(n / 10) + [48 + n % 10]
  }
}

/** The value helpers of http_request_parser.cpp: searching, tokens, trimming and numbers. */
module HttpText {
  import opened Bytes
  import opened Text

  /** Where `c` first stands at or after `from`, or the length if nowhere. */
  function Find(s: seq<Byte>, c: Byte, from: nat): (r: nat)
    ensures r <= |s| || r == from
    ensures from <= r || r == |s|
    ensures from <= r < |s| ==> s[r] == c
    ensures forall i :: from <= i < r ==> i < |s| && s[i] != c
    decreases |s| - from
  {
    if from >= |s| then |s| else if s[from] == c then from else Find(s, c, from + 1)
  }

  predicate TokenByte(b: Byte) {
    48 <= b <= 57 || 65 <= b <= 90 || 97 <= b <= 122
    || b in [33, 35, 36, 37, 38, 39, 42, 43, 45, 46, 94, 95, 96, 124, 126]
  }

  predicate AllTokens(s: seq<Byte>) {
    forall i :: 0 <= i < |s| ==> TokenByte(s[i])
  }

  predicate Blank(b: Byte) { b == SP || b == HTAB }

  function TrimFront(s: seq<Byte>): seq<Byte> {
    if s != [] && Blank(s[0]) then TrimFront(s[1..]) else s
  }

  function TrimBack(s: seq<Byte>): seq<Byte> {
    if s != [] && Blank(s[|s| - 1]) then TrimBack(s[..|s| - 1]) else s
  }

  /** TrimOptionalWhitespace. */
  function Trim(s: seq<Byte>): seq<Byte> { TrimBack(TrimFront(s)) }

  /** HeaderContainsToken: one of the comma-separated members is the token, in any case. */
  predicate HasToken(value: seq<Byte>, expected: seq<Byte>)
    decreases |value|
  {
    var comma := Find(value, 44, 0);
    || Lowercase(Trim(value[..comma])) == expected
    || (comma < |value| && HasToken(value[comma + 1..], expected))
  }

  // ---- numbers ----

  predicate Digit(b: Byte) { 48 <= b <= 57 }

  function DecimalValue(s: seq<Byte>): nat
    requires forall i :: 0 <= i < |s| ==> Digit(s[i])
  {
    if s == [] then 0
    else
      var last := s[|s| - 1];
      assert Digit(last);
      DecimalValue(s[..|s| - 1]) * 10 + last - 48
  }

  /** A non-empty run of digits whose value a size_t can hold, and nothing else. */
  function ParseDecimal(s: seq<Byte>): Option<nat> {
    if s != [] && (forall i :: 0 <= i < |s| ==> Digit(s[i])) && DecimalValue(s) < SIZE_LIMIT
    then Some(DecimalValue(s)) else None
  }

  function HexDigit(b: Byte): Option<nat> {
    if 48 <= b <= 57 then Some(b - 48)
    else if 97 <= b <= 102 then Some(b - 87)
    else if 65 <= b <= 70 then Some(b - 55)
    else None
  }

  predicate AllHex(s: seq<Byte>) {
    forall i :: 0 <= i < |s| ==> HexDigit(s[i]).Some?
  }

  function HexValue(s: seq<Byte>): nat
    requires AllHex(s)
  {
    if s == [] then 0 else HexValue(s[..|s| - 1]) * 16 + HexDigit(s[|s| - 1]).value
  }

  function ParseHex(s: seq<Byte>): Option<nat> {
    if s != [] && AllHex(s) && HexValue(s) < SIZE_LIMIT then Some(HexValue(s)) else None
  }

  /** A digit is one of 0 to 9, a to f and A to F. */
  lemma HexDigitIff(b: Byte, n: nat)
    ensures HexDigit(b) == Some(n) <==> (n <= 9 && b == 48 + n) || (10 <= n <= 15 && (b == 87 + n || b == 55 + n))
  {
  }

  /** A longer run of digits is no smaller. */
  lemma {:induction false} DecimalGrows(s: seq<Byte>, k: nat)
    requires k <= |s| && forall i :: 0 <= i < |s| ==> Digit(s[i])
    ensures DecimalValue(s[..k]) <= DecimalValue(s)
    decreases |s|
  {
    if k == |s| {
      assert s[..k] == s;
    } else {
      assert s[..|s| - 1][..k] == s[..k];
      DecimalGrows(s[..|s| - 1], k);
    }
  }

  lemma {:induction false} HexGrows(s: seq<Byte>, k: nat)
    requires k <= |s| && AllHex(s)
    ensures HexValue(s[..k]) <= HexValue(s)
    decreases |s|
  {
    if k == |s| {
      assert s[..k] == s;
    } else {
      assert s[..|s| - 1][..k] == s[..k];
      HexGrows(s[..|s| - 1], k);
    }
  }

  /** The overflow guard never refuses a value that fits and never lets one through that does not. */
  method ParseDecimalSize(value: seq<Byte>) returns (r: Option<nat>)
    ensures r == ParseDecimal(value)
  {
    if value == [] {
      return None;
    }
    var parsed := 0;
    var k := 0;
    while k < |value|
      invariant 0 <= k <= |value| && 0 <= parsed < SIZE_LIMIT
      invariant forall i :: 0 <= i < k ==> Digit(value[i])
      invariant parsed == DecimalValue(value[..k])
    {
      if value[k] < 48 || value[k] > 57 {
        return None;
      }
      var digit := value[k] - 48;
      assert value[..k + 1][..k] == value[..k];
      if parsed > (SIZE_LIMIT - 1 - digit) / 10 {
        if forall i :: 0 <= i < |value| ==> Digit(value[i]) {
          DecimalGrows(value, k + 1);
        }
        return None;
      }
      parsed := parsed * 10 + digit;
      k := k + 1;
    }
    assert value[..k] == value;
    r := Some(parsed);
  }

  method ParseHexSize(value: seq<Byte>) returns (r: Option<nat>)
    ensures r == ParseHex(value)
  {
    if value == [] {
      return None;
    }
    var parsed := 0;
    var k := 0;
    while k < |value|
      invariant 0 <= k <= |value| && 0 <= parsed < SIZE_LIMIT
      invariant AllHex(value[..k])
      invariant parsed == HexValue(value[..k])
    {
      assert value[..k + 1][..k] == value[..k] && value[..k + 1][k] == value[k];
      if parsed > (SIZE_LIMIT - 1) / 16 {
        if AllHex(value) {
          HexGrows(value, k + 1);
        }
        return None;
      }
      if HexDigit(value[k]).None? {
        return None;
      }
      parsed := parsed * 16 + HexDigit(value[k]).value;
      k := k + 1;
    }
    assert value[..k] == value;
    r := Some(parsed);
  }

  /** The hexadecimal digits of a number, as a chunk size is written. */
  function Hex(n: nat): (r: seq<Byte>)
    ensures |r| > 0 && AllHex(r)
  {
    var digit: Byte := if n % 16 < 10 then 48 + n % 16 else 87 + n % 16;
    if n < 16 then [digit] else Hex(n / 16) + [digit]
  }

  lemma {:induction false} DecimalRoundTrip(n: nat)
    ensures DecimalValue(Decimal(n)) == n
  {
    if n < 10 {
      assert Decimal(n)[..0] == [];
    } else {
      var d := Decimal(n / 10);
      assert Decimal(n)[..|d|] == d;
      DecimalRoundTrip(n / 10);
    }
  }

  lemma {:induction false} HexRoundTrip(n: nat)
    ensures HexValue(Hex(n)) == n
  {
    if n < 16 {
      assert Hex(n)[..0] == [];
    } else {
      var d := Hex(n / 16);
      assert Hex(n)[..|d|] == d;
      HexRoundTrip(n / 16);
    }
  }

  /** A size below 2^64 takes at most sixteen hexadecimal digits. */
  lemma {:induction false} HexLength(n: nat, k: nat)
    requires k > 0 && n < Pow2(4 * k)
    ensures |Hex(n)| <= k
    decreases k
  {
    if n >= 16 {
      assert Pow2(4 * k) == 16 * Pow2(4 * (k - 1)) by {
        assert Pow2(4 * k) == 2 * Pow2(4 * k - 1) == 4 * Pow2(4 * k - 2) == 8 * Pow2(4 * k - 3);
      }
      assert k > 1;
      HexLength(n / 16, k - 1);
    }
  }
}

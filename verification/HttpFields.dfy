/** What request lines and header fields mean, octet by octet (RFC 9112), and that the helpers of
    http_request_parser.cpp read exactly that. */
module HttpFields {
  import opened Bytes
  import opened Text
  import opened HttpText
  import opened HttpParser

  // ---- letters, blanks, lists ----

  /** Spaces and tabs between two places. */
  predicate Blanks(s: seq<Byte>, from: nat, to: nat)
    requires from <= to <= |s|
  {
    forall i :: from <= i < to ==> s[i] == 32 || s[i] == 9
  }

  /** `s[a..b]` is what is left of `s` without the blanks around it. */
  predicate Core(s: seq<Byte>, a: nat, b: nat) {
    && a <= b <= |s| && Blanks(s, 0, a) && Blanks(s, b, |s|)
    && (a < b ==> s[a] != 32 && s[a] != 9 && s[b - 1] != 32 && s[b - 1] != 9)
  }

  ghost predicate IsCore(s: seq<Byte>, core: seq<Byte>) {
    exists a: nat, b: nat :: Core(s, a, b) && core == s[a..b]
  }

  lemma {:induction false} FrontTrimmed(s: seq<Byte>) returns (a: nat)
    ensures a <= |s| && TrimFront(s) == s[a..] && Blanks(s, 0, a) && (a < |s| ==> s[a] != 32 && s[a] != 9)
  {
    if s != [] && Blank(s[0]) {
      a := FrontTrimmed(s[1..]);
      assert s[1..][a..] == s[a + 1..];
      assert forall i :: 0 < i < a + 1 ==> s[i] == s[1..][i - 1];
      a := a + 1;
    } else {
      a := 0;
    }
  }

  lemma {:induction false} BackTrimmed(s: seq<Byte>) returns (b: nat)
    ensures b <= |s| && TrimBack(s) == s[..b] && Blanks(s, b, |s|) && (0 < b ==> s[b - 1] != 32 && s[b - 1] != 9)
  {
    b := |s|;
    assert s[..b] == s;
    if s != [] && Blank(s[b - 1]) {
      var front := s[..|s| - 1];
      b := BackTrimmed(front);
      assert front[..b] == s[..b];
      assert forall i :: b <= i < |front| ==> s[i] == front[i];
    }
  }

  /** Trim leaves the core. */
  lemma TrimCore(s: seq<Byte>) returns (a: nat, b: nat)
    ensures Core(s, a, b) && Trim(s) == s[a..b]
  {
    a := FrontTrimmed(s);
    var rest := s[a..];
    var n := BackTrimmed(rest);
    b := a + n;
    assert rest[..n] == s[a..b];
    assert forall i :: 0 <= i < |rest| ==> rest[i] == s[a + i];
    forall i | b <= i < |s| ensures s[i] == 32 || s[i] == 9 {
      assert s[i] == rest[i - a];
    }
  }

  /** There is only one core. */
  lemma CoreUnique(s: seq<Byte>, a: nat, b: nat, c: nat, d: nat)
    requires Core(s, a, b) && Core(s, c, d) && a < b
    ensures a == c && b == d
  {
  }

  lemma TrimIs(s: seq<Byte>, a: nat, b: nat)
    requires Core(s, a, b)
    ensures Trim(s) == s[a..b]
  {
    var c, d := TrimCore(s);
    if a < b {
      CoreUnique(s, a, b, c, d);
    } else if c < d {
      CoreUnique(s, c, d, a, b);
    }
  }

  /** `value[a..b]` stands alone between commas, but for blanks around it. */
  ghost predicate Member(value: seq<Byte>, a: nat, b: nat) {
    a <= b <= |value| && (exists i :: Leads(value, i, a)) && (exists j :: Trails(value, b, j))
  }

  /** Only blanks stand between a comma, or the beginning, and `a`; between `b` and a comma, or the end. */
  ghost predicate Leads(value: seq<Byte>, i: int, a: nat) {
    0 <= i <= a <= |value| && (i == 0 || value[i - 1] == 44) && Blanks(value, i, a)
  }

  ghost predicate Trails(value: seq<Byte>, b: nat, j: int) {
    b <= j <= |value| && (j == |value| || value[j] == 44) && Blanks(value, b, j)
  }

  /** A member of a comma-separated list is the token, in any case (section 5.6.1 of RFC 9110). */
  ghost predicate Lists(value: seq<Byte>, token: seq<Byte>) {
    exists a: nat, b: nat :: Member(value, a, b) && Lowered(value[a..b]) == token
  }

  /** A token neither empty nor holding commas or blanks. */
  predicate Solid(token: seq<Byte>) {
    token != [] && forall i :: 0 <= i < |token| ==> token[i] != 44 && token[i] != 32 && token[i] != 9
  }

  lemma LoweredSolid(s: seq<Byte>)
    requires Solid(Lowered(s))
    ensures Solid(s)
  {
    forall i | 0 <= i < |s| ensures s[i] != 44 && s[i] != 32 && s[i] != 9 {
      assert Lowered(s)[i] != 44 && Lowered(s)[i] != 32 && Lowered(s)[i] != 9;
    }
  }

  lemma FirstMember(value: seq<Byte>, comma: nat, token: seq<Byte>)
    requires comma <= |value| && (comma < |value| ==> value[comma] == 44) && Solid(token)
    requires Lowercase(Trim(value[..comma])) == token
    ensures Lists(value, token)
  {
    hide Trim;
    var first := value[..comma];
    var a, b := TrimCore(first);
    LowercaseIs(first[a..b]);
    assert first[a..b] == value[a..b];
    assert Blanks(value, 0, a) by { assert forall i :: 0 <= i < a ==> value[i] == first[i]; }
    assert Blanks(value, b, comma) by { assert forall i :: b <= i < comma ==> value[i] == first[i]; }
    assert Leads(value, 0, a) && Trails(value, b, comma);
  }

  /** Members of what follows a comma are members of the whole. */
  lemma LaterMember(value: seq<Byte>, comma: nat, a: nat, b: nat)
    requires comma < |value| && value[comma] == 44 && Member(value[comma + 1..], a, b)
    ensures Member(value, comma + 1 + a, comma + 1 + b) && value[comma + 1 + a..comma + 1 + b] == value[comma + 1..][a..b]
  {
    var n := comma + 1;
    var rest := value[n..];
    assert forall i :: 0 <= i < |rest| ==> rest[i] == value[n + i];
    var i :| Leads(rest, i, a);
    var j :| Trails(rest, b, j);
    forall k | n + i <= k < n + a ensures value[k] == 32 || value[k] == 9 { assert value[k] == rest[k - n]; }
    forall k | n + b <= k < n + j ensures value[k] == 32 || value[k] == 9 { assert value[k] == rest[k - n]; }
    assert Leads(value, n + i, n + a) && Trails(value, n + b, n + j);
  }

  /** A member before the first comma is what HeaderContainsToken compares first. */
  lemma MemberFirst(value: seq<Byte>, comma: nat, a: nat, b: nat)
    requires Member(value, a, b) && Solid(value[a..b]) && a < comma <= |value|
    requires (comma < |value| ==> value[comma] == 44) && forall i :: 0 <= i < comma ==> value[i] != 44
    ensures b <= comma && Trim(value[..comma]) == value[a..b]
  {
    hide Trim;
    var i :| Leads(value, i, a);
    var j :| Trails(value, b, j);
    assert i == 0;
    assert b <= comma by { assert forall k :: a <= k < b ==> value[k] == value[a..b][k - a]; }
    assert j == comma;
    var first := value[..comma];
    assert first[a..b] == value[a..b] && first[a] == value[a..b][0] && first[b - 1] == value[a..b][b - 1 - a];
    assert Core(first, a, b);
    TrimIs(first, a, b);
  }

  lemma MemberLater(value: seq<Byte>, comma: nat, a: nat, b: nat)
    requires Member(value, a, b) && Solid(value[a..b]) && comma < |value| && value[comma] == 44 && comma <= a
    ensures comma < a && Member(value[comma + 1..], a - comma - 1, b - comma - 1)
    ensures value[comma + 1..][a - comma - 1..b - comma - 1] == value[a..b]
  {
    var n := comma + 1;
    var rest := value[n..];
    assert value[a] == value[a..b][0];
    var i :| Leads(value, i, a);
    var j :| Trails(value, b, j);
    assert forall k :: 0 <= k < |rest| ==> rest[k] == value[n + k];
    assert n <= i;
    assert Leads(rest, i - n, a - n) && Trails(rest, b - n, j - n);
  }

  /** HeaderContainsToken finds exactly the members of the list. */
  lemma {:induction false} HasTokenIff(value: seq<Byte>, token: seq<Byte>)
    requires Solid(token)
    ensures HasToken(value, token) <==> Lists(value, token)
    decreases |value|
  {
    hide Find, Trim, Lowercase, Lists;
    var comma := Find(value, 44, 0);
    if comma < |value| {
      HasTokenIff(value[comma + 1..], token);
    }
    if Lowercase(Trim(value[..comma])) == token {
      FirstMember(value, comma, token);
    } else if HasToken(value, token) {
      LaterList(value, comma, token);
    } else if Lists(value, token) {
      ListFound(value, comma, token);
    }
  }

  lemma LaterList(value: seq<Byte>, comma: nat, token: seq<Byte>)
    requires comma < |value| && value[comma] == 44 && Lists(value[comma + 1..], token)
    ensures Lists(value, token)
  {
    var a: nat, b: nat :| Member(value[comma + 1..], a, b) && Lowered(value[comma + 1..][a..b]) == token;
    LaterMember(value, comma, a, b);
  }

  lemma ListFound(value: seq<Byte>, comma: nat, token: seq<Byte>)
    requires Lists(value, token) && Solid(token) && comma <= |value|
    requires (comma < |value| ==> value[comma] == 44) && forall i :: 0 <= i < comma ==> value[i] != 44
    ensures Lowercase(Trim(value[..comma])) == token || (comma < |value| && Lists(value[comma + 1..], token))
  {
    hide Trim;
    var a: nat, b: nat :| Member(value, a, b) && Lowered(value[a..b]) == token;
    LoweredSolid(value[a..b]);
    if a < comma {
      MemberFirst(value, comma, a, b);
      LowercaseIs(value[a..b]);
    } else {
      MemberLater(value, comma, a, b);
    }
  }

  // ---- one line ----

  /** Letters, digits and the fifteen marks of a token (section 5.6.2 of RFC 9110). */
  const MARKS: string := "!#$%&'*+-.^_`|~"

  predicate IsToken(s: seq<Byte>) {
    forall i :: 0 <= i < |s| ==> 48 <= s[i] <= 57 || 97 <= Lowered(s)[i] <= 122 || s[i] as char in MARKS
  }

  lemma TokenIff(s: seq<Byte>)
    ensures AllTokens(s) <==> IsToken(s)
  {
    forall i | 0 <= i < |s| ensures TokenByte(s[i]) <==> 48 <= s[i] <= 57 || 97 <= Lowered(s)[i] <= 122 || s[i] as char in MARKS {
    }
  }

  /** A field value holds no control characters but tabs. */
  predicate IsValue(s: seq<Byte>) {
    forall i :: 0 <= i < |s| ==> s[i] == 9 || 32 <= s[i] <= 126 || s[i] >= 128
  }

  /** A header line: a name, a colon, and a value with optional blanks around it. */
  ghost predicate IsField(line: seq<Byte>, name: seq<Byte>, value: seq<Byte>) {
    && name != [] && IsToken(name) && IsValue(value)
    && |name| < |line| && line[..|name|] == name && line[|name|] == 58
    && IsCore(line[|name| + 1..], value)
  }

  lemma TokenNoColon(s: seq<Byte>)
    requires IsToken(s)
    ensures forall i :: 0 <= i < |s| ==> s[i] != 58
  {
  }

  lemma ColonAt(line: seq<Byte>, k: nat)
    requires k < |line| && line[k] == 58 && forall i :: 0 <= i < k ==> line[i] != 58
    ensures Find(line, 58, 0) == k
  {
  }

  /** A header line is read as a field exactly if it is one; its name is lowered, its value stripped of the
      blanks around it. */
  lemma HeaderLineIff(line: seq<Byte>, h: Header)
    ensures ParseHeaderLine(line) == Some(h) <==> exists name :: h.name == Lowered(name) && IsField(line, name, h.value)
  {
    hide Find, Trim, Lowercase, AllTokens, IsToken, Lowered;
    if ParseHeaderLine(line) == Some(h) {
      var colon := Find(line, 58, 0);
      var name := line[..colon];
      TokenIff(name);
      LowercaseIs(name);
      var a, b := TrimCore(line[colon + 1..]);
      assert IsField(line, name, h.value);
    }
    if name :| h.name == Lowered(name) && IsField(line, name, h.value) {
      FieldRead(line, name, h.value);
    }
  }

  lemma FieldRead(line: seq<Byte>, name: seq<Byte>, value: seq<Byte>)
    requires IsField(line, name, value)
    ensures ParseHeaderLine(line) == Some(Header(Lowered(name), value))
  {
    hide Find, Trim, Lowercase, AllTokens, IsToken, Lowered;
    TokenIff(name);
    TokenNoColon(name);
    LowercaseIs(name);
    forall i | 0 <= i < |name| ensures line[i] != 58 {
      assert line[i] == line[..|name|][i];
    }
    ColonAt(line, |name|);
    var a: nat, b: nat :| Core(line[|name| + 1..], a, b) && value == line[|name| + 1..][a..b];
    TrimIs(line[|name| + 1..], a, b);
  }

  // ---- the request line ----

  /** Three non-empty parts with one space between them, the first a token (section 3 of RFC 9112). */
  ghost predicate Parts(line: seq<Byte>, m: seq<Byte>, t: seq<Byte>, v: seq<Byte>) {
    && m != [] && t != [] && v != [] && IsToken(m) && 32 !in t && 32 !in v
    && line == m + [32] + t + [32] + v
  }

  /** The target before and after its first question mark. */
  predicate Split(t: seq<Byte>, path: seq<Byte>, query: seq<Byte>) {
    63 !in path && ((t == path && query == []) || t == path + [63] + query)
  }

  /** What is to be made of the three parts. */
  ghost predicate Judged(m: seq<Byte>, t: seq<Byte>, v: seq<Byte>, r: StartLine) {
    if v != VERSION then r == BadLine(UnsupportedVersion)
    else if t == [] || t[0] != 47 || 35 in t then r == BadLine(InvalidTarget)
    else r.StartLine? && r.methodText == m && r.target == t && Split(t, r.path, r.query)
  }

  lemma TokenNoSpace(s: seq<Byte>)
    requires IsToken(s)
    ensures 32 !in s
  {
    forall i | 0 <= i < |s| ensures s[i] != 32 {
    }
  }

  lemma FoundAt(s: seq<Byte>, c: Byte, from: nat, at: nat)
    requires from <= at <= |s| && (at < |s| ==> s[at] == c) && forall i :: from <= i < at ==> s[i] != c
    ensures Find(s, c, from) == at
  {
  }

  lemma SpacesAt(line: seq<Byte>, m: seq<Byte>, t: seq<Byte>, v: seq<Byte>)
    requires 32 !in m && 32 !in t && 32 !in v && line == m + [32] + t + [32] + v
    ensures var first, second := |m|, |m| + 1 + |t|;
            && Find(line, 32, 0) == first && Find(line, 32, first + 1) == second && Find(line, 32, second + 1) == |line|
            && line[..first] == m && line[first + 1..second] == t && line[second + 1..] == v
  {
    hide Find;
    var first, second := |m|, |m| + 1 + |t|;
    assert forall i :: 0 <= i < first ==> line[i] == m[i];
    assert forall i :: first < i < second ==> line[i] == t[i - first - 1];
    assert forall i :: second < i < |line| ==> line[i] == v[i - second - 1];
    FoundAt(line, 32, 0, first);
    FoundAt(line, 32, first + 1, second);
    FoundAt(line, 32, second + 1, |line|);
  }

  lemma SplitRead(t: seq<Byte>)
    ensures var q := Find(t, 63, 0); Split(t, t[..q], if q < |t| then t[q + 1..] else [])
  {
    hide Find, Split;
    var q := Find(t, 63, 0);
    if q < |t| {
      CutAt(t, q);
      SplitIf(t, t[..q], t[q + 1..]);
    } else {
      assert t[..q] == t;
      SplitIf(t, t, []);
    }
  }

  lemma CutAt(t: seq<Byte>, q: nat)
    requires q < |t| && t[q] == 63
    ensures t == t[..q] + [63] + t[q + 1..]
  {
  }

  lemma SplitIf(t: seq<Byte>, path: seq<Byte>, query: seq<Byte>)
    requires forall i :: 0 <= i < |path| ==> path[i] != 63
    requires (t == path && query == []) || t == path + [63] + query
    ensures Split(t, path, query)
  {
  }

  lemma CutJudged(line: seq<Byte>, first: nat, second: nat)
    requires 0 < first && first + 1 < second && second + 1 < |line| && AllTokens(line[..first])
    requires Find(line, SP, 0) == first && Find(line, SP, first + 1) == second && Find(line, SP, second + 1) == |line|
    ensures Judged(line[..first], line[first + 1..second], line[second + 1..], ParseRequestLine(line))
  {
    hide Find, AllTokens, Ascii, Judged;
    JudgedAs(line[..first], line[first + 1..second], line[second + 1..]);
  }

  lemma JudgedAs(m: seq<Byte>, t: seq<Byte>, v: seq<Byte>)
    requires t != []
    ensures var q := Find(t, 63, 0);
            Judged(m, t, v,
                   if v != VERSION then BadLine(UnsupportedVersion)
                   else if t[0] != 47 || 35 in t then BadLine(InvalidTarget)
                   else StartLine(m, t, t[..q], if q < |t| then t[q + 1..] else []))
  {
    hide Find, Ascii, Split;
    SplitRead(t);
  }

  /** A request line of three parts is judged by them. */
  lemma PartsRead(line: seq<Byte>, m: seq<Byte>, t: seq<Byte>, v: seq<Byte>)
    requires Parts(line, m, t, v)
    ensures Judged(m, t, v, ParseRequestLine(line))
  {
    hide Find, AllTokens, IsToken, Judged, ParseRequestLine;
    TokenNoSpace(m);
    TokenIff(m);
    SpacesAt(line, m, t, v);
    CutJudged(line, |m|, |m| + 1 + |t|);
  }

  lemma CutParts(line: seq<Byte>, first: nat, second: nat)
    requires 0 < first && first + 1 < second && second + 1 < |line| && AllTokens(line[..first]) && line[first] == line[second] == 32
    requires forall i :: first < i < |line| && i != second ==> line[i] != 32
    ensures Parts(line, line[..first], line[first + 1..second], line[second + 1..])
  {
    hide AllTokens, IsToken;
    var m, t, v := line[..first], line[first + 1..second], line[second + 1..];
    TokenIff(m);
    assert 32 !in t by { assert forall i :: 0 <= i < |t| ==> t[i] == line[first + 1 + i]; }
    assert 32 !in v by { assert forall i :: 0 <= i < |v| ==> v[i] == line[second + 1 + i]; }
    assert line == m + [32] + t + [32] + v;
  }

  /** Any other line is refused as malformed. */
  lemma RequestLineIff(line: seq<Byte>)
    ensures ParseRequestLine(line) == BadLine(InvalidRequestLine) <==> !exists m, t, v :: Parts(line, m, t, v)
  {
    hide Find, AllTokens, IsToken, Ascii;
    if m, t, v :| Parts(line, m, t, v) {
      PartsRead(line, m, t, v);
    } else if ParseRequestLine(line) != BadLine(InvalidRequestLine) {
      var first := Find(line, SP, 0);
      var second := Find(line, SP, first + 1);
      CutParts(line, first, second);
      assert Parts(line, line[..first], line[first + 1..second], line[second + 1..]);
    }
  }

  // ---- the headers together ----

  /** The names as octets. */
  lemma NamesSpelled()
    ensures HOST == [104, 111, 115, 116]
    ensures CONNECTION == [99, 111, 110, 110, 101, 99, 116, 105, 111, 110]
    ensures EXPECT == [101, 120, 112, 101, 99, 116]
    ensures CLOSE == [99, 108, 111, 115, 101] && CHUNKED == [99, 104, 117, 110, 107, 101, 100]
    ensures CONTINUE == [49, 48, 48, 45, 99, 111, 110, 116, 105, 110, 117, 101]
  {
    hide Ascii;
  }

  lemma LongNamesSpelled()
    ensures CONTENT_LENGTH == [99, 111, 110, 116, 101, 110, 116, 45, 108, 101, 110, 103, 116, 104]
    ensures TRANSFER_ENCODING == [116, 114, 97, 110, 115, 102, 101, 114, 45, 101, 110, 99, 111, 100, 105, 110, 103]
    ensures VERSION == [72, 84, 84, 80, 47, 49, 46, 49]
  {
    hide Ascii;
  }

  /** The names that matter differ, and the tokens looked for are solid. */
  lemma NamesApart()
    ensures |HOST| == 4 && |CONTENT_LENGTH| == 14 && |TRANSFER_ENCODING| == 17 && |CONNECTION| == 10 && |EXPECT| == 6
    ensures Solid(CLOSE) && Solid(CHUNKED) && Solid(CONTINUE)
  {
    hide Ascii;
    NamesSpelled();
    LongNamesSpelled();
  }

  /** The headers of a name, in order. */
  function Named(hs: seq<Header>, name: seq<Byte>): seq<Header> {
    if hs == [] then []
    else
      var last := hs[|hs| - 1];
      Named(hs[..|hs| - 1], name) + if last.name == name then [last] else []
  }

  /** A length: digits that a 64-bit size can hold, with optional blanks around them. */
  ghost predicate IsLength(value: seq<Byte>, n: nat) {
    exists digits :: IsCore(value, digits) && ParseDecimal(digits) == Some(n)
  }

  /** What is wrong with a header that follows the given ones, if anything is. */
  ghost function Fault(before: seq<Header>, h: Header): Option<ParseError> {
    if h.name == HOST && h.value == [] then Some(MissingHost)
    else if h.name == CONTENT_LENGTH && !exists n :: IsLength(h.value, n) then Some(InvalidContentLength)
    else if h.name == TRANSFER_ENCODING && Named(before, CONTENT_LENGTH) != [] then Some(InvalidContentLength)
    else if h.name == TRANSFER_ENCODING && !Lists(h.value, CHUNKED) then Some(UnsupportedTransferEncoding)
    else None
  }

  /** The first fault in a list of headers. */
  ghost function FirstFault(hs: seq<Header>): Option<ParseError> {
    if hs == [] then None
    else
      var n := |hs| - 1;
      match FirstFault(hs[..n])
      case Some(e) => Some(e)
      case None => Fault(hs[..n], hs[n])
  }

  ghost predicate SaysClose(hs: seq<Header>) {
    exists i :: 0 <= i < |hs| && Lists(hs[i].value, CLOSE)
  }

  ghost predicate LastAsks(hs: seq<Header>) {
    hs != [] && Lists(hs[|hs| - 1].value, CONTINUE)
  }

  /** Headers without a fault: how many hosts and lengths, the last length, whether the body comes in chunks,
      whether some Connection header says close, and whether the last Expect header asks to continue. */
  ghost predicate Sums(hs: seq<Header>, t: Tally) {
    && t.Tally? && t.hosts == |Named(hs, HOST)| && t.lengths == |Named(hs, CONTENT_LENGTH)|
    && (if t.lengths > 0 then IsLength(Named(hs, CONTENT_LENGTH)[t.lengths - 1].value, t.length) else t.length == 0)
    && (t.chunked <==> Named(hs, TRANSFER_ENCODING) != [])
    && (t.close <==> SaysClose(Named(hs, CONNECTION)))
    && (t.expect_ <==> LastAsks(Named(hs, EXPECT)))
  }

  lemma LengthRead(value: seq<Byte>)
    ensures match ParseDecimal(Trim(value)) case None => !exists n :: IsLength(value, n) case Some(n) => IsLength(value, n)
    ensures forall n, k :: IsLength(value, n) && IsLength(value, k) ==> n == k
  {
    hide ParseDecimal, Trim;
    var a, b := TrimCore(value);
    assert IsCore(value, Trim(value));
    forall n: nat | IsLength(value, n) ensures ParseDecimal(Trim(value)) == Some(n) {
      var digits :| IsCore(value, digits) && ParseDecimal(digits) == Some(n);
      var c: nat, d: nat :| Core(value, c, d) && digits == value[c..d];
      TrimIs(value, c, d);
    }
  }

  /** Blanks around a list do not change its members. */
  lemma TrimLists(value: seq<Byte>, token: seq<Byte>)
    requires Solid(token)
    ensures Lists(Trim(value), token) <==> Lists(value, token)
  {
    hide Trim;
    var a, b := TrimCore(value);
    var core := Trim(value);
    if Lists(core, token) {
      var c: nat, d: nat :| Member(core, c, d) && Lowered(core[c..d]) == token;
      CoreMember(value, a, b, c, d);
    }
    if Lists(value, token) {
      var c: nat, d: nat :| Member(value, c, d) && Lowered(value[c..d]) == token;
      LoweredSolid(value[c..d]);
      MemberCore(value, a, b, c, d);
    }
  }

  lemma CoreMember(value: seq<Byte>, a: nat, b: nat, c: nat, d: nat)
    requires Core(value, a, b) && Member(value[a..b], c, d)
    ensures Member(value, a + c, a + d) && value[a + c..a + d] == value[a..b][c..d]
  {
    var core := value[a..b];
    var i :| Leads(core, i, c);
    var j :| Trails(core, d, j);
    assert forall k :: 0 <= k < |core| ==> core[k] == value[a + k];
    forall k | a + i <= k < a + c ensures value[k] == 32 || value[k] == 9 { assert value[k] == core[k - a]; }
    forall k | a + d <= k < a + j ensures value[k] == 32 || value[k] == 9 { assert value[k] == core[k - a]; }
    var x := if i == 0 then 0 else a + i;
    var y := if j == |core| then |value| else a + j;
    assert Leads(value, x, a + c);
    assert Trails(value, a + d, y);
  }

  lemma MemberCore(value: seq<Byte>, a: nat, b: nat, c: nat, d: nat)
    requires Core(value, a, b) && Member(value, c, d) && Solid(value[c..d])
    ensures a <= c && d <= b && Member(value[a..b], c - a, d - a) && value[a..b][c - a..d - a] == value[c..d]
  {
    var core := value[a..b];
    assert value[c] == value[c..d][0] && value[d - 1] == value[c..d][d - 1 - c];
    assert a <= c && d <= b;
    var i :| Leads(value, i, c);
    var j :| Trails(value, d, j);
    assert forall k :: 0 <= k < |core| ==> core[k] == value[a + k];
    var x := if i <= a then 0 else i - a;
    var y := if j >= b then |core| else j - a;
    assert Leads(core, x, c - a);
    assert Trails(core, d - a, y);
  }

  lemma {:induction false} CountAllLast(t: Tally, hs: seq<Header>, h: Header)
    ensures var c := CountAll(t, hs);
            CountAll(t, hs + [h]) == if c.Tally? then Count(c, h) else c
    decreases |hs|
  {
    hide Count;
    if hs == [] || t.Refused? {
      assert hs == [] ==> hs + [h] == [h] && [h][1..] == [];
    } else {
      assert (hs + [h])[1..] == hs[1..] + [h];
      CountAllLast(Count(t, hs[0]), hs[1..], h);
    }
  }

  const NONE := Tally(0, 0, 0, false, false, false)

  lemma SaysCloseLast(hs: seq<Header>, h: Header)
    ensures SaysClose(hs + [h]) <==> SaysClose(hs) || Lists(h.value, CLOSE)
  {
    hide Lists, Ascii;
    var all := hs + [h];
    if SaysClose(hs) {
      var i :| 0 <= i < |hs| && Lists(hs[i].value, CLOSE);
      assert all[i] == hs[i];
    }
    assert all[|hs|] == h;
    if SaysClose(all) {
      var i :| 0 <= i < |all| && Lists(all[i].value, CLOSE);
      assert i < |hs| ==> all[i] == hs[i];
    }
  }

  /** One more header: a fault, or its share of the sums. */
  lemma CountIff(before: seq<Header>, t: Tally, h: Header)
    requires Sums(before, t)
    ensures match Fault(before, h)
            case Some(e) => Count(t, h) == Refused(e)
            case None => Sums(before + [h], Count(t, h))
  {
    hide Lists, IsLength, Trim, HasToken, ParseDecimal, Ascii, SaysClose, Named;
    NamesApart();
    NamedLast(before, h, HOST);
    NamedLast(before, h, CONTENT_LENGTH);
    NamedLast(before, h, TRANSFER_ENCODING);
    NamedLast(before, h, CONNECTION);
    NamedLast(before, h, EXPECT);
    if h.name == CONTENT_LENGTH {
      LengthRead(h.value);
    } else if h.name == TRANSFER_ENCODING {
      HasTokenIff(Trim(h.value), CHUNKED);
      TrimLists(h.value, CHUNKED);
    } else if h.name == CONNECTION {
      HasTokenIff(h.value, CLOSE);
      SaysCloseLast(Named(before, CONNECTION), h);
    } else if h.name == EXPECT {
      HasTokenIff(h.value, CONTINUE);
    }
  }

  lemma NamedLast(hs: seq<Header>, h: Header, name: seq<Byte>)
    ensures Named(hs + [h], name) == if h.name == name then Named(hs, name) + [h] else Named(hs, name)
  {
    assert (hs + [h])[..|hs|] == hs;
  }

  lemma {:induction false} CountAllIff(hs: seq<Header>)
    ensures match FirstFault(hs)
            case Some(e) => CountAll(NONE, hs) == Refused(e)
            case None => Sums(hs, CountAll(NONE, hs))
    decreases |hs|
  {
    hide Sums, Fault, Count;
    if hs == [] {
      NoSums();
    } else {
      var n := |hs| - 1;
      CountAllIff(hs[..n]);
      CountAllLast(NONE, hs[..n], hs[n]);
      assert hs[..n] + [hs[n]] == hs;
      if FirstFault(hs[..n]).None? {
        SumsTally(hs[..n], CountAll(NONE, hs[..n]));
        CountIff(hs[..n], CountAll(NONE, hs[..n]), hs[n]);
      }
    }
  }

  lemma SumsTally(hs: seq<Header>, t: Tally)
    requires Sums(hs, t)
    ensures t.Tally?
  {
    hide Lists, IsLength, Ascii, SaysClose, Named;
  }

  lemma NoSums()
    ensures CountAll(NONE, []) == NONE && Sums([], NONE)
  {
    hide Ascii;
  }

  /** FinalizeHeaders, for every list of headers: refused for the first fault; else for no host, two hosts,
      two lengths or too long a body, in this order; else summed up. */
  lemma FinalizeIff(o: Options, hs: seq<Header>)
    ensures var t := Finalize(o, hs);
            match FirstFault(hs)
            case Some(e) => t == Refused(e)
            case None =>
              if |Named(hs, HOST)| == 0 then t == Refused(MissingHost)
              else if |Named(hs, HOST)| > 1 then t == Refused(DuplicateHost)
              else if |Named(hs, CONTENT_LENGTH)| > 1 then t == Refused(DuplicateContentLength)
              else if exists n :: n > o.maxBody && Named(hs, CONTENT_LENGTH) != [] && IsLength(Named(hs, CONTENT_LENGTH)[0].value, n)
              then t == Refused(BodyTooLarge)
              else Sums(hs, t)
  {
    hide Named, FirstFault, CountAll, Ascii, IsLength, SaysClose, LastAsks;
    CountAllIff(hs);
    if Named(hs, CONTENT_LENGTH) != [] {
      LengthRead(Named(hs, CONTENT_LENGTH)[0].value);
    }
  }
}

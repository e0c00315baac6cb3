/** Canonical HTTP/1.1 requests (RFC 9112), written out as a client writes them, and what the parser makes of them. */
module HttpPrint {
  import opened Bytes
  import opened Text
  import opened HttpText
  import opened HttpParser
  import opened HttpFields

  /** How the body is delimited: by nothing (it is empty), by its length, or in the given chunks. */
  datatype Framing = Bare | WithLength | InChunks(chunks: seq<seq<Byte>>)

  /** A request as a client writes it, header names in any case; `framer` is the header that tells the
      framing, if one does. */
  datatype Message = Message(
    methodText: seq<Byte>, target: seq<Byte>, headers: seq<Header>, body: seq<Byte>, framing: Framing, framer: Header)

  const EOL: seq<Byte> := [CR, LF]

  function RequestLineOf(m: Message): seq<Byte> {
    m.methodText + [SP] + m.target + [SP] + VERSION
  }

  function AllHeaders(m: Message): seq<Header> {
    if m.framing.Bare? then m.headers else m.headers + [m.framer]
  }

  /** How the application sees a header: its name in lower case. */
  function AsRead(h: Header): Header { Header(Lowered(h.name), h.value) }

  function AllRead(hs: seq<Header>): (r: seq<Header>)
    ensures |r| == |hs| && forall i :: 0 <= i < |hs| ==> r[i] == AsRead(hs[i])
  {
    seq(|hs|, i requires 0 <= i < |hs| => AsRead(hs[i]))
  }

  function HeaderLine(h: Header): seq<Byte> {
    h.name + [58] + [SP] + h.value
  }

  function PrintHeaders(hs: seq<Header>): seq<Byte> {
    if hs == [] then [] else HeaderLine(hs[0]) + EOL + PrintHeaders(hs[1..])
  }

  function PrintChunks(chunks: seq<seq<Byte>>): seq<Byte> {
    if chunks == [] then [48] + EOL + EOL
    else Hex(|chunks[0]|) + EOL + chunks[0] + EOL + PrintChunks(chunks[1..])
  }

  function PrintBody(m: Message): seq<Byte> {
    match m.framing
    case Bare => []
    case WithLength => m.body
    case InChunks(chunks) => PrintChunks(chunks)
  }

  function Print(m: Message): seq<Byte> {
    RequestLineOf(m) + EOL + PrintHeaders(AllHeaders(m)) + EOL + PrintBody(m)
  }

  // ---- canonical messages ----

  predicate OneLine(s: seq<Byte>) {
    forall i :: 0 <= i < |s| ==> s[i] != CR && s[i] != LF
  }

  predicate CanonicalHeader(h: Header) {
    h.name != [] && IsToken(h.name) && Core(h.value, 0, |h.value|) && IsValue(h.value)
  }

  predicate UserHeader(h: Header) {
    && CanonicalHeader(h) && Lowered(h.name) != CONTENT_LENGTH && Lowered(h.name) != TRANSFER_ENCODING
    && (Lowered(h.name) == HOST ==> h.value != [])
  }

  function Hosts(hs: seq<Header>): nat {
    if hs == [] then 0 else Hosts(hs[..|hs| - 1]) + if Lowered(hs[|hs| - 1].name) == HOST then 1 else 0
  }

  /** Some Connection header says close. */
  ghost predicate Closes(hs: seq<Header>) {
    exists i :: 0 <= i < |hs| && Lowered(hs[i].name) == CONNECTION && Lists(hs[i].value, CLOSE)
  }

  /** The last Expect header asks for 100 Continue. */
  ghost predicate Expects(hs: seq<Header>) {
    hs != [] &&
    var last := hs[|hs| - 1];
    if Lowered(last.name) == EXPECT then Lists(last.value, CONTINUE) else Expects(hs[..|hs| - 1])
  }

  /** The body is empty, or as long as its header says, or cut into chunks and announced so. */
  ghost predicate CanonicalBody(m: Message) {
    match m.framing
    case Bare => m.body == []
    case WithLength => Lowered(m.framer.name) == CONTENT_LENGTH && m.framer.value == Decimal(|m.body|)
    case InChunks(chunks) =>
      && Lowered(m.framer.name) == TRANSFER_ENCODING && Lists(m.framer.value, CHUNKED)
      && m.body == Flatten(chunks) && forall i :: 0 <= i < |chunks| ==> chunks[i] != []
  }

  ghost predicate Canonical(m: Message) {
    && m.methodText != [] && IsToken(m.methodText)
    && m.target != [] && m.target[0] == 47 && 35 !in m.target && SP !in m.target && OneLine(m.target)
    && (forall i :: 0 <= i < |m.headers| ==> UserHeader(m.headers[i]))
    && Hosts(m.headers) == 1
    && (!m.framing.Bare? ==> CanonicalHeader(m.framer))
    && CanonicalBody(m)
  }

  /** Within the parser's limits. */
  predicate WithinLimits(o: Options, m: Message) {
    && |RequestLineOf(m)| <= o.maxLine
    && |PrintHeaders(AllHeaders(m))| + 2 <= o.maxHeader
    && |AllHeaders(m)| <= o.maxCount
    && |m.body| <= o.maxBody
  }

  /** What the application gets. */
  ghost function Meaning(m: Message): HttpRequest {
    var q := Find(m.target, 63, 0);
    HttpRequest(m.methodText, m.target, m.target[..q], if q < |m.target| then m.target[q + 1..] else [],
                AllRead(AllHeaders(m)), m.body, !Closes(m.headers))
  }

  // ---- lines ----

  lemma {:induction false} ScanEnds(data: seq<Byte>, start: nat, index: nat, line: seq<Byte>, max: nat)
    requires At(data, start, line + EOL) && OneLine(line) && |line| <= max && start <= index <= start + |line|
    ensures ScanLine(data, start, index, max) == LineEnd(start + |line|)
    decreases start + |line| - index
  {
    var all := line + EOL;
    assert data[start..start + |all|][index - start] == all[index - start];
    if index == start + |line| {
      assert data[start..start + |all|][|line| + 1] == all[|line| + 1];
    } else {
      ScanEnds(data, start, index + 1, line, max);
    }
  }

  lemma ReadsLine(data: seq<Byte>, start: nat, line: seq<Byte>, max: nat)
    requires At(data, start, line + EOL) && OneLine(line) && |line| <= max
    ensures ScanLine(data, start, start, max) == LineEnd(start + |line|)
    ensures data[start..start + |line|] == line
  {
    ScanEnds(data, start, start, line, max);
    AtSplit(data, start, line, EOL);
  }

  lemma Found(s: seq<Byte>, c: Byte, from: nat, at: nat)
    requires from <= at < |s| && s[at] == c && forall i :: from <= i < at ==> s[i] != c
    ensures Find(s, c, from) == at
  {
  }

  lemma NotFound(s: seq<Byte>, c: Byte, from: nat)
    requires from <= |s| && forall i :: from <= i < |s| ==> s[i] != c
    ensures Find(s, c, from) == |s|
  {
  }

  /** Three parts without spaces, with spaces between. */
  lemma ThreeParts(a: seq<Byte>, b: seq<Byte>, c: seq<Byte>)
    requires SP !in a && SP !in b && SP !in c && OneLine(a) && OneLine(b) && OneLine(c)
    ensures var line := a + [SP] + b + [SP] + c;
            var first, second := |a|, |a| + 1 + |b|;
            && OneLine(line) && Find(line, SP, 0) == first && Find(line, SP, first + 1) == second
            && Find(line, SP, second + 1) == |line|
            && line[..first] == a && line[first + 1..second] == b && line[second + 1..] == c
  {
    hide Find;
    var line := a + [SP] + b + [SP] + c;
    var first, second := |a|, |a| + 1 + |b|;
    assert forall i :: 0 <= i < first ==> line[i] == a[i];
    assert forall i :: first < i < second ==> line[i] == b[i - first - 1];
    assert forall i :: second < i < |line| ==> line[i] == c[i - second - 1];
    Found(line, SP, 0, first);
    Found(line, SP, first + 1, second);
    NotFound(line, SP, second + 1);
  }

  lemma VersionText()
    ensures |VERSION| == 8 && SP !in VERSION && OneLine(VERSION)
  {
  }

  lemma TokenText(s: seq<Byte>)
    requires IsToken(s)
    ensures SP !in s && OneLine(s) && AllTokens(s)
  {
    TokenIff(s);
    forall i | 0 <= i < |s| ensures s[i] != SP && s[i] != CR && s[i] != LF {
      assert TokenByte(s[i]);
    }
  }

  /** The request line is read back. */
  lemma RequestLineRead(m: Message)
    requires Canonical(m)
    ensures var r := Meaning(m);
            ParseRequestLine(RequestLineOf(m)) == StartLine(r.methodText, r.target, r.path, r.query)
  {
    hide Find, Hosts, UserHeader, CanonicalBody, CanonicalHeader, AllTokens, IsToken, OneLine, AllHeaders, AllRead,
         Closes, Ascii;
    VersionText();
    TokenText(m.methodText);
    ThreeParts(m.methodText, m.target, VERSION);
  }

  lemma RequestLineOne(m: Message)
    requires Canonical(m)
    ensures OneLine(RequestLineOf(m))
  {
    hide Find, Hosts, UserHeader, CanonicalBody, CanonicalHeader, AllTokens, IsToken, OneLine, AllHeaders, AllRead,
         Closes, Ascii;
    VersionText();
    TokenText(m.methodText);
    ThreeParts(m.methodText, m.target, VERSION);
  }

  /** A header line is read back, its name in lower case. */
  lemma HeaderLineRead(h: Header)
    requires CanonicalHeader(h)
    ensures ParseHeaderLine(HeaderLine(h)) == Some(AsRead(h)) && OneLine(HeaderLine(h)) && HeaderLine(h) != []
  {
    hide ParseHeaderLine, IsToken, Lowered;
    var line := HeaderLine(h);
    var colon := |h.name|;
    var rest := [SP] + h.value;
    assert line[..colon] == h.name && line[colon] == 58 && line[colon + 1..] == rest;
    assert Core(rest, 1, |rest|) && rest[1..|rest|] == h.value;
    assert IsField(line, h.name, h.value);
    FieldRead(line, h.name, h.value);
    TokenText(h.name);
    assert forall i :: 0 <= i < colon ==> line[i] == h.name[i];
    forall i | colon < i < |line| ensures line[i] != CR && line[i] != LF {
      assert line[i] == rest[i - colon - 1];
    }
  }

  // ---- the end of the headers ----

  lemma {:induction false} CountUser(hs: seq<Header>)
    requires forall i :: 0 <= i < |hs| ==> UserHeader(hs[i])
    ensures CountAll(NONE, AllRead(hs)) == Tally(Hosts(hs), 0, 0, false, Closes(hs), Expects(hs))
    decreases |hs|
  {
    hide Ascii, HasToken, CanonicalHeader, CountAll, Lists, Lowered;
    if hs == [] {
      assert AllRead([]) == [];
      NoSums();
    } else {
      var n := |hs| - 1;
      var front, h := hs[..n], hs[n];
      CountUser(front);
      CountAllLast(NONE, AllRead(front), AsRead(h));
      assert AllRead(front) + [AsRead(h)] == AllRead(hs);
      ClosesLast(hs);
      NamesApart();
      HasTokenIff(h.value, CLOSE);
      HasTokenIff(h.value, CONTINUE);
      assert UserHeader(h);
    }
  }

  lemma ClosesLast(hs: seq<Header>)
    requires hs != []
    ensures var n := |hs| - 1;
            Closes(hs) <==> Closes(hs[..n]) || (Lowered(hs[n].name) == CONNECTION && Lists(hs[n].value, CLOSE))
  {
    hide Lists, Ascii, Lowered;
    var n := |hs| - 1;
    if Closes(hs[..n]) {
      var i :| 0 <= i < n && Lowered(hs[..n][i].name) == CONNECTION && Lists(hs[..n][i].value, CLOSE);
      assert hs[i] == hs[..n][i];
    }
    if Closes(hs) {
      var i :| 0 <= i < |hs| && Lowered(hs[i].name) == CONNECTION && Lists(hs[i].value, CLOSE);
      assert i < n ==> hs[..n][i] == hs[i];
    }
  }

  /** Lower-case letters and hyphens. */
  predicate Word(s: seq<Byte>) {
    s != [] && forall i :: 0 <= i < |s| ==> 97 <= s[i] <= 122 || s[i] == 45
  }

  lemma Words()
    ensures Word(CHUNKED) && Word(TRANSFER_ENCODING) && Word(CONTENT_LENGTH)
  {
    hide Ascii, Word;
    AsciiWord("chunked");
    AsciiWord("transfer-encoding");
    AsciiWord("content-length");
  }

  lemma AsciiWord(s: string)
    requires s != "" && forall i :: 0 <= i < |s| ==> 'a' <= s[i] <= 'z' || s[i] == '-'
    ensures Word(Ascii(s))
  {
    hide Ascii;
  }

  lemma WordFacts(s: seq<Byte>)
    requires Word(s)
    ensures IsToken(s) && Lowered(s) == s && IsValue(s) && Core(s, 0, |s|) && Lists(s, s)
  {
    assert Lowered(s) == s;
    assert Blanks(s, 0, 0) && Blanks(s, |s|, |s|);
    assert Leads(s, 0, 0) && Trails(s, |s|, |s|) && s[0..|s|] == s;
    assert Member(s, 0, |s|);
  }

  /** The length that a header announces is read back. */
  lemma DigitsFacts(n: nat)
    ensures Core(Decimal(n), 0, |Decimal(n)|) && IsValue(Decimal(n))
    ensures n < SIZE_LIMIT ==> ParseDecimal(Trim(Decimal(n))) == Some(n)
  {
    hide Trim;
    var d := Decimal(n);
    TrimIs(d, 0, |d|);
    assert d[0..|d|] == d;
    DecimalRoundTrip(n);
  }

  /** What FinalizeHeaders finds in a canonical message. */
  ghost function Totals(m: Message): Tally {
    Tally(1, if m.framing.WithLength? then 1 else 0, if m.framing.WithLength? then |m.body| else 0,
          m.framing.InChunks?, Closes(m.headers), Expects(m.headers))
  }

  lemma FinalizeRead(o: Options, m: Message)
    requires Canonical(m) && |m.body| <= o.maxBody && |m.body| < SIZE_LIMIT
    ensures Finalize(o, AllRead(AllHeaders(m))) == Totals(m)
  {
    hide IsToken, Lowered, Trim, HasToken, Decimal, Ascii, CountAll, Closes, Expects, Hosts, UserHeader,
         CanonicalHeader, Lists,
         ParseDecimal;
    CountUser(m.headers);
    NamesApart();
    if !m.framing.Bare? {
      assert AllRead(AllHeaders(m)) == AllRead(m.headers) + [AsRead(m.framer)];
      CountAllLast(NONE, AllRead(m.headers), AsRead(m.framer));
      if m.framing.WithLength? {
        DigitsFacts(|m.body|);
      } else {
        HasTokenIff(Trim(m.framer.value), CHUNKED);
        TrimLists(m.framer.value, CHUNKED);
      }
    }
  }

  lemma HeadersCanonical(m: Message)
    requires Canonical(m)
    ensures forall i :: 0 <= i < |AllHeaders(m)| ==> CanonicalHeader(AllHeaders(m)[i])
  {
    hide CanonicalHeader, UserHeader, Hosts, CanonicalBody, Ascii, IsToken, OneLine;
    forall i | 0 <= i < |AllHeaders(m)| ensures CanonicalHeader(AllHeaders(m)[i]) {
      if i < |m.headers| {
        assert AllHeaders(m)[i] == m.headers[i];
        UserIsCanonical(m.headers[i]);
      }
    }
  }

  lemma UserIsCanonical(h: Header)
    requires UserHeader(h)
    ensures CanonicalHeader(h)
  {
    hide CanonicalHeader, Ascii, Lowered;
  }
}

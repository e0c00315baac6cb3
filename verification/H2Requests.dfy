/** Which decoded header lists are requests (section 8.3 of RFC 9113, as http2_stream.cpp reads it), and which
    requests they are, stated over the whole list. */
module H2Requests {
  import opened Bytes
  import opened Hpack
  import opened H2Inbound

  // ---- names, in octets ----

  function Method(): seq<Byte> { [58, 109, 101, 116, 104, 111, 100] } // :method
  function Path(): seq<Byte> { [58, 112, 97, 116, 104] } // :path
  function Authority(): seq<Byte> { [58, 97, 117, 116, 104, 111, 114, 105, 116, 121] } // :authority
  function Scheme(): seq<Byte> { [58, 115, 99, 104, 101, 109, 101] } // :scheme
  function Host(): seq<Byte> { [104, 111, 115, 116] } // host

  predicate Pseudo(e: Entry) {
    e.name != [] && e.name[0] == 58
  }

  predicate PseudoName(name: seq<Byte>) {
    name == Method() || name == Path() || name == Authority() || name == Scheme()
  }

  /** The names that may occur only once. */
  predicate Single(name: seq<Byte>) {
    name == Method() || name == Path()
  }

  predicate Lower(name: seq<Byte>) {
    forall i :: 0 <= i < |name| ==> !(65 <= name[i] <= 90)
  }

  /** A name is a known pseudo header, or starts with no colon and has no capital. */
  predicate GoodName(e: Entry) {
    e.name != [] && if Pseudo(e) then PseudoName(e.name) else Lower(e.name)
  }

  /** Pseudo headers first, method and path at most once. */
  predicate WellFormed(list: seq<Entry>) {
    && (forall i :: 0 <= i < |list| ==> GoodName(list[i]))
    && (forall i, j :: 0 <= i < j < |list| && Pseudo(list[j]) ==> Pseudo(list[i]))
    && (forall i, j :: 0 <= i < j < |list| && Single(list[j].name) ==> list[i].name != list[j].name)
  }

  /** The request's headers: the authority becomes Host, the other pseudo headers go. */
  function HeadersOf(list: seq<Entry>): seq<Entry> {
    if list == [] then []
    else
      var e := list[|list| - 1];
      HeadersOf(list[..|list| - 1]) +
      if e.name == Authority() then [Entry(Host(), e.value)] else if Pseudo(e) then [] else [e]
  }

  ghost predicate Has(list: seq<Entry>, name: seq<Byte>, value: seq<Byte>) {
    exists i :: 0 <= i < |list| && list[i] == Entry(name, value)
  }

  predicate Missing(list: seq<Entry>, name: seq<Byte>) {
    forall i :: 0 <= i < |list| ==> list[i].name != name
  }

  /** The methods served: GET, POST, PUT, DELETE, PATCH, HEAD and OPTIONS. */
  predicate Served(value: seq<Byte>) {
    || value == [71, 69, 84] || value == [80, 79, 83, 84] || value == [80, 85, 84]
    || value == [68, 69, 76, 69, 84, 69] || value == [80, 65, 84, 67, 72] || value == [72, 69, 65, 68]
    || value == [79, 80, 84, 73, 79, 78, 83]
  }

  /** A target is its path, or path and query around the first question mark. */
  predicate Divides(target: seq<Byte>, path: seq<Byte>, query: seq<Byte>) {
    && (forall i :: 0 <= i < |path| ==> path[i] != 63)
    && ((target == path && query == []) || target == path + [63] + query)
  }

  ghost predicate Stands(request: Request, id: nat, list: seq<Entry>) {
    && request.id == id && Has(list, Method(), request.methodText) && Has(list, Path(), request.target)
    && Divides(request.target, request.path, request.query) && request.headers == HeadersOf(list) && request.body == []
  }

  // ---- the loop over the list agrees ----

  /** What has been collected from the headers so far. */
  ghost predicate Collected(acc: Partial, done: seq<Entry>) {
    && (acc.regular <==> exists i :: 0 <= i < |done| && !Pseudo(done[i]))
    && (match acc.methodText case None => Missing(done, Method()) case Some(v) => Has(done, Method(), v))
    && (match acc.target case None => Missing(done, Path()) case Some(v) => Has(done, Path(), v))
    && acc.headers == HeadersOf(done)
  }

  lemma NamesSpelled()
    ensures METHOD == Method() && PATH == Path() && AUTHORITY == Authority() && SCHEME == Scheme() && HOST == Host()
  {
    hide Ascii;
    assert METHOD == Method() && PATH == Path();
    assert AUTHORITY == Authority();
    assert SCHEME == Scheme() && HOST == Host();
  }

  lemma NamesDiffer()
    ensures Method() != Path() && Method() != Authority() && Method() != Scheme()
    ensures Path() != Authority() && Path() != Scheme() && Authority() != Scheme()
    ensures forall e: Entry :: PseudoName(e.name) ==> Pseudo(e)
  {
    assert |Method()| == 7 && |Path()| == 5 && |Authority()| == 10 && |Scheme()| == 7;
    assert Method()[1] == 109 && Scheme()[1] == 115;
  }

  lemma MethodsSpelled(value: seq<Byte>)
    ensures value in METHODS <==> Served(value)
  {
    hide Ascii;
    assert Ascii("GET") == [71, 69, 84] && Ascii("POST") == [80, 79, 83, 84] && Ascii("PUT") == [80, 85, 84];
    assert Ascii("DELETE") == [68, 69, 76, 69, 84, 69] && Ascii("PATCH") == [80, 65, 84, 67, 72];
    assert Ascii("HEAD") == [72, 69, 65, 68] && Ascii("OPTIONS") == [79, 80, 84, 73, 79, 78, 83];
  }

  lemma LastOne(done: seq<Entry>, e: Entry)
    ensures var all := done + [e];
            && HeadersOf(all) == HeadersOf(done) +
               (if e.name == Authority() then [Entry(Host(), e.value)] else if Pseudo(e) then [] else [e])
            && (WellFormed(all) ==> WellFormed(done))
            && (forall name :: Missing(all, name) <==> Missing(done, name) && e.name != name)
            && (forall name, v :: Has(all, name, v) <==> Has(done, name, v) || e == Entry(name, v))
  {
    hide Method, Path, Authority, Scheme, Host, GoodName, Single, Pseudo;
    var all := done + [e];
    assert all[..|all| - 1] == done && all[|done|] == e && forall i :: 0 <= i < |done| ==> all[i] == done[i];
    forall name, v ensures Has(all, name, v) <==> Has(done, name, v) || e == Entry(name, v) {
    }
    forall name ensures Missing(all, name) <==> Missing(done, name) && e.name != name {
    }
    if WellFormed(all) {
      forall i, j | 0 <= i < j < |done|
        ensures (Pseudo(done[j]) ==> Pseudo(done[i])) && (Single(done[j].name) ==> done[i].name != done[j].name)
      {
        assert all[i] == done[i] && all[j] == done[j];
      }
    }
  }

  lemma OneMore(done: seq<Entry>, e: Entry)
    requires WellFormed(done)
    ensures WellFormed(done + [e]) <==>
            && GoodName(e) && (Pseudo(e) ==> forall i :: 0 <= i < |done| ==> Pseudo(done[i]))
            && (Single(e.name) ==> Missing(done, e.name))
  {
    hide GoodName, Single, Pseudo;
    var all := done + [e];
    assert all[|done|] == e && forall i :: 0 <= i < |done| ==> all[i] == done[i];
  }

  lemma UpperIff(name: seq<Byte>)
    ensures HasUpperCase(name) <==> !Lower(name)
  {
  }

  /** One header is taken exactly if it keeps the list well formed. */
  lemma TakenIff(acc: Partial, done: seq<Entry>, e: Entry)
    requires Collected(acc, done) && WellFormed(done)
    ensures AddHeader(acc, e).Some? <==> WellFormed(done + [e])
  {
    hide Method, Path, Authority, Scheme, Host, Has, HeadersOf, HasUpperCase, Lower, WellFormed, Ascii;
    NamesSpelled();
    NamesDiffer();
    OneMore(done, e);
    UpperIff(e.name);
    if acc.methodText.Some? {
      NotMissing(done, Method(), acc.methodText.value);
    }
    if acc.target.Some? {
      NotMissing(done, Path(), acc.target.value);
    }
  }

  lemma NotMissing(done: seq<Entry>, name: seq<Byte>, v: seq<Byte>)
    requires Has(done, name, v)
    ensures !Missing(done, name)
  {
  }

  lemma TakenCollects(acc: Partial, done: seq<Entry>, e: Entry)
    requires Collected(acc, done) && AddHeader(acc, e).Some?
    ensures Collected(AddHeader(acc, e).value, done + [e])
  {
    hide Method, Path, Authority, Scheme, Host, Has, HeadersOf, HasUpperCase, Lower, WellFormed, Ascii, Missing;
    NamesSpelled();
    NamesDiffer();
    LastOne(done, e);
    var all := done + [e];
    assert all[|done|] == e && forall i :: 0 <= i < |done| ==> all[i] == done[i];
    assert e == Entry(e.name, e.value);
    var next := AddHeader(acc, e).value;
    assert next.headers == HeadersOf(all) by {
      assert HeadersOf(done) + [] == HeadersOf(done);
    }
  }

  lemma {:induction false} ListTaken(acc: Partial, done: seq<Entry>, list: seq<Entry>)
    requires Collected(acc, done) && WellFormed(done)
    ensures AddHeaders(acc, list).Some? <==> WellFormed(done + list)
    ensures AddHeaders(acc, list).Some? ==> Collected(AddHeaders(acc, list).value, done + list)
    decreases |list|
  {
    hide AddHeader, Collected, WellFormed;
    if list == [] {
      assert done + list == done;
    } else {
      var more := done + [list[0]];
      assert more + list[1..] == done + list;
      TakenIff(acc, done, list[0]);
      if AddHeader(acc, list[0]).Some? {
        TakenCollects(acc, done, list[0]);
        ListTaken(AddHeader(acc, list[0]).value, more, list[1..]);
      } else {
        PrefixWellFormed(more, list[1..]);
      }
    }
  }

  lemma {:induction false} PrefixWellFormed(a: seq<Entry>, b: seq<Entry>)
    ensures WellFormed(a + b) ==> WellFormed(a)
    decreases |b|
  {
    hide WellFormed;
    if b == [] {
      assert a + b == a;
    } else {
      var front := b[..|b| - 1];
      PrefixWellFormed(a, front);
      LastOne(a + front, b[|b| - 1]);
      assert a + front + [b[|b| - 1]] == a + b;
    }
  }

  lemma DividesAt(target: seq<Byte>)
    ensures var q := FindByte(target, 63);
            Divides(target, target[..q], if q < |target| then target[q + 1..] else [])
  {
    hide FindByte, Divides;
    var q := FindByte(target, 63);
    if q < |target| {
      Cut(target, q);
      DividesIf(target, target[..q], target[q + 1..]);
    } else {
      assert target[..q] == target;
      DividesIf(target, target, []);
    }
  }

  lemma Cut(target: seq<Byte>, q: nat)
    requires q < |target| && target[q] == 63
    ensures target == target[..q] + [63] + target[q + 1..]
  {
  }

  lemma DividesIf(target: seq<Byte>, path: seq<Byte>, query: seq<Byte>)
    requires forall i :: 0 <= i < |path| ==> path[i] != 63
    requires (target == path && query == []) || target == path + [63] + query
    ensures Divides(target, path, query)
  {
  }

  /** The list has a method that is served, and a path. */
  ghost predicate Complete(list: seq<Entry>) {
    (exists v :: Served(v) && Has(list, Method(), v)) && !Missing(list, Path())
  }

  lemma CompleteIff(list: seq<Entry>, acc: Partial)
    requires WellFormed(list) && Collected(acc, list)
    ensures Complete(list) <==> acc.methodText.Some? && acc.target.Some? && Served(acc.methodText.value)
  {
    hide WellFormed, Method, Path, HeadersOf, Served, Has, Missing;
    if acc.target.Some? {
      NotMissing(list, Path(), acc.target.value);
    }
    if acc.methodText.Some? {
      forall v | Has(list, Method(), v) ensures v == acc.methodText.value {
        OnlyMethod(list, v, acc.methodText.value);
      }
    } else {
      forall v | Has(list, Method(), v) ensures false {
        NotMissing(list, Method(), v);
      }
    }
  }

  /** A list that is not well formed is an error of the connection; one without a served method and a path is
      closed; any other is the request it stands for. */
  lemma AssembleIff(id: nat, list: seq<Entry>)
    ensures var r := Assemble(id, list);
            && (r.Malformed? <==> !WellFormed(list))
            && (r.Usable? <==> WellFormed(list) && Complete(list))
            && (r.Usable? ==> Stands(r.request, id, list) && Served(r.request.methodText))
  {
    hide AddHeaders, WellFormed, Complete, Served, Stands, FindByte, METHODS;
    var none := Partial(None, None, [], false);
    NothingCollected();
    ListTaken(none, [], list);
    assert [] + list == list;
    var r := AddHeaders(none, list);
    if r.Some? {
      CompleteIff(list, r.value);
      if r.value.methodText.Some? {
        MethodsSpelled(r.value.methodText.value);
        if r.value.target.Some? {
          Stood(id, list, r.value);
        }
      }
    }
  }

  lemma Stood(id: nat, list: seq<Entry>, acc: Partial)
    requires Collected(acc, list) && acc.methodText.Some? && acc.target.Some?
    ensures var target := acc.target.value;
            var q := FindByte(target, 63);
            var query := if q < |target| then target[q + 1..] else [];
            Stands(Request(id, acc.methodText.value, target, target[..q], query, acc.headers, []), id, list)
  {
    hide Has, Missing, HeadersOf, Divides, FindByte, Method, Path, Pseudo;
    DividesAt(acc.target.value);
  }

  lemma NothingCollected()
    ensures Collected(Partial(None, None, [], false), []) && WellFormed([])
  {
  }

  lemma OnlyMethod(list: seq<Entry>, a: seq<Byte>, b: seq<Byte>)
    requires WellFormed(list) && Has(list, Method(), a) && Has(list, Method(), b)
    ensures a == b
  {
    hide GoodName, Method, Path;
  }
}

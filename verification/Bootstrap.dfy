/** Choosing the protocol of a connection: preface_protocol_bootstrap.cpp. A session is known only by the
    result it answers to each sequence of pieces it has been fed. */
module Bootstrap {
  import opened Bytes
  import opened Protocol
  import opened H2Inbound

  /** The preface looked for and the answers of the two sessions that may be created. */
  datatype Sessions = Sessions(
    preface: seq<Byte>, onMatch: seq<seq<Byte>> -> FeedResult, onFallback: seq<seq<Byte>> -> FeedResult)

  /** The octets held back, the session chosen (true for the matching one), and what it was fed. */
  datatype Boot = Boot(pending: seq<Byte>, chosen: Option<bool>, fed: seq<seq<Byte>>)

  const START := Boot([], None, [])

  function Answers(x: Sessions, match_: bool, fed: seq<seq<Byte>>): FeedResult {
    if match_ then x.onMatch(fed) else x.onFallback(fed)
  }

  /** SelectAndFeed: the octets held back first; the rest of the piece only if the session is still ready. */
  function Select(x: Sessions, match_: bool, held: seq<Byte>, rest: seq<Byte>): (Boot, FeedResult) {
    var first := Answers(x, match_, [held]);
    if first.status != Ready || rest == [] then (Boot([], Some(match_), [held]), first)
    else
      var second := Answers(x, match_, [held, rest]);
      (Boot([], Some(match_), [held, rest]),
       FeedResult(second.status, first.dispatched + second.dispatched, second.buffered))
  }

  predicate Waiting(x: Sessions, b: Boot) {
    b.chosen.None? ==> |b.pending| < |x.preface|
  }

  function FeedBoot(x: Sessions, b: Boot, bytes: seq<Byte>): (Boot, FeedResult)
    requires Waiting(x, b)
    decreases |bytes|
  {
    if b.chosen.Some? then
      var fed := b.fed + [bytes];
      (b.(fed := fed), Answers(x, b.chosen.value, fed))
    else if bytes == [] then (b, FeedResult(Ready, 0, |b.pending|))
    else
      var held := b.pending + [bytes[0]];
      if bytes[0] != x.preface[|b.pending|] then Select(x, false, held, bytes[1..])
      else if |held| == |x.preface| then Select(x, true, held, bytes[1..])
      else FeedBoot(x, b.(pending := held), bytes[1..])
  }

  /** `stream` is everything received so far. Until a choice is made the octets are held back and may
      still become the preface; then the matching session was chosen exactly if the stream starts with
      the preface, and the session got the octets in order, all of them unless it stopped at once. */
  ghost predicate BootInv(x: Sessions, b: Boot, stream: seq<Byte>) {
    match b.chosen
    case None => stream == b.pending && |stream| < |x.preface| && stream <= x.preface && b.fed == []
    case Some(match_) =>
      && (match_ <==> x.preface <= stream) && !(|stream| < |x.preface| && stream <= x.preface)
      && b.fed != [] && b.fed[0] <= stream && (Answers(x, match_, b.fed[..1]).status == Ready ==> Flatten(b.fed) == stream)
  }

  lemma SelectKeeps(x: Sessions, match_: bool, held: seq<Byte>, rest: seq<Byte>)
    requires held != [] && |held| <= |x.preface| && held[..|held| - 1] <= x.preface
    requires if match_ then held == x.preface else held[|held| - 1] != x.preface[|held| - 1]
    ensures BootInv(x, Select(x, match_, held, rest).0, held + rest)
  {
    FlattenSingle(held);
    assert [held, rest] == [held] + [rest];
    FlattenSingle(rest);
    FlattenAppend([held], [rest]);
    assert (held + rest)[|held| - 1] == held[|held| - 1];
    assert [held, rest][..1] == [held] && [held][..1] == [held];
    if rest == [] {
      assert held + rest == held;
    }
  }

  lemma {:induction false} FeedBootKeeps(x: Sessions, b: Boot, stream: seq<Byte>, bytes: seq<Byte>)
    requires BootInv(x, b, stream)
    ensures BootInv(x, FeedBoot(x, b, bytes).0, stream + bytes)
    decreases |bytes|
  {
    if b.chosen.Some? {
      FlattenAppend(b.fed, [bytes]);
      FlattenSingle(bytes);
      assert (b.fed + [bytes])[..1] == b.fed[..1];
      assert x.preface <= stream ==> x.preface <= stream + bytes;
      if !(x.preface <= stream) {
        Diverges(x.preface, stream, bytes);
      }
    } else if bytes == [] {
      assert stream + bytes == stream;
    } else {
      var held := b.pending + [bytes[0]];
      assert held[..|held| - 1] == b.pending;
      assert stream + bytes == held + bytes[1..];
      if bytes[0] != x.preface[|b.pending|] {
        SelectKeeps(x, false, held, bytes[1..]);
      } else if |held| == |x.preface| {
        SelectKeeps(x, true, held, bytes[1..]);
      } else {
        FeedBootKeeps(x, b.(pending := held), held, bytes[1..]);
      }
    }
  }

  /** A session just chosen is given the octets held back, and the others of the piece only if there are any and it is
      still ready. */
  predicate HandsOver(x: Sessions, match_: bool, stream: seq<Byte>, fed: seq<seq<Byte>>) {
    && fed != [] && fed[0] <= stream
    && var rest := stream[|fed[0]|..];
       fed == if rest != [] && Answers(x, match_, [fed[0]]).status == Ready then [fed[0], rest] else [fed[0]]
  }

  /** What a feed reports: status and held octets of the session as it then is; without one, the octets held back
      here. */
  lemma {:induction false} FeedTells(x: Sessions, b: Boot, bytes: seq<Byte>)
    requires Waiting(x, b)
    ensures var (n, r) := FeedBoot(x, b, bytes);
            match n.chosen
            case None => b.chosen.None? && r == FeedResult(Ready, 0, |n.pending|) && n == b.(pending := b.pending + bytes)
            case Some(match_) =>
              && r.status == Answers(x, match_, n.fed).status && r.buffered == Answers(x, match_, n.fed).buffered
              && if b.chosen.Some? then n == b.(fed := b.fed + [bytes]) && r == Answers(x, match_, n.fed)
                 else n.pending == [] && HandsOver(x, match_, b.pending + bytes, n.fed)
    decreases |bytes|
  {
    if b.chosen.None? && bytes == [] {
      assert b.pending + bytes == b.pending;
    } else if b.chosen.None? {
      var held := b.pending + [bytes[0]];
      var stream := b.pending + bytes;
      assert held <= stream && stream[|held|..] == bytes[1..] && held + bytes[1..] == stream;
      if bytes[0] == x.preface[|b.pending|] && |held| < |x.preface| {
        FeedTells(x, b.(pending := held), bytes[1..]);
      }
    }
  }

  /** A stream that differs from the preface goes on differing. */
  lemma Diverges(preface: seq<Byte>, stream: seq<Byte>, more: seq<Byte>)
    requires !(preface <= stream) && !(|stream| < |preface| && stream <= preface)
    ensures !(preface <= stream + more) && !(stream + more <= preface)
  {
    if |stream| < |preface| {
      var i :| 0 <= i < |stream| && stream[i] != preface[i];
      assert (stream + more)[i] == stream[i];
    } else {
      var i :| 0 <= i < |preface| && stream[i] != preface[i];
      assert (stream + more)[i] == stream[i];
    }
  }

  ghost function Run(x: Sessions, pieces: seq<seq<Byte>>): (b: Boot)
    requires x.preface != []
    ensures BootInv(x, b, Flatten(pieces))
    decreases |pieces|
  {
    if pieces == [] then START
    else
      var last := pieces[|pieces| - 1];
      var before := Run(x, pieces[..|pieces| - 1]);
      FeedBootKeeps(x, before, Flatten(pieces[..|pieces| - 1]), last);
      FlattenLast(pieces);
      FeedBoot(x, before, last).0
  }

  lemma FlattenLast<T>(pieces: seq<seq<T>>)
    requires pieces != []
    ensures Flatten(pieces) == Flatten(pieces[..|pieces| - 1]) + pieces[|pieces| - 1]
  {
    var n := |pieces| - 1;
    assert pieces == pieces[..n] + [pieces[n]];
    FlattenAppend(pieces[..n], [pieces[n]]);
    FlattenSingle(pieces[n]);
  }

  /** For every stream and every way of cutting it: a session is chosen exactly when the stream is no
      longer a proper prefix of the preface, the matching one exactly when it starts with the preface;
      and while the session answers Ready it has been given exactly the stream. */
  lemma ChoosesByPreface(x: Sessions, pieces: seq<seq<Byte>>)
    requires x.preface != []
    ensures var b := Run(x, pieces);
            var stream := Flatten(pieces);
            && (b.chosen == Some(true) <==> x.preface <= stream)
            && (b.chosen == None <==> |stream| < |x.preface| && stream <= x.preface)
            && (b.chosen == None ==> b.pending == stream)
            && (b.chosen.Some? && Answers(x, b.chosen.value, b.fed[..1]).status == Ready ==> Flatten(b.fed) == stream)
  {
  }

  // ---- dispatch counts ----

  /** All that a bootstrap reported as dispatched. */
  ghost function Reported(x: Sessions, pieces: seq<seq<Byte>>): nat
    requires x.preface != []
    decreases |pieces|
  {
    if pieces == [] then 0
    else
      var last := |pieces| - 1;
      Reported(x, pieces[..last]) + FeedBoot(x, Run(x, pieces[..last]), pieces[last]).1.dispatched
  }

  /** All that a session reported as dispatched while it was fed piece after piece. */
  function Told(answers: seq<seq<Byte>> -> FeedResult, fed: seq<seq<Byte>>): nat
    decreases |fed|
  {
    if fed == [] then 0 else Told(answers, fed[..|fed| - 1]) + answers(fed).dispatched
  }

  /** What the chosen session reported; nothing is fed before a choice. */
  function ToldBy(x: Sessions, b: Boot): nat {
    if b.chosen.None? then 0 else Told(if b.chosen.value then x.onMatch else x.onFallback, b.fed)
  }

  lemma ToldNext(answers: seq<seq<Byte>> -> FeedResult, fed: seq<seq<Byte>>, bytes: seq<Byte>)
    ensures Told(answers, fed + [bytes]) == Told(answers, fed) + answers(fed + [bytes]).dispatched
  {
    assert (fed + [bytes])[..|fed|] == fed;
  }

  /** One piece at the bootstrap reports what the session's new pieces dispatched. */
  lemma {:induction false} FeedReports(x: Sessions, b: Boot, bytes: seq<Byte>)
    requires Waiting(x, b) && (b.chosen.None? ==> b.fed == [])
    ensures var r := FeedBoot(x, b, bytes);
            ToldBy(x, r.0) == ToldBy(x, b) + r.1.dispatched && (r.0.chosen.None? ==> r.0.fed == [])
    decreases |bytes|
  {
    hide Told;
    if b.chosen.Some? {
      ToldNext(if b.chosen.value then x.onMatch else x.onFallback, b.fed, bytes);
    } else if bytes != [] {
      var held := b.pending + [bytes[0]];
      var matches := bytes[0] == x.preface[|b.pending|];
      if matches && |held| < |x.preface| {
        FeedReports(x, b.(pending := held), bytes[1..]);
      } else {
        var answers := if matches then x.onMatch else x.onFallback;
        ToldNext(answers, [], held);
        ToldNext(answers, [held], bytes[1..]);
        assert Told(answers, []) == 0 by { ToldNothing(answers); }
        assert [] + [held] == [held] && [held] + [bytes[1..]] == [held, bytes[1..]];
      }
    }
  }

  lemma ToldNothing(answers: seq<seq<Byte>> -> FeedResult)
    ensures Told(answers, []) == 0
  {
  }

  /** Whatever the sessions are and whatever arrives, the dispatch counts reported add up to those of the
      session chosen, over all it was fed: none is counted twice or lost at the hand-over. */
  lemma {:induction false} CountsAddUp(x: Sessions, pieces: seq<seq<Byte>>)
    requires x.preface != []
    ensures Reported(x, pieces) == ToldBy(x, Run(x, pieces))
    decreases |pieces|
  {
    hide FeedBoot, Told;
    if pieces != [] {
      var last := |pieces| - 1;
      CountsAddUp(x, pieces[..last]);
      FeedReports(x, Run(x, pieces[..last]), pieces[last]);
    }
  }

  // ---- the HTTP/2 session behind the bootstrap ----

  /** A session fed one piece after another, whatever it answers. */
  ghost function FeedEvery(s: Session, env: Env, fed: seq<seq<Byte>>): Drained
    decreases |fed|
  {
    if fed == [] then Drained(s, [], Ready, [])
    else
      var before := FeedEvery(s, env, fed[..|fed| - 1]);
      var r := H2Inbound.Feed(before.s, env, before.buffer, fed[|fed| - 1]);
      r.(events := before.events + r.events)
  }

  /** Its answer to the last of them. */
  ghost function H2Answer(s: Session, env: Env, fed: seq<seq<Byte>>): FeedResult {
    if fed == [] then FeedResult(Ready, 0, 0)
    else
      var before := FeedEvery(s, env, fed[..|fed| - 1]);
      Result(H2Inbound.Feed(before.s, env, before.buffer, fed[|fed| - 1]))
  }

  ghost function H2Answers(s: Session, env: Env): seq<seq<Byte>> -> FeedResult {
    fed => H2Answer(s, env, fed)
  }

  lemma OneMore(s: Session, env: Env, fed: seq<seq<Byte>>, bytes: seq<Byte>)
    ensures AcceptedIn(FeedEvery(s, env, fed + [bytes]).events) ==
            AcceptedIn(FeedEvery(s, env, fed).events) + H2Answer(s, env, fed + [bytes]).dispatched
  {
    hide H2Inbound.Feed, AcceptedIn;
    var all := fed + [bytes];
    assert all[..|all| - 1] == fed;
    var before := FeedEvery(s, env, fed);
    AcceptedAppend(before.events, H2Inbound.Feed(before.s, env, before.buffer, bytes).events);
  }

  /** An HTTP/2 session reports as dispatched the requests its executor accepted. */
  lemma {:induction false} H2Told(s: Session, env: Env, fed: seq<seq<Byte>>)
    ensures Told(H2Answers(s, env), fed) == AcceptedIn(FeedEvery(s, env, fed).events)
    decreases |fed|
  {
    hide H2Inbound.Feed;
    if fed != [] {
      var last := |fed| - 1;
      H2Told(s, env, fed[..last]);
      OneMore(s, env, fed[..last], fed[last]);
      assert fed[..last] + [fed[last]] == fed;
    }
  }

  lemma Short(pieces: seq<seq<Byte>>)
    requires pieces != []
    ensures |pieces[..1]| == 1 && pieces[..1] == [pieces[0]]
  {
  }

  /** The preface alone never stops an HTTP/2 session whose buffer can hold it. */
  lemma PrefaceIsReady(s: Session, env: Env)
    requires s.state == ExpectPreface && s.config.maxBuffer >= 24
    ensures H2Answer(s, env, [Preface()]).status == Ready
  {
    hide Preface;
    var p := Preface();
    assert [] + p == p;
    var pieces := [p];
    assert pieces[..0] == [];
    assert PrefaceTurn(s, p, p) == Go(s.(state := Connected), |p|, [SentSettings]) by {
      assert p[..|p|] == p;
    }
    assert p[|p|..] == [];
    assert TurnOf(s, env, p) == Go(s.(state := Connected), |p|, [SentSettings]);
    assert Drain(s, env, p).status == Ready;
  }

  /** An HTTP/2 client's stream, cut in any way, reaches a fresh HTTP/2 session whole, and the session
      does what one parse of the whole stream does. */
  lemma BootstrappedH2(x: Sessions, s: Session, env: Env, pieces: seq<seq<Byte>>)
    requires x.preface == Preface() && x.onMatch == H2Answers(s, env)
    requires s.state == ExpectPreface && s.config.maxBuffer >= 24
    requires Preface() <= Flatten(pieces)
    requires NeverOverflows(s, env, [], Run(x, pieces).fed)
    ensures var fed := Run(x, pieces).fed;
            var got := FeedAll(s, env, [], fed);
            var whole := Drain(s, env, Flatten(pieces));
            && Run(x, pieces).chosen == Some(true) && Flatten(fed) == Flatten(pieces)
            && got.events == whole.events && got.status == whole.status && got.s == whole.s
  {
    hide Run, FeedAll, Drain, NeverOverflows, Preface;
    var b := Run(x, pieces);
    ChoosesByPreface(x, pieces);
    HeldIsPreface(x, pieces);
    Short(b.fed);
    PrefaceIsReady(s, env);
    assert Drain(s, env, []) == Drained(s, [], Ready, []) by {
      EmptyDrain(s, env);
    }
    FeedAllIsDrain(s, env, [], b.fed);
    assert [] + Flatten(b.fed) == Flatten(b.fed);
  }

  lemma EmptyDrain(s: Session, env: Env)
    ensures Drain(s, env, []) == Drained(s, [], Ready, [])
  {
  }

  /** The first thing the matching session is fed is the preface itself. */
  lemma {:induction false} HeldIsPreface(x: Sessions, pieces: seq<seq<Byte>>)
    requires x.preface != []
    ensures var b := Run(x, pieces); b.chosen == Some(true) ==> b.fed != [] && b.fed[0] == x.preface
    decreases |pieces|
  {
    if pieces != [] {
      HeldIsPreface(x, pieces[..|pieces| - 1]);
      var before := Run(x, pieces[..|pieces| - 1]);
      HeldKept(x, before, Flatten(pieces[..|pieces| - 1]), pieces[|pieces| - 1]);
    }
  }

  lemma {:induction false} HeldKept(x: Sessions, b: Boot, stream: seq<Byte>, bytes: seq<Byte>)
    requires BootInv(x, b, stream) && (b.chosen == Some(true) ==> b.fed[0] == x.preface)
    ensures var r := FeedBoot(x, b, bytes).0; r.chosen == Some(true) ==> r.fed != [] && r.fed[0] == x.preface
    decreases |bytes|
  {
    if b.chosen.None? && bytes != [] {
      var held := b.pending + [bytes[0]];
      if bytes[0] == x.preface[|b.pending|] && |held| < |x.preface| {
        HeldKept(x, b.(pending := held), held, bytes[1..]);
      }
    }
  }

  // ---- the object ----

  class PrefaceProtocolBootstrap {
    const sessions: Sessions
    var pending: seq<Byte>
    var selected: Option<bool>
    var fed: seq<seq<Byte>>

    ghost predicate Valid()
      reads this
    {
      Waiting(sessions, Model())
    }

    ghost function Model(): Boot
      reads this
    {
      Boot(pending, selected, fed)
    }

    constructor (sessions: Sessions)
      requires sessions.preface != []
      ensures Valid() && Model() == START && this.sessions == sessions
    {
      this.sessions := sessions;
      pending, selected, fed := [], None, [];
    }

    method FeedSession(bytes: seq<Byte>) returns (result: FeedResult)
      requires selected.Some?
      modifies this`fed
      ensures fed == old(fed) + [bytes] && result == Answers(sessions, selected.value, fed)
    {
      fed := fed + [bytes];
      result := Answers(sessions, selected.value, fed);
    }

    method SelectAndFeed(match_: bool, remaining: seq<Byte>) returns (result: FeedResult)
      requires fed == []
      modifies this
      ensures Valid() && (Model(), result) == Select(sessions, match_, old(pending), remaining)
    {
      selected := Some(match_);
      result := FeedSession(pending);
      assert fed == [old(pending)];
      pending := [];
      if result.status != Ready || remaining == [] {
        return;
      }
      var tail := FeedSession(remaining);
      result := FeedResult(tail.status, result.dispatched + tail.dispatched, tail.buffered);
      assert fed == [old(pending), remaining];
    }

    method Feed(bytes: seq<Byte>) returns (result: FeedResult)
      requires Valid() && (selected.None? ==> fed == [])
      modifies this
      ensures Valid() && (Model(), result) == FeedBoot(sessions, old(Model()), bytes)
    {
      if selected.Some? {
        result := FeedSession(bytes);
        return;
      }
      var offset := 0;
      while offset < |bytes|
        invariant 0 <= offset <= |bytes| && selected.None? && fed == [] && Valid()
        invariant FeedBoot(sessions, old(Model()), bytes) == FeedBoot(sessions, Model(), bytes[offset..])
      {
        var value := bytes[offset];
        assert bytes[offset..][1..] == bytes[offset + 1..];
        offset := offset + 1;
        var at := |pending|;
        pending := pending + [value];
        if value != sessions.preface[at] {
          result := SelectAndFeed(false, bytes[offset..]);
          return;
        }
        if |pending| == |sessions.preface| {
          result := SelectAndFeed(true, bytes[offset..]);
          return;
        }
      }
      result := FeedResult(Ready, 0, |pending|);
    }
  }
}

/** The bootstrap as http_server.cpp builds it: an HTTP/2 session if the preface matches, an HTTP/1.1 session
    otherwise. */
module BootstrapServer {
  import opened Bytes
  import opened Protocol
  import opened Bootstrap
  import H2 = H2Inbound
  import H1 = HttpSession
  import P = HttpParser

  // ---- the HTTP/1.1 session behind the bootstrap ----

  predicate Usable(config: H1.Config) {
    config.maxBuffer < SIZE_LIMIT / 2
  }

  /** A fresh session fed one piece after another, whatever it answers. */
  ghost function Fed(config: H1.Config, env: H1.Env, pieces: seq<seq<Byte>>): (r: H1.Drained)
    requires Usable(config)
    ensures r.s.config == config && (!r.s.stopped ==> H1.Ok(r.s, r.buffer))
  {
    H1.FeedAll(H1.Fresh(config), env, [], pieces)
  }

  /** Its answer to the last of them. */
  ghost function Http1Answer(config: H1.Config, env: H1.Env, fed: seq<seq<Byte>>): FeedResult {
    if fed == [] || !Usable(config) then FeedResult(Ready, 0, 0)
    else
      var before := Fed(config, env, fed[..|fed| - 1]);
      H1.Result(H1.Feed(before.s, env, before.buffer, fed[|fed| - 1]))
  }

  ghost function Http1Answers(config: H1.Config, env: H1.Env): seq<seq<Byte>> -> FeedResult {
    fed => Http1Answer(config, env, fed)
  }

  /** One piece more at the end. */
  lemma {:induction false} FeedLast(s: H1.Session, env: H1.Env, buffer: seq<Byte>, pieces: seq<seq<Byte>>, bytes: seq<Byte>)
    requires (H1.Ok(s, buffer) || s.stopped) && s.config.maxBuffer < SIZE_LIMIT / 2
    ensures var before := H1.FeedAll(s, env, buffer, pieces);
            var last := H1.Feed(before.s, env, before.buffer, bytes);
            var all := H1.FeedAll(s, env, buffer, pieces + [bytes]);
            all.s == last.s && all.buffer == last.buffer && all.events == before.events + last.events
    decreases |pieces|
  {
    hide H1.Feed;
    if pieces == [] {
      assert pieces + [bytes] == [bytes];
      var last := H1.Feed(s, env, buffer, bytes);
      assert last.events + [] == last.events == [] + last.events;
    } else {
      var first := H1.Feed(s, env, buffer, pieces[0]);
      assert (pieces + [bytes])[1..] == pieces[1..] + [bytes] && (pieces + [bytes])[0] == pieces[0];
      FeedLast(first.s, env, first.buffer, pieces[1..], bytes);
      var before := H1.FeedAll(first.s, env, first.buffer, pieces[1..]);
      Assoc(first.events, before.events, H1.Feed(before.s, env, before.buffer, bytes).events);
    }
  }

  lemma {:induction false} AcceptedAppend(a: seq<H1.Event>, b: seq<H1.Event>)
    ensures H1.AcceptedIn(a + b) == H1.AcceptedIn(a) + H1.AcceptedIn(b)
    decreases |b|
  {
    if b == [] {
      assert a + b == a;
    } else {
      assert (a + b)[..|a + b| - 1] == a + b[..|b| - 1];
      AcceptedAppend(a, b[..|b| - 1]);
    }
  }

  /** An HTTP/1.1 session reports as dispatched the requests its executor accepted. */
  lemma {:induction false} Http1Told(config: H1.Config, env: H1.Env, fed: seq<seq<Byte>>)
    requires Usable(config)
    ensures Told(Http1Answers(config, env), fed) == H1.AcceptedIn(Fed(config, env, fed).events)
    decreases |fed|
  {
    hide H1.Feed;
    if fed != [] {
      var n := |fed| - 1;
      Http1Told(config, env, fed[..n]);
      FeedLast(H1.Fresh(config), env, [], fed[..n], fed[n]);
      assert fed[..n] + [fed[n]] == fed;
      var before := Fed(config, env, fed[..n]);
      AcceptedAppend(before.events, H1.Feed(before.s, env, before.buffer, fed[n]).events);
    }
  }

  /** A stream that is not HTTP/2's, cut in any way, makes the HTTP/1.1 session do what draining the whole
      stream does, although the octets held back come first and the rest only while it is Ready. */
  lemma BootstrappedHttp1(x: Sessions, config: H1.Config, env: H1.Env, pieces: seq<seq<Byte>>)
    requires x.preface != [] && x.onFallback == Http1Answers(config, env) && Usable(config)
    requires var stream := Flatten(pieces); !(x.preface <= stream) && !(|stream| < |x.preface| && stream <= x.preface)
    requires P.Addressable(Flatten(pieces)) && H1.ShortTrailers(H1.Fresh(config), env, Flatten(pieces))
    requires H1.NeverOverflows(H1.Fresh(config), env, [], Run(x, pieces).fed)
    ensures var got := Fed(config, env, Run(x, pieces).fed);
            var whole := H1.Drain(H1.Fresh(config), env, Flatten(pieces));
            && Run(x, pieces).chosen == Some(false)
            && got.events == whole.events && got.s == whole.s && (!whole.s.stopped ==> got.buffer == whole.buffer)
  {
    hide Run, H1.Drain, H1.NeverOverflows, H1.ShortTrailers, H1.TurnOf;
    var b := Run(x, pieces);
    var stream := Flatten(pieces);
    ChoosesByPreface(x, pieces);
    assert BootInv(x, b, stream);
    var start := H1.Fresh(config);
    H1.FreshSettled(start, env);
    if Answers(x, false, b.fed[..1]).status == Ready {
      assert [] + stream == stream;
      H1.FeedAllIsDrain(start, env, [], b.fed);
    } else {
      FirstStops(config, env, b.fed, stream);
    }
  }

  /** A session that stops on the first piece has done all it will do of the stream. */
  lemma FirstStops(config: H1.Config, env: H1.Env, fed: seq<seq<Byte>>, stream: seq<Byte>)
    requires Usable(config) && fed != [] && fed[0] <= stream && Http1Answer(config, env, fed[..1]).status != Ready
    requires P.Addressable(stream) && H1.ShortTrailers(H1.Fresh(config), env, stream)
    requires H1.NeverOverflows(H1.Fresh(config), env, [], fed)
    ensures var got := Fed(config, env, fed);
            var whole := H1.Drain(H1.Fresh(config), env, stream);
            got.events == whole.events && got.s == whole.s && whole.s.stopped
  {
    hide H1.Drain, H1.ShortTrailers, H1.TurnOf;
    var start := H1.Fresh(config);
    var first := H1.Feed(start, env, [], fed[0]);
    assert fed[..1][..0] == [] && fed[..1][0] == fed[0];
    assert [] + fed[0] == fed[0];
    assert fed[0] + stream[|fed[0]|..] == stream;
    H1.DrainResumes(start, env, fed[0], stream[|fed[0]|..]);
    H1.StoppedForGood(first.s, env, first.buffer, fed[1..]);
    assert first.events + [] == first.events;
  }

  // ---- both ----

  /** The two sessions, whatever the preface looked for. */
  ghost predicate Serving(x: Sessions, s: H2.Session, e2: H2.Env, config: H1.Config, e1: H1.Env) {
    x.preface != [] && x.onMatch == H2Answers(s, e2) && x.onFallback == Http1Answers(config, e1) && Usable(config)
  }

  /** The requests accepted by the executor from the session that was chosen, if any was. */
  ghost function Taken(s: H2.Session, e2: H2.Env, config: H1.Config, e1: H1.Env, b: Boot): nat
    requires Usable(config)
  {
    match b.chosen
    case None => 0
    case Some(true) => H2.AcceptedIn(FeedEvery(s, e2, b.fed).events)
    case Some(false) => H1.AcceptedIn(Fed(config, e1, b.fed).events)
  }

  /** Whatever a client sends, in whatever pieces, the dispatch counts that the server is told add up to the
      requests accepted by the executor, of the protocol that was chosen. */
  lemma ServerCountsAddUp(x: Sessions, s: H2.Session, e2: H2.Env, config: H1.Config, e1: H1.Env, pieces: seq<seq<Byte>>)
    requires Serving(x, s, e2, config, e1)
    ensures Reported(x, pieces) == Taken(s, e2, config, e1, Run(x, pieces))
  {
    hide Run, Reported, Told, H2Answers, Http1Answers, FeedEvery, Fed;
    var b := Run(x, pieces);
    CountsAddUp(x, pieces);
    H2Told(s, e2, b.fed);
    Http1Told(config, e1, b.fed);
  }
}

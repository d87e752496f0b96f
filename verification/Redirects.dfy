/** How one fetch follows redirects, detects loops and retries once after "429 Too Many Requests". */
module Redirects {
  datatype Url = Url(id: int)

  const TOO_MANY_REQUESTS := 429

  type RedirectCode = c: int | c in {301, 302, 303, 307, 308} witness 301

  datatype Reply = Redirect(code: RedirectCode, target: Url) | Final(status: int) | Broken

  /** The answer to the n-th request of the fetch, by address; sites may change between requests. */
  type Web = (nat, Url) -> Reply

  datatype Hop = Hop(index: nat, code: int, source: Url, target: Url)

  datatype Verdict = Follow | UseLastResponse | Refuse

  datatype Outcome = Response(at: Url, status: int) | Failed

  // ---------- The fetch as a value ----------

  datatype Trail = Trail(hops: seq<Hop>, loop: bool, exceeded: bool, seen: set<Url>)

  datatype Options = Options(maxHops: int, permitted: Url -> bool)

  function Begin(url: Url): Trail {
    Trail([], false, false, {url})
  }

  /** The redirect hook of the HTTP client. */
  function Checked(t: Trail, o: Options, source: Url, target: Url, code: int): (Trail, Verdict) {
    var t1 := t.(hops := t.hops + [Hop(|t.hops|, code, source, target)]);
    if target in t.seen then (t1.(loop := true), UseLastResponse)
    else
      var t2 := t1.(seen := t1.seen + {target});
      if |t2.hops| >= o.maxHops then (t2.(exceeded := true), UseLastResponse)
      else if !o.permitted(target) then (t2, Refuse)
      else (t2, Follow)
  }

  function HopLimit(o: Options): nat {
    if o.maxHops < 1 then 1 else o.maxHops
  }

  /** What the HTTP client does with a request: it follows redirects as long as the hook lets it. */
  function Sent(web: Web, o: Options, n: nat, t: Trail, url: Url): (r: (Trail, Outcome, nat))
    requires |t.hops| < HopLimit(o)
    ensures t.hops <= r.0.hops && |r.0.hops| <= HopLimit(o)
    ensures r.1.Response? && r.1.status == TOO_MANY_REQUESTS ==> |r.0.hops| < HopLimit(o)
    decreases HopLimit(o) - |t.hops|
  {
    match web(n, url)
    case Broken => (t, Failed, n + 1)
    case Final(status) => (t, Response(url, status), n + 1)
    case Redirect(code, target) =>
      var (t', verdict) := Checked(t, o, url, target, code);
      match verdict
      case UseLastResponse => (t', Response(url, code), n + 1)
      case Refuse => (t', Failed, n + 1)
      case Follow => Sent(web, o, n + 1, t', target)
  }

  /** A whole fetch: a second attempt, with the same trail, follows a first one that met a 429. */
  function Done(web: Web, o: Options, url: Url, cancelled: bool): (r: (Trail, Outcome))
    ensures |r.0.hops| <= HopLimit(o)
  {
    var (t, first, n) := Sent(web, o, 0, Begin(url), url);
    if !(first.Response? && first.status == TOO_MANY_REQUESTS) then (t, first)
    else if cancelled then (t, Failed)
    else
      var (t', second, _) := Sent(web, o, n, t, url);
      (t', second)
  }

  // ---------- One attempt ----------

  /** The addresses visited: the requested one and every redirect target after it. */
  function Route(url: Url, hops: seq<Hop>): (r: seq<Url>)
    ensures |r| == |hops| + 1
  {
    [url] + seq(|hops|, i requires 0 <= i < |hops| => hops[i].target)
  }

  ghost predicate Distinct(s: seq<Url>) {
    forall i, j :: 0 <= i < j < |s| ==> s[i] != s[j]
  }

  /** The hops are numbered from 0 and each starts where the one before it led. */
  ghost predicate Chained(url: Url, hops: seq<Hop>) {
    forall i :: 0 <= i < |hops| ==> hops[i].index == i && hops[i].source == Route(url, hops)[i]
  }

  /** A trail on its way: nothing raised, and `seen` is the route so far, all of it different. */
  ghost predicate Clean(t: Trail, start: Url) {
    && !t.loop && !t.exceeded && Chained(start, t.hops) && Distinct(Route(start, t.hops))
    && forall u :: u in t.seen <==> u in Route(start, t.hops)
  }

  /** A trail at the end of one attempt. */
  ghost predicate Finished(t: Trail, start: Url, o: Options) {
    var route := Route(start, t.hops);
    && Chained(start, t.hops)
    && Distinct(route[..|route| - 1])
    && (t.loop <==> route[|route| - 1] in route[..|route| - 1])
    && (t.exceeded <==> t.hops != [] && !t.loop && |t.hops| >= o.maxHops)
  }

  lemma RouteSnoc(url: Url, hops: seq<Hop>, hop: Hop)
    ensures Route(url, hops + [hop]) == Route(url, hops) + [hop.target]
  {
  }

  lemma CheckKeeps(t: Trail, o: Options, start: Url, source: Url, target: Url, code: int)
    requires Clean(t, start) && |t.hops| < HopLimit(o) && source == Route(start, t.hops)[|t.hops|]
    ensures var (t', verdict) := Checked(t, o, source, target, code);
            && (verdict == Follow ==>
                Clean(t', start) && |t'.hops| < HopLimit(o) && Route(start, t'.hops)[|t'.hops|] == target)
            && (verdict != Follow ==> Finished(t', start, o))
  {
    var (t', verdict) := Checked(t, o, source, target, code);
    var hop := Hop(|t.hops|, code, source, target);
    RouteSnoc(start, t.hops, hop);
    var route, route' := Route(start, t.hops), Route(start, t'.hops);
    assert route' == route + [target] && route'[..|route'| - 1] == route;
    forall i | 0 <= i < |t'.hops| ensures t'.hops[i].index == i && t'.hops[i].source == route'[i] {
      if i < |t.hops| {
        assert t'.hops[i] == t.hops[i] && route'[i] == route[i];
      }
    }
  }

  lemma {:induction false} AttemptFinishes(web: Web, o: Options, n: nat, t: Trail, start: Url, url: Url)
    requires Clean(t, start) && |t.hops| < HopLimit(o) && url == Route(start, t.hops)[|t.hops|]
    requires t.hops == [] || |t.hops| < o.maxHops
    ensures Finished(Sent(web, o, n, t, url).0, start, o)
    decreases HopLimit(o) - |t.hops|
  {
    match web(n, url) {
      case Redirect(code, target) =>
        CheckKeeps(t, o, start, url, target, code);
        var (t', verdict) := Checked(t, o, url, target, code);
        if verdict == Follow {
          AttemptFinishes(web, o, n + 1, t', start, target);
        }
      case _ =>
        var route := Route(start, t.hops);
        assert route[|route| - 1] !in route[..|route| - 1];
    }
  }

  /** A fetch that meets no 429 records a connected chain of numbered hops over different addresses;
      it reports a loop exactly when the last target is an earlier address of the chain, and too many
      hops exactly when the chain reached the limit without one. */
  lemma PlainFetch(web: Web, o: Options, url: Url, cancelled: bool)
    requires var first := Sent(web, o, 0, Begin(url), url).1; !(first.Response? && first.status == TOO_MANY_REQUESTS)
    ensures Finished(Done(web, o, url, cancelled).0, url, o)
  {
    assert Route(url, []) == [url];
    AttemptFinishes(web, o, 0, Begin(url), url, url);
  }

  // ---------- The retry ----------

  /** `u` was asked for, or some recorded hop leads to it. */
  ghost predicate Familiar(url: Url, hops: seq<Hop>, u: Url) {
    u == url || exists h :: h in hops && h.target == u
  }

  ghost predicate SeenIsFamiliar(url: Url, t: Trail) {
    forall u :: u in t.seen <==> Familiar(url, t.hops, u)
  }

  lemma CheckRemembers(t: Trail, o: Options, start: Url, source: Url, target: Url, code: int)
    requires SeenIsFamiliar(start, t)
    ensures SeenIsFamiliar(start, Checked(t, o, source, target, code).0)
  {
    var t' := Checked(t, o, source, target, code).0;
    var hop := Hop(|t.hops|, code, source, target);
    assert t'.hops == t.hops + [hop] && hop in t'.hops;
    forall u ensures u in t'.seen <==> Familiar(start, t'.hops, u) {
      if u != start && Familiar(start, t.hops, u) {
        var h :| h in t.hops && h.target == u;
        assert h in t'.hops;
      }
    }
  }

  lemma {:induction false} SentRemembers(web: Web, o: Options, n: nat, t: Trail, start: Url, url: Url)
    requires |t.hops| < HopLimit(o) && SeenIsFamiliar(start, t)
    ensures SeenIsFamiliar(start, Sent(web, o, n, t, url).0)
    decreases HopLimit(o) - |t.hops|
  {
    match web(n, url) {
      case Redirect(code, target) =>
        CheckRemembers(t, o, start, url, target, code);
        var (t', verdict) := Checked(t, o, url, target, code);
        if verdict == Follow {
          SentRemembers(web, o, n + 1, t', start, target);
        }
      case _ =>
    }
  }

  /** The first attempt met a 429, and the retry's first request is redirected. */
  ghost predicate RetryRedirected(web: Web, o: Options, url: Url) {
    var (_, first, n) := Sent(web, o, 0, Begin(url), url);
    first.Response? && first.status == TOO_MANY_REQUESTS && web(n, url).Redirect?
  }

  /** The retry keeps the addresses that the first attempt has seen. So when the requested address
      redirects the retry to any address of the first attempt's trail, above all to the one it
      redirected to before, the fetch stops there, with the redirect itself as its response, and
      reports a loop. */
  lemma RetryStopsAtFamiliarRedirect(web: Web, o: Options, url: Url)
    requires RetryRedirected(web, o, url)
    requires var (t, _, n) := Sent(web, o, 0, Begin(url), url); Familiar(url, t.hops, web(n, url).target)
    ensures var (t, _, n) := Sent(web, o, 0, Begin(url), url);
            var (t', outcome) := Done(web, o, url, false);
            && t'.loop && outcome == Response(url, web(n, url).code)
            && t'.hops == t.hops + [Hop(|t.hops|, web(n, url).code, url, web(n, url).target)]
  {
    SentRemembers(web, o, 0, Begin(url), url, url);
  }

  /** The flag says of the last hop whether its target was asked for or met before. */
  ghost predicate FlagIsExact(url: Url, t: Trail) {
    t.loop <==> t.hops != [] && Familiar(url, t.hops[..|t.hops| - 1], t.hops[|t.hops| - 1].target)
  }

  lemma CheckFlags(t: Trail, o: Options, start: Url, source: Url, target: Url, code: int)
    requires SeenIsFamiliar(start, t) && !t.loop
    ensures FlagIsExact(start, Checked(t, o, source, target, code).0)
  {
    var t' := Checked(t, o, source, target, code).0;
    assert t'.hops[..|t'.hops| - 1] == t.hops;
  }

  lemma {:induction false} SentFlags(web: Web, o: Options, n: nat, t: Trail, start: Url, url: Url)
    requires |t.hops| < HopLimit(o) && SeenIsFamiliar(start, t) && FlagIsExact(start, t) && !t.loop
    ensures FlagIsExact(start, Sent(web, o, n, t, url).0)
    decreases HopLimit(o) - |t.hops|
  {
    match web(n, url) {
      case Redirect(code, target) =>
        CheckRemembers(t, o, start, url, target, code);
        CheckFlags(t, o, start, url, target, code);
        var (t', verdict) := Checked(t, o, url, target, code);
        if verdict == Follow {
          SentFlags(web, o, n + 1, t', start, target);
        }
      case _ =>
    }
  }

  /** On every web, with or without a retry: a fetch reports a loop exactly when the target of its last hop
      was asked for or is the target of an earlier hop, of whichever attempt. */
  lemma LoopReportedExactly(web: Web, o: Options, url: Url, cancelled: bool)
    ensures FlagIsExact(url, Done(web, o, url, cancelled).0)
  {
    SentRemembers(web, o, 0, Begin(url), url, url);
    SentFlags(web, o, 0, Begin(url), url, url);
    var (t, first, n) := Sent(web, o, 0, Begin(url), url);
    if first.Response? && first.status == TOO_MANY_REQUESTS && !cancelled {
      NoFlagsBefore429(web, o, 0, Begin(url), url);
      SentFlags(web, o, n, t, url, url);
    }
  }

  /** The first attempt was answered with "429 Too Many Requests". */
  predicate Retried(web: Web, o: Options, url: Url) {
    var first := Sent(web, o, 0, Begin(url), url).1;
    first.Response? && first.status == 429
  }

  /** The hops that the retry adds. */
  function RetryHops(web: Web, o: Options, url: Url): seq<Hop> {
    var (t, _, n) := Sent(web, o, 0, Begin(url), url);
    var all := Done(web, o, url, false).0.hops;
    if |t.hops| <= |all| then all[|t.hops|..] else []
  }

  predicate Targets(hops: seq<Hop>, u: Url) {
    exists h :: h in hops && h.target == u
  }

  /** The retry's own route returns to where it has been. */
  predicate OwnLoop(url: Url, hops: seq<Hop>) {
    hops != [] && hops[|hops| - 1].target in Route(url, hops)[..|hops|]
  }

  lemma {:induction false} RouteTargets(url: Url, hops: seq<Hop>, u: Url)
    ensures u in Route(url, hops) <==> Familiar(url, hops, u)
  {
    if u in Route(url, hops) {
      var i :| 0 <= i < |Route(url, hops)| && Route(url, hops)[i] == u;
      assert i == 0 || (hops[i - 1] in hops && hops[i - 1].target == u);
    }
    if Familiar(url, hops, u) && u != url {
      var h :| h in hops && h.target == u;
      var i :| 0 <= i < |hops| && hops[i] == h;
      assert Route(url, hops)[i + 1] == u;
    }
  }

  /** After a retry the report is a false alarm, no loop of the route that the retry itself took, exactly
      when the retry was last redirected to an address that its own route had not met and the first
      attempt had been redirected to. */
  lemma FalseAlarmExactly(web: Web, o: Options, url: Url)
    requires Retried(web, o, url)
    ensures var own := RetryHops(web, o, url);
            Done(web, o, url, false).0.loop && !OwnLoop(url, own) <==>
              && own != [] && !OwnLoop(url, own)
              && Targets(Sent(web, o, 0, Begin(url), url).0.hops, own[|own| - 1].target)
  {
    var (t, first, n) := Sent(web, o, 0, Begin(url), url);
    var all := Done(web, o, url, false).0.hops;
    var own := RetryHops(web, o, url);
    assert all == t.hops + own;
    LoopReportedExactly(web, o, url, false);
    NoFlagsBefore429(web, o, 0, Begin(url), url);
    SentFlags(web, o, 0, Begin(url), url, url);
    if own == [] {
      assert all == t.hops;
    } else {
      LoopOverBoth(url, t.hops, own);
    }
  }

  /** Every site that redirects its start page, answers 429 at the target and is then asked again raises a
      false alarm: both attempts run start, target, and the second one is said to loop. */
  lemma RedirectThenLimited(web: Web, o: Options, start: Url, target: Url, code: RedirectCode)
    requires start != target && o.maxHops > 1 && o.permitted(target)
    requires web(0, start) == web(2, start) == Redirect(code, target) && web(1, target) == Final(TOO_MANY_REQUESTS)
    ensures Retried(web, o, start) && Done(web, o, start, false).0.loop
    ensures RetryHops(web, o, start) == [Hop(1, code, start, target)] && !OwnLoop(start, RetryHops(web, o, start))
  {
    var hop, again := Hop(0, code, start, target), Hop(1, code, start, target);
    var t := Trail([hop], false, false, {start, target});
    assert [] + [hop] == [hop] && {start} + {target} == {start, target};
    assert Sent(web, o, 1, t, target) == (t, Response(target, TOO_MANY_REQUESTS), 2);
    assert Sent(web, o, 0, Begin(start), start) == (t, Response(target, TOO_MANY_REQUESTS), 2);
    assert [hop] + [again] == [hop, again] && [hop, again][1..] == [again];
    assert Sent(web, o, 2, t, start).0 == t.(hops := [hop, again], loop := true);
    assert Route(start, [again]) == [start, target];
  }

  // Address 0 leads to address 1, which answers 429 once.
  lemma FalseAlarmWitness() returns (web: Web, o: Options, start: Url)
    ensures Retried(web, o, start) && Done(web, o, start, false).0.loop
    ensures !OwnLoop(start, RetryHops(web, o, start))
  {
    start := Url(0);
    o := Options(10, _ => true);
    web := (n: nat, u: Url) =>
      if u == Url(0) then Redirect(301, Url(1)) else if n == 1 then Final(TOO_MANY_REQUESTS) else Final(200);
    RedirectThenLimited(web, o, start, Url(1), 301);
  }

  lemma LoopOverBoth(url: Url, first: seq<Hop>, own: seq<Hop>)
    requires own != []
    ensures var all := first + own;
            Familiar(url, all[..|all| - 1], all[|all| - 1].target) <==>
              Targets(first, own[|own| - 1].target) || OwnLoop(url, own)
  {
    var all, last, before := first + own, own[|own| - 1].target, own[..|own| - 1];
    assert all[..|all| - 1] == first + before && all[|all| - 1] == own[|own| - 1];
    assert Route(url, own)[..|own|] == Route(url, before);
    RouteTargets(url, before, last);
    FamiliarInEither(url, first, before, last);
  }

  lemma FamiliarInEither(url: Url, a: seq<Hop>, b: seq<Hop>, u: Url)
    ensures Familiar(url, a + b, u) <==> Targets(a, u) || Familiar(url, b, u)
  {
    if Targets(a, u) {
      var h :| h in a && h.target == u;
      assert h in a + b;
    }
    if Familiar(url, b, u) && u != url {
      var h :| h in b && h.target == u;
      assert h in a + b;
    }
  }

  lemma {:induction false} NoFlagsBefore429(web: Web, o: Options, n: nat, t: Trail, url: Url)
    requires |t.hops| < HopLimit(o) && !t.loop
    requires var out := Sent(web, o, n, t, url).1; out.Response? && out.status == TOO_MANY_REQUESTS
    ensures !Sent(web, o, n, t, url).0.loop
    decreases HopLimit(o) - |t.hops|
  {
    match web(n, url) {
      case Redirect(code, target) =>
        var (t', verdict) := Checked(t, o, url, target, code);
        if verdict == Follow {
          NoFlagsBefore429(web, o, n + 1, t', target);
        }
      case _ =>
    }
  }

  // ---------- What is asked for and what is answered ----------

  /** The addresses that an attempt asks for, in their order. */
  function Asks(web: Web, o: Options, n: nat, t: Trail, url: Url): (asks: seq<Url>)
    requires |t.hops| < HopLimit(o)
    ensures |asks| > 0 && asks[0] == url
    decreases HopLimit(o) - |t.hops|
  {
    match web(n, url)
    case Redirect(code, target) =>
      var (t', verdict) := Checked(t, o, url, target, code);
      if verdict == Follow then [url] + Asks(web, o, n + 1, t', target) else [url]
    case _ => [url]
  }

  /** Every address that an attempt asks for behind its first one is permitted. */
  lemma {:induction false} AsksArePermitted(web: Web, o: Options, n: nat, t: Trail, url: Url)
    requires |t.hops| < HopLimit(o)
    ensures forall i :: 0 < i < |Asks(web, o, n, t, url)| ==> o.permitted(Asks(web, o, n, t, url)[i])
    decreases HopLimit(o) - |t.hops|
  {
    match web(n, url) {
      case Redirect(code, target) =>
        var (t', verdict) := Checked(t, o, url, target, code);
        if verdict == Follow {
          AsksArePermitted(web, o, n + 1, t', target);
          var asks, rest := Asks(web, o, n, t, url), Asks(web, o, n + 1, t', target);
          forall i | 0 < i < |asks| ensures o.permitted(asks[i]) {
            assert asks[i] == rest[i - 1];
          }
        }
      case _ =>
    }
  }

  /** The answer to the last request of an attempt. */
  function LastAnswer(web: Web, o: Options, n: nat, t: Trail, url: Url): Reply
    requires |t.hops| < HopLimit(o)
    decreases HopLimit(o) - |t.hops|
  {
    match web(n, url)
    case Redirect(code, target) =>
      var (t', verdict) := Checked(t, o, url, target, code);
      if verdict == Follow then LastAnswer(web, o, n + 1, t', target) else web(n, url)
    case reply => reply
  }

  predicate Follows(web: Web, o: Options, n: nat, t: Trail, url: Url) {
    web(n, url).Redirect? && Checked(t, o, url, web(n, url).target, web(n, url).code).1 == Follow
  }

  function After(web: Web, o: Options, n: nat, t: Trail, url: Url): Trail
    requires web(n, url).Redirect?
  {
    Checked(t, o, url, web(n, url).target, web(n, url).code).0
  }

  lemma FollowsOn(web: Web, o: Options, n: nat, t: Trail, url: Url)
    requires |t.hops| < HopLimit(o) && Follows(web, o, n, t, url)
    ensures var target, t' := web(n, url).target, After(web, o, n, t, url);
            && t'.hops == t.hops + [Hop(|t.hops|, web(n, url).code, url, target)]
            && |t'.hops| < HopLimit(o) && Sent(web, o, n, t, url) == Sent(web, o, n + 1, t', target)
            && Asks(web, o, n, t, url) == [url] + Asks(web, o, n + 1, t', target)
            && LastAnswer(web, o, n, t, url) == LastAnswer(web, o, n + 1, t', target)
  {
  }

  lemma StopsHere(web: Web, o: Options, n: nat, t: Trail, url: Url)
    requires |t.hops| < HopLimit(o) && !Follows(web, o, n, t, url)
    ensures Asks(web, o, n, t, url) == [url] && LastAnswer(web, o, n, t, url) == web(n, url)
    ensures Sent(web, o, n, t, url).2 == n + 1
  {
  }

  lemma {:induction false} LastAnswerIsLast(web: Web, o: Options, n: nat, t: Trail, url: Url)
    requires |t.hops| < HopLimit(o)
    ensures var asks, next := Asks(web, o, n, t, url), Sent(web, o, n, t, url).2;
            next == n + |asks| && LastAnswer(web, o, n, t, url) == web(next - 1, asks[|asks| - 1])
    decreases HopLimit(o) - |t.hops|
  {
    if Follows(web, o, n, t, url) {
      FollowsOn(web, o, n, t, url);
      LastAnswerIsLast(web, o, n + 1, After(web, o, n, t, url), web(n, url).target);
    } else {
      StopsHere(web, o, n, t, url);
    }
  }

  /** The outcome is what the last address answers: its status, or the status of a redirect that is not
      followed, or a failure when it does not answer or its redirect is refused. */
  predicate IsAnswerOf(reply: Reply, at: Url, outcome: Outcome) {
    match reply
    case Broken => outcome == Failed
    case Final(status) => outcome == Response(at, status)
    case Redirect(code, _) => outcome == Response(at, code) || outcome == Failed
  }

  lemma {:induction false} AttemptAnswers(web: Web, o: Options, n: nat, t: Trail, url: Url)
    requires |t.hops| < HopLimit(o)
    ensures var asks := Asks(web, o, n, t, url);
            IsAnswerOf(LastAnswer(web, o, n, t, url), asks[|asks| - 1], Sent(web, o, n, t, url).1)
    decreases HopLimit(o) - |t.hops|
  {
    if Follows(web, o, n, t, url) {
      FollowsOn(web, o, n, t, url);
      AttemptAnswers(web, o, n + 1, After(web, o, n, t, url), web(n, url).target);
    }
  }

  /** The k-th hop records the k-th answer, a redirect, and leads to the next address asked for, if any. */
  ghost predicate Recorded(web: Web, n: nat, asks: seq<Url>, hops: seq<Hop>, base: nat, k: nat)
    requires base <= k < |hops|
  {
    var i := k - base;
    i < |asks| && web(n + i, asks[i]).Redirect?
    && hops[k] == Hop(k, web(n + i, asks[i]).code, asks[i], web(n + i, asks[i]).target)
    && (i + 1 < |asks| ==> asks[i + 1] == hops[k].target)
  }

  lemma RecordedLater(web: Web, n: nat, url: Url, rest: seq<Url>, hops: seq<Hop>, base: nat, k: nat)
    requires base < k < |hops| && Recorded(web, n + 1, rest, hops, base + 1, k)
    ensures Recorded(web, n, [url] + rest, hops, base, k)
  {
    var i := k - base;
    assert ([url] + rest)[i] == rest[i - 1] && n + i == n + 1 + (k - (base + 1));
  }

  /** An attempt records exactly the redirects that it is answered with: all its answers are redirects but
      perhaps the last. */
  lemma {:induction false} AttemptRecords(web: Web, o: Options, n: nat, t: Trail, url: Url)
    requires |t.hops| < HopLimit(o)
    ensures var asks, hops := Asks(web, o, n, t, url), Sent(web, o, n, t, url).0.hops;
            && |hops| - |t.hops| == |asks| - (if LastAnswer(web, o, n, t, url).Redirect? then 0 else 1)
            && forall k: nat :: |t.hops| <= k < |hops| ==> Recorded(web, n, asks, hops, |t.hops|, k)
    decreases HopLimit(o) - |t.hops|
  {
    if Follows(web, o, n, t, url) {
      FollowsOn(web, o, n, t, url);
      var target, t' := web(n, url).target, After(web, o, n, t, url);
      AttemptRecords(web, o, n + 1, t', target);
      var rest, hops := Asks(web, o, n + 1, t', target), Sent(web, o, n + 1, t', target).0.hops;
      RecordedFirst(web, n, url, rest, t.hops, hops);
      forall k: nat | |t.hops| < k < |hops| ensures Recorded(web, n, [url] + rest, hops, |t.hops|, k) {
        RecordedLater(web, n, url, rest, hops, |t.hops|, k);
      }
    } else {
      StopsHere(web, o, n, t, url);
    }
  }

  lemma RecordedFirst(web: Web, n: nat, url: Url, rest: seq<Url>, before: seq<Hop>, hops: seq<Hop>)
    requires rest != [] && web(n, url).Redirect? && rest[0] == web(n, url).target
    requires before + [Hop(|before|, web(n, url).code, url, web(n, url).target)] <= hops
    ensures Recorded(web, n, [url] + rest, hops, |before|, |before|)
  {
    var first := before + [Hop(|before|, web(n, url).code, url, web(n, url).target)];
    assert hops[|before|] == first[|before|];
  }

  /** All addresses that a fetch asks for. */
  function AllAsked(web: Web, o: Options, url: Url, cancelled: bool): (asked: seq<Url>)
    ensures |asked| > 0
  {
    var (t, _, n) := Sent(web, o, 0, Begin(url), url);
    Asks(web, o, 0, Begin(url), url)
    + if Retried(web, o, url) && !cancelled then Asks(web, o, n, t, url) else []
  }

  /** On every web, retried or not: a fetch asks for no address but the one it was given and permitted ones,
      and answers from no other. */
  lemma OnlyPermittedAsked(web: Web, o: Options, url: Url, cancelled: bool)
    ensures forall u :: u in AllAsked(web, o, url, cancelled) ==> u == url || o.permitted(u)
    ensures var outcome := Done(web, o, url, cancelled).1;
            outcome.Response? ==> outcome.at == url || o.permitted(outcome.at)
  {
    var (t, _, n) := Sent(web, o, 0, Begin(url), url);
    AsksArePermitted(web, o, 0, Begin(url), url);
    AttemptAnswers(web, o, 0, Begin(url), url);
    if Retried(web, o, url) && !cancelled {
      AsksArePermitted(web, o, n, t, url);
      AttemptAnswers(web, o, n, t, url);
    }
  }

  /** The last redirect leads to a new address, below the hop limit, that is not permitted. */
  ghost predicate Refused(o: Options, url: Url, hops: seq<Hop>) {
    hops != [] &&
    var before, target := hops[..|hops| - 1], hops[|hops| - 1].target;
    !Familiar(url, before, target) && |hops| < o.maxHops && !o.permitted(target)
  }

  predicate LastFollowed(o: Options, hops: seq<Hop>) {
    hops != [] ==> o.permitted(hops[|hops| - 1].target)
  }

  lemma CheckRefuses(t: Trail, o: Options, start: Url, source: Url, target: Url, code: int)
    requires SeenIsFamiliar(start, t)
    ensures var (t', verdict) := Checked(t, o, source, target, code);
            && (verdict == Refuse <==> Refused(o, start, t'.hops))
            && (verdict == Follow ==> LastFollowed(o, t'.hops))
  {
    var t' := Checked(t, o, source, target, code).0;
    assert t'.hops[..|t'.hops| - 1] == t.hops;
  }

  /** Failing means that the last address did not answer or its redirect was refused. */
  ghost predicate FailsRightly(o: Options, start: Url, last: Reply, hops: seq<Hop>, outcome: Outcome) {
    outcome.Failed? <==> last.Broken? || Refused(o, start, hops)
  }

  lemma FollowedIsNotRefused(o: Options, start: Url, hops: seq<Hop>)
    requires LastFollowed(o, hops)
    ensures !Refused(o, start, hops)
  {
  }

  lemma {:induction false} AttemptFails(web: Web, o: Options, n: nat, t: Trail, start: Url, url: Url)
    requires |t.hops| < HopLimit(o) && SeenIsFamiliar(start, t) && LastFollowed(o, t.hops)
    ensures var (t', outcome, _) := Sent(web, o, n, t, url);
            FailsRightly(o, start, LastAnswer(web, o, n, t, url), t'.hops, outcome)
    decreases HopLimit(o) - |t.hops|
  {
    if web(n, url).Redirect? {
      CheckRemembers(t, o, start, url, web(n, url).target, web(n, url).code);
      CheckRefuses(t, o, start, url, web(n, url).target, web(n, url).code);
      if Follows(web, o, n, t, url) {
        FollowsOn(web, o, n, t, url);
        AttemptFails(web, o, n + 1, After(web, o, n, t, url), start, web(n, url).target);
      }
    } else {
      FollowedIsNotRefused(o, start, t.hops);
    }
  }

  lemma {:induction false} FollowedBefore429(web: Web, o: Options, n: nat, t: Trail, url: Url)
    requires |t.hops| < HopLimit(o) && LastFollowed(o, t.hops)
    requires var out := Sent(web, o, n, t, url).1; out.Response? && out.status == TOO_MANY_REQUESTS
    ensures LastFollowed(o, Sent(web, o, n, t, url).0.hops)
    decreases HopLimit(o) - |t.hops|
  {
    match web(n, url) {
      case Redirect(code, target) =>
        var (t', verdict) := Checked(t, o, url, target, code);
        if verdict == Follow {
          FollowedBefore429(web, o, n + 1, t', target);
        }
      case _ =>
    }
  }

  /** The last answer of a fetch. */
  function LastReply(web: Web, o: Options, url: Url, cancelled: bool): Reply {
    var (t, _, n) := Sent(web, o, 0, Begin(url), url);
    if Retried(web, o, url) && !cancelled then LastAnswer(web, o, n, t, url) else LastAnswer(web, o, 0, Begin(url), url)
  }

  lemma PlainOutcome(web: Web, o: Options, url: Url, cancelled: bool)
    requires !Retried(web, o, url) || cancelled
    ensures var asked := AllAsked(web, o, url, cancelled); var (t, outcome, _) := Sent(web, o, 0, Begin(url), url);
            && FailsRightly(o, url, LastReply(web, o, url, cancelled), t.hops, outcome)
            && IsAnswerOf(LastReply(web, o, url, cancelled), asked[|asked| - 1], outcome)
  {
    AttemptAnswers(web, o, 0, Begin(url), url);
    AttemptFails(web, o, 0, Begin(url), url, url);
  }

  lemma RetriedOutcome(web: Web, o: Options, url: Url)
    requires Retried(web, o, url)
    ensures var asked := AllAsked(web, o, url, false); var (t, outcome) := Done(web, o, url, false);
            && FailsRightly(o, url, LastReply(web, o, url, false), t.hops, outcome)
            && IsAnswerOf(LastReply(web, o, url, false), asked[|asked| - 1], outcome)
  {
    var (t, _, n) := Sent(web, o, 0, Begin(url), url);
    SentRemembers(web, o, 0, Begin(url), url, url);
    FollowedBefore429(web, o, 0, Begin(url), url);
    AttemptAnswers(web, o, 0, Begin(url), url);
    AttemptAnswers(web, o, n, t, url);
    AttemptFails(web, o, n, t, url, url);
  }

  lemma LastReplyIsLast(web: Web, o: Options, url: Url, cancelled: bool)
    ensures var asked := AllAsked(web, o, url, cancelled);
            LastReply(web, o, url, cancelled) == web(|asked| - 1, asked[|asked| - 1])
  {
    var (t, _, n) := Sent(web, o, 0, Begin(url), url);
    LastAnswerIsLast(web, o, 0, Begin(url), url);
    if Retried(web, o, url) && !cancelled {
      LastAnswerIsLast(web, o, n, t, url);
    }
  }

  /** On every web: a fetch reports the answer of the last address it asked for, unless it is cancelled while
      it waits to retry; and it fails exactly when it is cancelled then, that address does not answer, or
      its redirect is refused. */
  lemma OutcomeExactly(web: Web, o: Options, url: Url, cancelled: bool)
    ensures var asked := AllAsked(web, o, url, cancelled); var (t, outcome) := Done(web, o, url, cancelled);
            var last := |asked| - 1;
            if Retried(web, o, url) && cancelled then outcome == Failed
            else
              && IsAnswerOf(web(last, asked[last]), asked[last], outcome)
              && (outcome.Failed? <==> web(last, asked[last]).Broken? || Refused(o, url, t.hops))
  {
    LastReplyIsLast(web, o, url, cancelled);
    if !Retried(web, o, url) {
      PlainOutcome(web, o, url, cancelled);
    } else if !cancelled {
      RetriedOutcome(web, o, url);
    }
  }

  // A page leads to a forbidden address, so the fetch fails without asking for it.
  lemma ForbiddenRedirect(web: Web, o: Options, url: Url, target: Url, code: RedirectCode, cancelled: bool)
    requires o.maxHops > 1 && target != url && !o.permitted(target) && web(0, url) == Redirect(code, target)
    ensures Done(web, o, url, cancelled).1 == Failed && AllAsked(web, o, url, cancelled) == [url]
  {
  }

  /** What has been asked for and what is still to come are what there was and what was to come. */
  predicate StillAsks(asked: seq<Url>, asks: seq<Url>, asked0: seq<Url>, asks0: seq<Url>) {
    asked + asks == asked0 + asks0
  }

  lemma AskedOne(asked: seq<Url>, url: Url, asks: seq<Url>, asked0: seq<Url>, asks0: seq<Url>)
    requires StillAsks(asked, [url] + asks, asked0, asks0)
    ensures StillAsks(asked + [url], asks, asked0, asks0)
  {
    assert asked + ([url] + asks) == asked + [url] + asks;
  }

  // ---------- The code ----------

  class FetchResult {
    var hops: seq<Hop>
    var loop: bool
    var exceeded: bool
    var seen: set<Url>
    /** What has been asked for so far. */
    ghost var asked: seq<Url>

    ghost function Value(): Trail
      reads this
    {
      Trail(hops, loop, exceeded, seen)
    }

    constructor (url: Url)
      ensures Value() == Begin(url) && asked == []
    {
      hops, loop, exceeded, seen, asked := [], false, false, {url}, [];
    }

    method CheckRedirect(o: Options, source: Url, target: Url, code: int) returns (verdict: Verdict)
      modifies `hops, `loop, `exceeded, `seen
      ensures (Value(), verdict) == Checked(old(Value()), o, source, target, code)
    {
      hops := hops + [Hop(|hops|, code, source, target)];
      if target in seen {
        loop := true;
        return UseLastResponse;
      }
      seen := seen + {target};
      if |hops| >= o.maxHops {
        exceeded := true;
        return UseLastResponse;
      }
      if !o.permitted(target) {
        return Refuse;
      }
      return Follow;
    }

    /** The client's request loop around the hook. */
    method Send(web: Web, o: Options, n0: nat, start: Url) returns (outcome: Outcome, n: nat)
      requires |hops| < HopLimit(o)
      modifies this
      ensures (Value(), outcome, n) == Sent(web, o, n0, old(Value()), start)
      ensures asked == old(asked) + Asks(web, o, n0, old(Value()), start)
    {
      var url := start;
      n := n0;
      while true
        invariant |hops| < HopLimit(o)
        invariant Sent(web, o, n, Value(), url) == Sent(web, o, n0, old(Value()), start)
        invariant StillAsks(asked, Asks(web, o, n, Value(), url), old(asked), Asks(web, o, n0, old(Value()), start))
        decreases HopLimit(o) - |hops|
      {
        var reply := web(n, url);
        ghost var t := Value();
        if Follows(web, o, n, t, url) {
          FollowsOn(web, o, n, t, url);
          AskedOne(asked, url, Asks(web, o, n + 1, After(web, o, n, t, url), web(n, url).target),
              old(asked), Asks(web, o, n0, old(Value()), start));
        } else {
          StopsHere(web, o, n, t, url);
          AskedOne(asked, url, [], old(asked), Asks(web, o, n0, old(Value()), start));
        }
        asked := asked + [url];
        n := n + 1;
        match reply {
          case Broken => return Failed, n;
          case Final(status) => return Response(url, status), n;
          case Redirect(code, target) =>
            var verdict := CheckRedirect(o, url, target, code);
            match verdict {
              case UseLastResponse => return Response(url, code), n;
              case Refuse => return Failed, n;
              case Follow => url := target;
            }
        }
      }
    }
  }

  /** The two attempts. */
  method Attempts(web: Web, o: Options, url: Url, cancelled: bool) returns (result: FetchResult, outcome: Outcome)
    ensures fresh(result) && (result.Value(), outcome) == Done(web, o, url, cancelled)
    ensures |result.hops| <= HopLimit(o) && result.asked == AllAsked(web, o, url, cancelled)
  {
    result := new FetchResult(url);
    var n;
    outcome, n := result.Send(web, o, 0, url);
    if outcome.Response? && outcome.status == TOO_MANY_REQUESTS {
      if cancelled {
        return result, Failed;
      }
      outcome, n := result.Send(web, o, n, url);
    }
  }

  /** A whole fetch. An address that is not permitted is not asked for, and no result is given. */
  method Do(web: Web, o: Options, url: Url, cancelled: bool) returns (result: FetchResult?, outcome: Outcome)
    ensures if !o.permitted(url) then result == null && outcome == Failed
            else
              && result != null && fresh(result) && (result.Value(), outcome) == Done(web, o, url, cancelled)
              && |result.hops| <= HopLimit(o) && result.asked == AllAsked(web, o, url, cancelled)
              && forall u :: u in result.asked ==> o.permitted(u)
  {
    if !o.permitted(url) {
      return null, Failed;
    }
    OnlyPermittedAsked(web, o, url, cancelled);
    result, outcome := Attempts(web, o, url, cancelled);
  }
}

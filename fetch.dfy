/**
  The fetch layer of the notifier: one shared HTTP session whose header set
  grows as pages are fetched, a warm-up request made at most once per
  session, the rewrite of the desktop host to the mobile host, and the
  bounded retry loop that classifies each response.

  The network is a parameter: `net(u)(k)` is what the `k`-th attempt (counted
  from 1) to GET `u` yields. `urlparse` is a parameter too: `parse(u)` gives
  the scheme and network location of `u`.
*/
module Fetch {
  import opened Wrappers
  import opened Text

  /** The two parts of `urlparse(url)` the program reads. */
  datatype UrlParts = UrlParts(scheme: string, netloc: string)

  /** What one `SESSION.get(url)` yields: a `requests.RequestException`, or a
      response with its status code and decoded text. */
  datatype Outcome = NetworkError | Response(status: int, text: string)

  /** Where the retry loop stops: the text it returns (`None` on failure),
      the last status code it received and the number of requests made. */
  datatype Fetched = Fetched(body: Option<string>, lastStatus: Option<int>, attempts: nat)

  const DesktopHost := "www.hibrain.net"
  const DesktopMarker := "://www."
  const MobileMarker := "://m."

  /** The default of `fetch_page`'s `max_retries`. */
  const DefaultMaxRetries := 3

  const DefaultUserAgent :=
    "Mozilla/5.0 (Windows NT 10.0; Win64; x64) " +
    "AppleWebKit/537.36 (KHTML, like Gecko) " +
    "Chrome/120.0.0.0 Safari/537.36"

  /** The headers the session starts with. */
  function BaseHeaders(): map<string, string> {
    map[
      "Accept" := "text/html,application/xhtml+xml,application/xml;q=0.9,*/*;q=0.8",
      "Accept-Language" := "ko-KR,ko;q=0.9,en-US;q=0.8,en;q=0.7",
      "Connection" := "keep-alive"
    ]
  }

  /** `f"{parsed.scheme}://{parsed.netloc}"`. */
  function Origin(p: UrlParts): string {
    p.scheme + "://" + p.netloc
  }

  /** `USER_AGENT or <default>`: an absent or empty configured agent falls
      back to the built-in one. */
  function UserAgentOr(configured: Option<string>): (ua: string)
    ensures ua != []
    ensures configured.Some? && configured.value != [] ==> ua == configured.value
    ensures !(configured.Some? && configured.value != []) ==> ua == DefaultUserAgent
  {
    if configured.Some? && configured.value != [] then configured.value else DefaultUserAgent
  }

  /** The header set `fetch_page` merges into the session before it asks. */
  function RequestHeaders(origin: string, userAgent: string): (h: map<string, string>)
    ensures h.Keys == {"User-Agent", "Referer", "Origin", "Upgrade-Insecure-Requests",
                       "Sec-Fetch-Site", "Sec-Fetch-Mode", "Sec-Fetch-Dest",
                       "Sec-Fetch-User", "Accept-Encoding"}
    ensures h["User-Agent"] == userAgent && h["Origin"] == origin
    ensures StartsWith(h["Referer"], origin) && h["Referer"][|origin|..] == "/recruitment"
  {
    map[
      "User-Agent" := userAgent,
      "Referer" := origin + "/recruitment",
      "Origin" := origin,
      "Upgrade-Insecure-Requests" := "1",
      "Sec-Fetch-Site" := "same-origin",
      "Sec-Fetch-Mode" := "navigate",
      "Sec-Fetch-Dest" := "document",
      "Sec-Fetch-User" := "?1",
      "Accept-Encoding" := "gzip, deflate, br"
    ]
  }

  /** The URL actually requested: on the desktop host every `"://www."`
      becomes `"://m."`; any other host is left alone. */
  function RewriteUrl(url: string, parse: string -> UrlParts): string {
    if parse(url).netloc == DesktopHost then ReplaceAll(url, DesktopMarker, MobileMarker) else url
  }

  /** The host rewrite changes a URL exactly when the host is the desktop
      host and the URL holds the marker; afterwards no marker is left, so a
      second rewrite changes nothing. */
  lemma RewriteUrlSpec(url: string, parse: string -> UrlParts)
    ensures RewriteUrl(url, parse) != url <==> parse(url).netloc == DesktopHost && Contains(url, DesktopMarker)
    ensures parse(url).netloc == DesktopHost ==> !Contains(RewriteUrl(url, parse), DesktopMarker)
    ensures RewriteUrl(RewriteUrl(url, parse), parse) == RewriteUrl(url, parse)
  {
    if parse(url).netloc == DesktopHost {
      var r := ReplaceAll(url, DesktopMarker, MobileMarker);
      if Contains(url, DesktopMarker) {
        ReplaceAllShrinks(url, DesktopMarker, MobileMarker);
      } else {
        ReplaceAllAbsent(url, DesktopMarker, MobileMarker);
      }
      MarkerGone(url);
      ReplaceAllAbsent(r, DesktopMarker, MobileMarker);
    }
  }

  /** Nothing that does not contain ':' starts a rewritten text unless it
      already started the original: every replacement begins with ':'. */
  lemma {:induction false} RewritePrefix(t: string, x: string)
    requires ':' !in x
    ensures StartsWith(ReplaceAll(t, DesktopMarker, MobileMarker), x) ==> StartsWith(t, x)
    decreases |t|
  {
    var r := ReplaceAll(t, DesktopMarker, MobileMarker);
    if x != [] && StartsWith(r, x) {
      assert r[..|x|][0] == x[0];
      if |t| >= |DesktopMarker| && t[..|DesktopMarker|] != DesktopMarker {
        var r' := ReplaceAll(t[1..], DesktopMarker, MobileMarker);
        assert r == [t[0]] + r';
        assert r'[..|x| - 1] == r[..|x|][1..];
        RewritePrefix(t[1..], x[1..]);
        assert t[..|x|] == [t[0]] + t[1..][..|x| - 1];
      }
    }
  }

  /** A text that differs from the desktop marker in one of its first
      characters does not start with it. */
  lemma NoMarkerStart(s: string, k: nat)
    requires k < |s| && k < |DesktopMarker| && s[k] != DesktopMarker[k]
    ensures !StartsWith(s, DesktopMarker)
  {
    if |DesktopMarker| <= |s| {
      assert s[..|DesktopMarker|][k] == s[k];
    }
  }

  /** Prefixing the mobile marker cannot create a desktop marker. */
  lemma MobileMarkerPrefix(t: string)
    requires !Contains(t, DesktopMarker)
    ensures !Contains(MobileMarker + t, DesktopMarker)
  {
    var s4 := ['.'] + t;
    var s3 := ['m'] + s4;
    var s2 := ['/'] + s3;
    var s1 := ['/'] + s2;
    var s0 := [':'] + s1;
    NoMarkerStart(s4, 0);
    ContainsCons('.', t, DesktopMarker);
    NoMarkerStart(s3, 0);
    ContainsCons('m', s4, DesktopMarker);
    NoMarkerStart(s2, 0);
    ContainsCons('/', s3, DesktopMarker);
    NoMarkerStart(s1, 0);
    ContainsCons('/', s2, DesktopMarker);
    NoMarkerStart(s0, 3);
    ContainsCons(':', s1, DesktopMarker);
    assert s0 == MobileMarker + t;
  }

  /** After `replace("://www.", "://m.")` no `"://www."` is left. */
  lemma {:induction false} MarkerGone(s: string)
    ensures !Contains(ReplaceAll(s, DesktopMarker, MobileMarker), DesktopMarker)
    decreases |s|
  {
    var r := ReplaceAll(s, DesktopMarker, MobileMarker);
    if |s| < |DesktopMarker| {
      if Contains(r, DesktopMarker) { ContainsNotLonger(r, DesktopMarker); }
    } else if s[..|DesktopMarker|] == DesktopMarker {
      MarkerGone(s[|DesktopMarker|..]);
      MobileMarkerPrefix(ReplaceAll(s[|DesktopMarker|..], DesktopMarker, MobileMarker));
    } else {
      var r' := ReplaceAll(s[1..], DesktopMarker, MobileMarker);
      MarkerGone(s[1..]);
      assert r == [s[0]] + r';
      assert r[1..] == r';
      RewritePrefix(s[1..], DesktopMarker[1..]);
      assert s[..|DesktopMarker|] == [s[0]] + s[1..][..|DesktopMarker| - 1];
    }
  }

  /** Statuses on which the loop tries again: 403, 429 and 503, and an
      exception raised by the request. */
  predicate Retryable(o: Outcome) {
    o.NetworkError? || o.status == 403 || o.status == 429 || o.status == 503
  }

  /** The number of requests allowed by `range(1, max_retries + 1)`. */
  function Budget(maxRetries: int): nat {
    if maxRetries > 0 then maxRetries else 0
  }

  /** The retry loop from attempt `attempt` on, with `last` the status
      received so far. */
  function RetryFrom(respond: nat -> Outcome, maxRetries: int, attempt: nat, last: Option<int>): Fetched
    requires attempt >= 1
    decreases Budget(maxRetries) + 1 - attempt
  {
    if attempt > maxRetries then Fetched(None, last, attempt - 1)
    else match respond(attempt)
      case NetworkError => RetryFrom(respond, maxRetries, attempt + 1, last)
      case Response(code, text) =>
        if code == 200 then Fetched(Some(text), Some(code), attempt)
        else if Retryable(respond(attempt)) then RetryFrom(respond, maxRetries, attempt + 1, Some(code))
        else Fetched(None, Some(code), attempt)
  }

  /** The whole loop of `fetch_page`, starting with no status. */
  function Retry(respond: nat -> Outcome, maxRetries: int): Fetched {
    RetryFrom(respond, maxRetries, 1, None)
  }

  /** Reference definition of `last_status`: the status of the latest
      response among attempts `1..n`; exceptions leave it as it was. */
  function LastResponse(respond: nat -> Outcome, n: nat): Option<int> {
    if n == 0 then None
    else if respond(n).Response? then Some(respond(n).status)
    else LastResponse(respond, n - 1)
  }

  lemma {:induction false} RetryFromSpec(respond: nat -> Outcome, maxRetries: int, attempt: nat, last: Option<int>)
    requires 1 <= attempt <= Budget(maxRetries) + 1
    requires last == LastResponse(respond, attempt - 1)
    requires forall j :: 1 <= j < attempt ==> Retryable(respond(j))
    ensures var r := RetryFrom(respond, maxRetries, attempt, last);
      attempt - 1 <= r.attempts <= Budget(maxRetries) &&
      (forall j :: 1 <= j < r.attempts ==> Retryable(respond(j))) &&
      (r.attempts < Budget(maxRetries) ==> 1 <= r.attempts && !Retryable(respond(r.attempts))) &&
      (r.body.Some? <==> 1 <= r.attempts && respond(r.attempts).Response? && respond(r.attempts).status == 200) &&
      (r.body.Some? ==> r.body.value == respond(r.attempts).text) &&
      r.lastStatus == LastResponse(respond, r.attempts)
    decreases Budget(maxRetries) + 1 - attempt
  {
    if attempt <= maxRetries {
      match respond(attempt)
      case NetworkError =>
        RetryFromSpec(respond, maxRetries, attempt + 1, last);
      case Response(code, text) =>
        if code != 200 && Retryable(respond(attempt)) {
          RetryFromSpec(respond, maxRetries, attempt + 1, Some(code));
        }
    }
  }

  /** What `fetch_page`'s loop does, for every sequence of outcomes: it makes
      at most `max_retries` requests (none when that is not positive); every
      request before the last one raised or answered 403, 429 or 503; it
      stops early only on another status; it returns text exactly when the
      last request answered 200, and then that answer's text, which is so the
      first 200; and the last status it holds is that of the latest response,
      exceptions leaving it unchanged. */
  lemma RetrySpec(respond: nat -> Outcome, maxRetries: int)
    ensures var r := Retry(respond, maxRetries);
      r.attempts <= Budget(maxRetries) &&
      (forall j :: 1 <= j < r.attempts ==> Retryable(respond(j))) &&
      (r.attempts < Budget(maxRetries) ==> 1 <= r.attempts && !Retryable(respond(r.attempts))) &&
      (r.body.Some? <==> 1 <= r.attempts && respond(r.attempts).Response? && respond(r.attempts).status == 200) &&
      (r.body.Some? ==> r.body.value == respond(r.attempts).text) &&
      r.lastStatus == LastResponse(respond, r.attempts)
  {
    RetryFromSpec(respond, maxRetries, 1, None);
  }

  /** Forced statuses 403, 403, 200 with three retries: the text of the third
      answer after exactly three requests. */
  lemma BlockedThenServed(respond: nat -> Outcome, t1: string, t2: string, t3: string)
    requires respond(1) == Response(403, t1) && respond(2) == Response(403, t2)
    requires respond(3) == Response(200, t3)
    ensures Retry(respond, 3) == Fetched(Some(t3), Some(200), 3)
  {
    assert RetryFrom(respond, 3, 3, Some(403)) == Fetched(Some(t3), Some(200), 3);
    assert RetryFrom(respond, 3, 2, Some(403)) == Fetched(Some(t3), Some(200), 3);
  }

  /** Forced statuses 403, 403, 403 with three retries: nothing, after three
      requests, with 403 as the last status. */
  lemma BlockedThroughout(respond: nat -> Outcome, t1: string, t2: string, t3: string)
    requires respond(1) == Response(403, t1) && respond(2) == Response(403, t2)
    requires respond(3) == Response(403, t3)
    ensures Retry(respond, 3) == Fetched(None, Some(403), 3)
  {
    assert RetryFrom(respond, 3, 3, Some(403)) == Fetched(None, Some(403), 3);
    assert RetryFrom(respond, 3, 2, Some(403)) == Fetched(None, Some(403), 3);
  }

  /** The result of `fetch_page(url, max_retries)`: an empty URL yields
      nothing without a request; otherwise the loop runs on the responses
      to the rewritten URL. */
  function FetchResult(url: string, maxRetries: int, parse: string -> UrlParts,
                       net: string -> nat -> Outcome): Fetched
  {
    if url == [] then Fetched(None, None, 0)
    else Retry(net(RewriteUrl(url, parse)), maxRetries)
  }

  /** One GET issued on the session: the warm-up request to an origin, or
      one attempt at a page. */
  datatype Request = WarmupGet(url: string) | PageGet(url: string)

  /** The requests `fetch_page(url, max_retries)` issues on a session whose
      warm-up flag is `warmed`: none for an empty URL; otherwise the warm-up
      of the rewritten URL's origin unless already done, then one request
      to the rewritten URL per attempt. */
  function PageRequests(url: string, maxRetries: int, warmed: bool, parse: string -> UrlParts,
                        net: string -> nat -> Outcome): seq<Request>
  {
    if url == [] then []
    else
      var target := RewriteUrl(url, parse);
      (if warmed then [] else [WarmupGet(Origin(parse(target)))]) +
      Repeat(PageGet(target), FetchResult(url, maxRetries, parse, net).attempts)
  }

  /** The session headers after `fetch_page(url)`: the request headers of
      the rewritten URL's origin merged over `h`, unless the URL is empty. */
  function PageHeaders(h: map<string, string>, url: string, userAgent: Option<string>,
                       parse: string -> UrlParts): map<string, string>
  {
    if url == [] then h
    else h + RequestHeaders(Origin(parse(RewriteUrl(url, parse))), UserAgentOr(userAgent))
  }

  /** The number of warm-up requests in a request log. */
  function WarmupCount(rs: seq<Request>): nat
    decreases |rs|
  {
    if rs == [] then 0
    else WarmupCount(rs[..|rs| - 1]) + (if rs[|rs| - 1].WarmupGet? then 1 else 0)
  }

  lemma {:induction false} WarmupCountAppend(a: seq<Request>, b: seq<Request>)
    ensures WarmupCount(a + b) == WarmupCount(a) + WarmupCount(b)
    decreases |b|
  {
    if b != [] {
      WarmupCountAppend(a, b[..|b| - 1]);
      assert (a + b)[..|a + b| - 1] == a + b[..|b| - 1];
    } else {
      assert a + b == a;
    }
  }

  lemma {:induction false} NoWarmupInAttempts(target: string, n: nat)
    ensures WarmupCount(Repeat(PageGet(target), n)) == 0
  {
    if n > 0 {
      NoWarmupInAttempts(target, n - 1);
    }
  }

  /** One `fetch_page` warms up exactly when the URL is not empty and the
      session was not warmed up yet, and makes at most `max_retries` page
      requests besides. */
  lemma PageRequestsSpec(url: string, maxRetries: int, warmed: bool, parse: string -> UrlParts,
                         net: string -> nat -> Outcome)
    ensures var rs := PageRequests(url, maxRetries, warmed, parse, net);
      WarmupCount(rs) == (if url != [] && !warmed then 1 else 0) &&
      |rs| <= WarmupCount(rs) + Budget(maxRetries)
  {
    if url != [] {
      var target := RewriteUrl(url, parse);
      var w: seq<Request> := if warmed then [] else [WarmupGet(Origin(parse(target)))];
      var n := FetchResult(url, maxRetries, parse, net).attempts;
      RetrySpec(net(target), maxRetries);
      NoWarmupInAttempts(target, n);
      WarmupCountAppend(w, Repeat(PageGet(target), n));
      assert WarmupCount(w) == (if warmed then 0 else 1) by {
        if !warmed {
          assert w[..0] == [];
        }
      }
    }
  }

  /** `requests.Session()` already carries the library's own default headers,
      among them a `User-Agent` and an `Accept-Encoding`; a page fetch
      overrides both, so no page request carries the library's values,
      while `Accept` and `Accept-Language` keep the values of the base set. */
  lemma LibraryDefaultsOverridden(defaults: map<string, string>, url: string,
                                  userAgent: Option<string>, parse: string -> UrlParts)
    requires url != []
    ensures var h := PageHeaders(defaults + BaseHeaders(), url, userAgent, parse);
      h["User-Agent"] == UserAgentOr(userAgent) && h["Accept-Encoding"] == "gzip, deflate, br" &&
      h["Accept"] == BaseHeaders()["Accept"] && h["Accept-Language"] == BaseHeaders()["Accept-Language"]
  {
    var rh := RequestHeaders(Origin(parse(RewriteUrl(url, parse))), UserAgentOr(userAgent));
    var base := defaults + BaseHeaders();
    assert "Accept" in base && base["Accept"] == BaseHeaders()["Accept"];
    assert "Accept-Language" in base && base["Accept-Language"] == BaseHeaders()["Accept-Language"];
    assert "Accept" !in rh.Keys && "Accept-Language" !in rh.Keys;
  }

  /** The one `requests.Session` of a run. */
  class Session {
    /** The headers every request carries. */
    var headers: map<string, string>
    /** `SESSION._warmed_up`. */
    var warmedUp: bool
    /** Every GET issued on this session, in order, including those that
        raised. */
    var requests: seq<Request>

    /** `requests.Session()` with `libraryDefaults`, the default headers of
        the installed library, then `SESSION.headers.update(BASE_HEADERS)`. */
    constructor (libraryDefaults: map<string, string>)
      ensures headers == libraryDefaults + BaseHeaders() && !warmedUp && requests == []
    {
      headers := libraryDefaults + BaseHeaders();
      warmedUp := false;
      requests := [];
    }

    /** `warmup_session(url)`: one GET of the URL's origin, the first time
        only; the flag is set whether or not that request succeeds. */
    method Warmup(url: string, parse: string -> UrlParts)
      modifies this
      ensures warmedUp && headers == old(headers)
      ensures requests == old(requests) + (if old(warmedUp) then [] else [WarmupGet(Origin(parse(url)))])
    {
      if warmedUp {
        return;
      }
      var origin := Origin(parse(url));
      requests := requests + [WarmupGet(origin)];
      warmedUp := true;
    }

    /** `fetch_page(url, max_retries)`. */
    method FetchPage(url: string, maxRetries: int, userAgent: Option<string>,
                     parse: string -> UrlParts, net: string -> nat -> Outcome)
      returns (html: Option<string>)
      modifies this
      ensures html == FetchResult(url, maxRetries, parse, net).body
      ensures headers == PageHeaders(old(headers), url, userAgent, parse)
      ensures warmedUp == (old(warmedUp) || url != [])
      ensures requests == old(requests) + PageRequests(url, maxRetries, old(warmedUp), parse, net)
    {
      if url == [] {
        return None;
      }
      var target := url;
      var parts := parse(url);
      if parts.netloc == DesktopHost {
        target := ReplaceAll(url, DesktopMarker, MobileMarker);
        parts := parse(target);
      }
      var origin := Origin(parts);
      headers := headers + RequestHeaders(origin, UserAgentOr(userAgent));
      Warmup(target, parse);

      html := RetryLoop(target, net(target), maxRetries);
    }

    /** The `for attempt in range(1, max_retries + 1)` loop of `fetch_page`
        on the rewritten URL: one request per attempt, a 200 returns its
        text, 403, 429, 503 and exceptions go on, any other status stops. */
    method RetryLoop(target: string, respond: nat -> Outcome, maxRetries: int)
      returns (html: Option<string>)
      modifies this`requests
      ensures html == Retry(respond, maxRetries).body
      ensures requests == old(requests) + Repeat(PageGet(target), Retry(respond, maxRetries).attempts)
    {
      var lastStatus: Option<int> := None;
      var attempt: nat := 1;
      var made: nat := 0;
      var stop := false;
      html := None;
      while attempt <= maxRetries && !stop
        invariant 1 <= attempt <= Budget(maxRetries) + 1
        invariant requests == old(requests) + Repeat(PageGet(target), made)
        invariant !stop ==> made == attempt - 1 &&
                            RetryFrom(respond, maxRetries, attempt, lastStatus) == Retry(respond, maxRetries)
        invariant stop ==> Retry(respond, maxRetries) == Fetched(None, lastStatus, made)
        decreases if stop then 0 else 1, Budget(maxRetries) + 1 - attempt
      {
        requests := requests + [PageGet(target)];
        made := made + 1;
        var outcome := respond(attempt);
        match outcome
        case NetworkError =>
          attempt := attempt + 1;
        case Response(code, text) =>
          lastStatus := Some(code);
          if code == 200 {
            html := Some(text);
            return;
          }
          if Retryable(outcome) {
            attempt := attempt + 1;
          } else {
            stop := true;
          }
      }
    }
  }
}

/**
  `main`: fetch every configured URL on one session, collect the matching
  entries per keyword into `detected`, and, unless nothing was detected,
  prepare one email per detected keyword in the order the keywords were
  first detected.

  The configuration (`web_addresses`, `keywords`, `max_links`,
  `browser_user_agent`) and the environment are parameters, and so are the
  network (`net`), `urlparse` (`parse`) and the anchor texts BeautifulSoup
  finds in a page (`anchors`).
*/
module Notifier {
  import opened Wrappers
  import opened Text
  import opened Fetch
  import opened Titles
  import opened Scan
  import opened Mail

  /** One configured URL as `main` sees it after `fetch_page(url)` (default
      retry budget) and, when that gave a non-empty text, `parse_titles`. */
  function PageOf(url: string, parse: string -> UrlParts, net: string -> nat -> Outcome,
                  anchors: string -> seq<string>): Page
  {
    var body := FetchResult(url, DefaultMaxRetries, parse, net).body;
    if body.Some? && body.value != [] then Page(url, Some(StrippedNonEmpty(anchors(body.value))))
    else Page(url, None)
  }

  function PagesOf(urls: seq<string>, parse: string -> UrlParts, net: string -> nat -> Outcome,
                   anchors: string -> seq<string>): (pages: seq<Page>)
    ensures |pages| == |urls|
    ensures forall i :: 0 <= i < |urls| ==> pages[i] == PageOf(urls[i], parse, net, anchors)
  {
    seq(|urls|, i requires 0 <= i < |urls| => PageOf(urls[i], parse, net, anchors))
  }

  /** Whether the session is warmed up after fetching `urls` in order,
      starting from `warmed`: a fetch of a non-empty URL warms it up. */
  function WarmedAfter(urls: seq<string>, warmed: bool): bool
    decreases |urls|
  {
    if urls == [] then warmed
    else WarmedAfter(urls[..|urls| - 1], warmed) || urls[|urls| - 1] != []
  }

  /** The requests `main`'s page loop issues for `urls`, starting from a
      session whose warm-up flag is `warmed`: each URL's requests in turn. */
  function RunRequests(urls: seq<string>, warmed: bool, parse: string -> UrlParts,
                       net: string -> nat -> Outcome): seq<Request>
    decreases |urls|
  {
    if urls == [] then []
    else
      var init := urls[..|urls| - 1];
      RunRequests(init, warmed, parse, net) +
      PageRequests(urls[|urls| - 1], DefaultMaxRetries, WarmedAfter(init, warmed), parse, net)
  }

  /** The session headers after the page loop fetched `urls`. */
  function RunHeaders(h: map<string, string>, urls: seq<string>, userAgent: Option<string>,
                      parse: string -> UrlParts): map<string, string>
    decreases |urls|
  {
    if urls == [] then h
    else PageHeaders(RunHeaders(h, urls[..|urls| - 1], userAgent, parse), urls[|urls| - 1], userAgent, parse)
  }

  /** A warmed-up session stays warmed up. */
  lemma {:induction false} StaysWarm(urls: seq<string>, warmed: bool)
    ensures warmed ==> WarmedAfter(urls, warmed)
    decreases |urls|
  {
    if urls != [] {
      StaysWarm(urls[..|urls| - 1], warmed);
    }
  }

  /** The run-level state after `urls[..i + 1]` is that after `urls[..i]`
      followed by one `fetch_page(urls[i])`. */
  lemma RunStep(urls: seq<string>, i: nat, h: map<string, string>, warmed: bool, r0: seq<Request>,
                userAgent: Option<string>,
                parse: string -> UrlParts, net: string -> nat -> Outcome)
    requires i < |urls|
    ensures RunHeaders(h, urls[..i + 1], userAgent, parse) ==
      PageHeaders(RunHeaders(h, urls[..i], userAgent, parse), urls[i], userAgent, parse)
    ensures WarmedAfter(urls[..i + 1], warmed) == (WarmedAfter(urls[..i], warmed) || urls[i] != [])
    ensures r0 + RunRequests(urls[..i + 1], warmed, parse, net) ==
      r0 + RunRequests(urls[..i], warmed, parse, net) +
      PageRequests(urls[i], DefaultMaxRetries, WarmedAfter(urls[..i], warmed), parse, net)
  {
    assert urls[..i + 1][..i] == urls[..i];
  }

  /** Over a whole run, the session is warmed up at most once: exactly once
      when it was not warmed up before and some configured URL is not empty.
      Besides the warm-up, each URL costs at most `max_retries` requests. */
  lemma {:induction false} RunWarmsUpOnce(urls: seq<string>, warmed: bool, parse: string -> UrlParts,
                                          net: string -> nat -> Outcome)
    ensures var rs := RunRequests(urls, warmed, parse, net);
      WarmupCount(rs) == (if !warmed && WarmedAfter(urls, warmed) then 1 else 0) &&
      |rs| <= WarmupCount(rs) + DefaultMaxRetries * |urls|
    decreases |urls|
  {
    if urls != [] {
      var init, url := urls[..|urls| - 1], urls[|urls| - 1];
      var w := WarmedAfter(init, warmed);
      var before := RunRequests(init, warmed, parse, net);
      var page := PageRequests(url, DefaultMaxRetries, w, parse, net);
      assert RunRequests(urls, warmed, parse, net) == before + page;
      assert WarmedAfter(urls, warmed) == (w || url != []);
      RunWarmsUpOnce(init, warmed, parse, net);
      StaysWarm(init, warmed);
      PageRequestsSpec(url, DefaultMaxRetries, w, parse, net);
      WarmupCountAppend(before, page);
    }
  }

  /** The message `send_email(kw, items)` hands to the server. */
  function Compose(keyword: string, items: seq<Item>, env: Env): Email
    requires CanSend(env)
  {
    Email(Sender(env).value, Recipients(env.smtpTo.value), Subject, Join(BodyLines(keyword, items), "\n"))
  }

  /** Fetching `url` gave text with a title containing `k`. */
  predicate ServedMatch(url: string, k: string, parse: string -> UrlParts, net: string -> nat -> Outcome,
                        anchors: string -> seq<string>)
  {
    var body := FetchResult(url, DefaultMaxRetries, parse, net).body;
    body.Some? && body.value != [] && Matched(StrippedNonEmpty(anchors(body.value)), k) != []
  }

  /** Every entry `main` collects under keyword `k` links to a configured
      URL whose fetch returned text with a title containing `k`, carries the
      placeholder period, and `k` is a configured keyword. */
  lemma DetectedLinksConfigured(urls: seq<string>, keywords: seq<string>, maxLinks: int,
                                parse: string -> UrlParts, net: string -> nat -> Outcome,
                                anchors: string -> seq<string>, k: string, e: Item)
    requires e in Get(ScanPages(PagesOf(urls, parse, net, anchors), keywords, maxLinks), k)
    ensures k in keywords && e.period == PeriodPlaceholder
    ensures exists i :: 0 <= i < |urls| && urls[i] == e.link && ServedMatch(urls[i], k, parse, net, anchors)
  {
    var pages := PagesOf(urls, parse, net, anchors);
    ScanPagesSpec(pages, keywords, maxLinks, k);
    ExpectedEntries(pages, keywords, k, maxLinks, e);
    var p :| p in pages && p.url == e.link && p.titles.Some? && Matched(p.titles.value, k) != [];
    var i :| 0 <= i < |pages| && pages[i] == p;
    assert urls[i] == e.link;
  }

  /** The converse: a configured keyword that a title of some configured
      URL's fetched page contains is detected, with at least one entry. */
  lemma MatchedKeywordDetected(urls: seq<string>, keywords: seq<string>, maxLinks: int,
                               parse: string -> UrlParts, net: string -> nat -> Outcome,
                               anchors: string -> seq<string>, k: string, i: nat)
    requires k in keywords && i < |urls| && ServedMatch(urls[i], k, parse, net, anchors)
    ensures var d := ScanPages(PagesOf(urls, parse, net, anchors), keywords, maxLinks);
      k in d.items && Get(d, k) != []
  {
    var pages := PagesOf(urls, parse, net, anchors);
    assert pages[i] in pages;
    MatchedKeywordReported(pages, keywords, k, maxLinks, pages[i]);
    ScanPagesSpec(pages, keywords, maxLinks, k);
  }

  /** When no configured URL yields text, nothing is detected, so `main`
      sends no message at all. */
  lemma {:induction false} NothingFetchedNothingDetected(urls: seq<string>, keywords: seq<string>, maxLinks: int,
                                                        parse: string -> UrlParts, net: string -> nat -> Outcome,
                                                        anchors: string -> seq<string>)
    requires forall i :: 0 <= i < |urls| ==>
      var body := FetchResult(urls[i], DefaultMaxRetries, parse, net).body;
      body.None? || body.value == []
    ensures ScanPages(PagesOf(urls, parse, net, anchors), keywords, maxLinks) == NoneDetected
    decreases |urls|
  {
    if urls != [] {
      var init := urls[..|urls| - 1];
      NothingFetchedNothingDetected(init, keywords, maxLinks, parse, net, anchors);
      assert PagesOf(urls, parse, net, anchors)[..|urls| - 1] == PagesOf(init, parse, net, anchors);
    }
  }

  /** `main()`: returns the final `detected` and the messages handed to the
      SMTP server, in order. */
  method Run(session: Session, urls: seq<string>, keywords: seq<string>, maxLinks: int,
             userAgent: Option<string>, parse: string -> UrlParts, net: string -> nat -> Outcome,
             anchors: string -> seq<string>, env: Env)
    returns (detected: Detected, outbox: seq<Email>)
    modifies session
    ensures detected == ScanPages(PagesOf(urls, parse, net, anchors), keywords, maxLinks)
    ensures urls == [] ==>
      (session.headers == old(session.headers) && session.warmedUp == old(session.warmedUp) &&
       session.requests == old(session.requests))
    ensures session.headers == RunHeaders(old(session.headers), urls, userAgent, parse)
    ensures session.warmedUp == WarmedAfter(urls, old(session.warmedUp))
    ensures session.requests == old(session.requests) + RunRequests(urls, old(session.warmedUp), parse, net)
    ensures !CanSend(env) ==> outbox == []
    ensures CanSend(env) ==> |outbox| == |detected.keys|
    ensures CanSend(env) ==>
      forall i :: 0 <= i < |outbox| ==> outbox[i] == Compose(detected.keys[i], Get(detected, detected.keys[i]), env)
  {
    detected := NoneDetected;
    outbox := [];
    if urls == [] {
      return;
    }
    detected := Collect(session, urls, keywords, maxLinks, userAgent, parse, net, anchors);
    if detected.keys == [] {
      return;
    }
    outbox := Notify(detected, env);
  }

  /** The page loop of `main`: fetch each configured URL in turn on the
      session and scan the titles of every page that came back with text. */
  method Collect(session: Session, urls: seq<string>, keywords: seq<string>, maxLinks: int,
                 userAgent: Option<string>, parse: string -> UrlParts, net: string -> nat -> Outcome,
                 anchors: string -> seq<string>)
    returns (detected: Detected)
    modifies session
    ensures detected == ScanPages(PagesOf(urls, parse, net, anchors), keywords, maxLinks)
    ensures session.headers == RunHeaders(old(session.headers), urls, userAgent, parse)
    ensures session.warmedUp == WarmedAfter(urls, old(session.warmedUp))
    ensures session.requests == old(session.requests) + RunRequests(urls, old(session.warmedUp), parse, net)
  {
    ghost var pages := PagesOf(urls, parse, net, anchors);
    ghost var h0, w0, r0 := session.headers, session.warmedUp, session.requests;
    detected := NoneDetected;
    var i := 0;
    while i < |urls|
      invariant 0 <= i <= |urls|
      invariant detected == ScanPages(pages[..i], keywords, maxLinks)
      invariant session.headers == RunHeaders(h0, urls[..i], userAgent, parse)
      invariant session.warmedUp == WarmedAfter(urls[..i], w0)
      invariant session.requests == r0 + RunRequests(urls[..i], w0, parse, net)
    {
      detected := Visit(session, urls, i, detected, keywords, maxLinks, userAgent, parse, net, anchors, h0, w0, r0);
      i := i + 1;
    }
    assert pages[..i] == pages;
    assert urls[..i] == urls;
  }

  /** One round of `main`'s page loop: fetch `urls[i]`, and scan its titles
      when it came back with text. */
  method Visit(session: Session, urls: seq<string>, i: nat, d: Detected, keywords: seq<string>, maxLinks: int,
               userAgent: Option<string>, parse: string -> UrlParts, net: string -> nat -> Outcome,
               anchors: string -> seq<string>, ghost h0: map<string, string>, ghost w0: bool,
               ghost r0: seq<Request>)
    returns (detected: Detected)
    requires i < |urls|
    requires d == ScanPages(PagesOf(urls, parse, net, anchors)[..i], keywords, maxLinks)
    requires session.headers == RunHeaders(h0, urls[..i], userAgent, parse)
    requires session.warmedUp == WarmedAfter(urls[..i], w0)
    requires session.requests == r0 + RunRequests(urls[..i], w0, parse, net)
    modifies session
    ensures detected == ScanPages(PagesOf(urls, parse, net, anchors)[..i + 1], keywords, maxLinks)
    ensures session.headers == RunHeaders(h0, urls[..i + 1], userAgent, parse)
    ensures session.warmedUp == WarmedAfter(urls[..i + 1], w0)
    ensures session.requests == r0 + RunRequests(urls[..i + 1], w0, parse, net)
  {
    var url := urls[i];
    var titles := FetchTitles(session, url, userAgent, parse, net, anchors);
    RunStep(urls, i, h0, w0, r0, userAgent, parse, net);
    ghost var pages := PagesOf(urls, parse, net, anchors);
    PagesStep(pages, i, keywords, maxLinks);
    assert pages[i].titles == titles && pages[i].url == url;
    detected := d;
    if titles.Some? {
      detected := ScanPage(detected, url, titles.value, keywords, maxLinks);
    }
  }

  /** The page loop's specification after `pages[..i + 1]` is that after
      `pages[..i]` followed by page `i`. */
  lemma PagesStep(pages: seq<Page>, i: nat, keywords: seq<string>, maxLinks: int)
    requires i < |pages|
    ensures var d := ScanPages(pages[..i], keywords, maxLinks);
      ScanPages(pages[..i + 1], keywords, maxLinks) ==
        if pages[i].titles.None? then d else ScanKeywords(d, pages[i].url, pages[i].titles.value, keywords, maxLinks)
  {
    assert pages[..i + 1][..i] == pages[..i];
  }

  /** The head of `main`'s page loop: `fetch_page(url)`, and `parse_titles`
      when that returned a non-empty text; `None` when the page is skipped. */
  method FetchTitles(session: Session, url: string, userAgent: Option<string>,
                     parse: string -> UrlParts, net: string -> nat -> Outcome,
                     anchors: string -> seq<string>)
    returns (titles: Option<seq<string>>)
    modifies session
    ensures titles == PageOf(url, parse, net, anchors).titles
    ensures session.headers == PageHeaders(old(session.headers), url, userAgent, parse)
    ensures session.warmedUp == (old(session.warmedUp) || url != [])
    ensures session.requests == old(session.requests) + PageRequests(url, DefaultMaxRetries, old(session.warmedUp), parse, net)
  {
    var html := session.FetchPage(url, DefaultMaxRetries, userAgent, parse, net);
    if html.Some? && html.value != [] {
      var parsed := ParseTitles(anchors(html.value));
      titles := Some(parsed);
    } else {
      titles := None;
    }
  }

  /** The mail loop of `main`: one message per detected keyword, in the
      order the keywords were first detected, none without credentials. */
  method Notify(detected: Detected, env: Env) returns (outbox: seq<Email>)
    ensures !CanSend(env) ==> outbox == []
    ensures CanSend(env) ==> |outbox| == |detected.keys|
    ensures CanSend(env) ==>
      forall i :: 0 <= i < |outbox| ==> outbox[i] == Compose(detected.keys[i], Get(detected, detected.keys[i]), env)
  {
    outbox := [];
    var k := 0;
    while k < |detected.keys|
      invariant 0 <= k <= |detected.keys|
      invariant !CanSend(env) ==> outbox == []
      invariant CanSend(env) ==> |outbox| == k
      invariant CanSend(env) ==>
        forall j :: 0 <= j < k ==> outbox[j] == Compose(detected.keys[j], Get(detected, detected.keys[j]), env)
    {
      var kw := detected.keys[k];
      var mail := SendEmail(kw, Get(detected, kw), env);
      if mail.Some? {
        outbox := outbox + [mail.value];
      }
      k := k + 1;
    }
  }

  /** The body of `main`'s page loop for one fetched page: every keyword in
      turn, appending `use_count` entries to `detected[kw]`. */
  method ScanPage(d: Detected, url: string, titles: seq<string>, keywords: seq<string>, maxLinks: int)
    returns (detected: Detected)
    ensures detected == ScanKeywords(d, url, titles, keywords, maxLinks)
  {
    detected := d;
    var j := 0;
    while j < |keywords|
      invariant 0 <= j <= |keywords|
      invariant detected == ScanKeywords(d, url, titles, keywords[..j], maxLinks)
    {
      var kw := keywords[j];
      assert keywords[..j + 1][..j] == keywords[..j];
      detected := AddKeywordMatches(detected, url, titles, kw, maxLinks);
      j := j + 1;
    }
    assert keywords[..j] == keywords;
  }

  /** One keyword on one page: the matching titles, the list created on
      first use, and `use_count` entries appended to it. */
  method AddKeywordMatches(d: Detected, url: string, titles: seq<string>, kw: string, maxLinks: int)
    returns (detected: Detected)
    ensures detected == AddMatches(d, url, titles, kw, maxLinks)
  {
    detected := d;
    var matched := Matched(titles, kw);
    if matched == [] {
      return;
    }
    if kw !in detected.items {
      detected := Detected(detected.keys + [kw], detected.items[kw := []]);
    }
    var periodPlaceholder := PeriodPlaceholder;
    var useCount := |matched|;
    if maxLinks > 0 {
      useCount := if useCount < maxLinks then useCount else maxLinks;
    }
    var item := Item(url, periodPlaceholder);
    detected := AppendCopies(detected, kw, item, useCount);
    assert useCount == UseCount(|matched|, maxLinks);
    assert [] + Repeat(item, useCount) == Repeat(item, useCount);
  }

  /** `for i in range(count): detected[kw].append(item)`. */
  method AppendCopies(d: Detected, kw: string, item: Item, count: nat) returns (detected: Detected)
    requires kw in d.items
    ensures detected == Detected(d.keys, d.items[kw := d.items[kw] + Repeat(item, count)])
  {
    detected := d;
    assert d.items[kw] + Repeat(item, 0) == d.items[kw];
    assert d.items[kw := d.items[kw]] == d.items;
    var i := 0;
    while i < count
      invariant 0 <= i <= count
      invariant detected == Detected(d.keys, d.items[kw := d.items[kw] + Repeat(item, i)])
    {
      detected := detected.(items := detected.items[kw := detected.items[kw] + [item]]);
      assert d.items[kw] + Repeat(item, i) + [item] == d.items[kw] + Repeat(item, i + 1);
      i := i + 1;
    }
  }
}

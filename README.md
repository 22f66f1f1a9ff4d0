# hibrain-prof-notifier in Dafny

A model of the notifier in `main.py`. The notifier scrapes the recruitment
listing pages of hibrain.net, matches the titles of the page against
configured keywords, and mails one summary per detected keyword. The model
covers:

- **Fetch** (`fetch.dfy`). The one shared `requests.Session` is the class
  `Fetch.Session`. It holds its header map, the `_warmed_up` flag, and the
  log of every URL requested on it. The module also models:
  - `warmup_session`;
  - the rewrite of the desktop host `www.hibrain.net` to the mobile host;
  - the browser-like header set `fetch_page` merges into the session;
  - the retry loop of `fetch_page`. The loop retries on 403, 429, 503 and on
    a request exception, returns the text of a 200, and stops on any other
    status.

  The network is a parameter `net(url)(attempt)`, and so is `urlparse`.
- **Titles** (`titles.dfy`). `parse_titles`: the anchor texts, stripped the
  way `str.strip()` strips, with empty ones dropped. The HTML parser itself
  is a parameter: it gives the anchor texts of a page.
- **Scan** (`scan.dfy`). The keyword loop of `main` and the `detected` dict,
  kept with its insertion order. It comes with a page-by-page reference
  definition (`Scan.Expected`) of every keyword's list.
- **Mail** (`mail.dfy`). The part of `send_email` that comes before the SMTP
  server: the credentials check, the recipient list, and the plain-text body.
- **Notifier** (`notifier.dfy`). `main` as a whole, connecting the pieces
  above.
- **Text** (`text.dfy`). The Python string operations the program relies on:
  `strip`, `in`, `replace`, `split`, `join` and `str(int)`.

Some behaviour one might expect of such a notifier is absent from the code.
The model follows the code:

- Entries are not deduplicated. A page with several matching titles adds
  that many entries, up to `max_links`, and every one of them links to the
  configured page URL. They do not link to the matching anchors, and the URL
  is the configured one even when it was rewritten to the mobile host.
- No period is extracted. Every entry carries the placeholder "알 수 없음".
- The retry budget is `max_retries` requests. Nothing records a blocking
  status across targets, and when every fetch fails no failure or
  IP-block notice is sent: `Notifier.NothingFetchedNothingDetected` shows
  that nothing is detected then, so no mail goes out.
- The warm-up happens once per session, for the first URL fetched. It does
  not happen once per origin.
- No issue-tracker entry is created.

## Model

| member | source | states |
|---|---|---|
| Fetch.Session.constructor | main.py:39-45 | the session starts with the library's default headers, with the three base headers merged over them; it is not warmed up, and no request has been made |
| Fetch.Session.Warmup | main.py:52-65 | the first call logs one warm-up request to the URL's origin `scheme://netloc`; later calls request nothing; afterwards the flag is set, whether or not the request succeeded; the headers are untouched |
| Fetch.Session.FetchPage | main.py:71-129 | an empty URL returns nothing and changes nothing. Otherwise the request headers of the rewritten URL's origin are merged into the session, and the flag is set. The requests logged are the warm-up of the rewritten URL's origin, only if the session was not yet warmed up, then one request to the rewritten URL per attempt. The result is the text of the retry loop, as `Fetch.RetrySpec` characterises it |
| Fetch.PageRequestsSpec | main.py:71-129 | one `fetch_page` issues exactly one warm-up request when its URL is not empty and the session was not warmed up, and none otherwise; besides it, at most `max_retries` page requests |
| Fetch.LibraryDefaultsOverridden | main.py:39-45 | whatever the library's default headers are, after a page fetch on a fresh session the `User-Agent` is the configured or default agent and `Accept-Encoding` is `gzip, deflate, br`; `Accept` and `Accept-Language` keep the base values |
| Fetch.Session.RetryLoop | main.py:103-129 | one request per attempt, and the text returned is exactly what the retry specification gives for the outcomes of those attempts |
| Fetch.UserAgentOr | main.py:80-84 | the user agent is never empty; a configured non-empty agent is used as is, and otherwise the built-in browser agent |
| Fetch.RequestHeaders | main.py:86-98 | the merged set has exactly the nine headers; `User-Agent` is the given agent, `Origin` the given origin, and `Referer` the origin followed by `/recruitment` |
| Fetch.RewriteUrlSpec | main.py:75-78 | the URL changes if and only if its host is `www.hibrain.net` and it contains `://www.`; after the rewrite no `://www.` is left on that host; rewriting twice equals rewriting once |
| Fetch.RetryFromSpec | main.py:105-126 | from any attempt reached by retrying, the loop stays within the budget; it stops early only on a non-retryable answer, a 200 or any status other than 403, 429 and 503; it returns text exactly when its last request answered 200; it keeps the status of the latest response |
| Fetch.RetrySpec | main.py:103-129 | for every sequence of outcomes: at most `max_retries` requests, none when that is not positive; every request before the last one raised or answered 403, 429 or 503; an early stop is on a non-retryable answer; text is returned if and only if the last request answered 200, and it is that answer's text; `last_status` is the status of the latest response, and exceptions do not change it |
| Fetch.BlockedThenServed | main.py:105-123 | forced statuses 403, 403, 200 with three retries give the third text after exactly three requests |
| Fetch.BlockedThroughout | main.py:105-129 | forced statuses 403, 403, 403 with three retries give nothing after three requests, with 403 as the last status |
| Titles.ParseTitles | main.py:135-142 | the titles are the stripped anchor texts, in document order, with empty ones dropped; each is non-empty and carries no surrounding whitespace; there are no more titles than anchors |
| Text.Strip | main.py:139 | the result has no whitespace at either end, is no longer than the input, and holds only characters of the input |
| Text.StripUnpads | main.py:139 | `strip()` removes exactly a whitespace padding: a stripped text padded with whitespace on both sides strips back to itself |
| Text.StripIdempotent | main.py:139 | stripping twice equals stripping once |
| Text.StrippedNonEmpty | main.py:137-141 | no more outputs than inputs; every output is non-empty and stripped |
| Text.StrippedNonEmptyAppend | main.py:138-141 | the comprehension distributes over concatenation, so outputs follow input order |
| Text.StrippedNonEmptyMembers | main.py:138-141 | a text is kept if and only if it is non-empty and some input strips to it |
| Text.ContainsAt | main.py:243 | `kw in t` holds if and only if `kw` occurs in `t` at some position |
| Text.ContainsNotLonger | main.py:243 | a text contains no keyword longer than itself |
| Text.ReplaceAllAbsent | main.py:77 | `replace` changes nothing when the pattern does not occur |
| Text.ReplaceAllShrinks | main.py:77 | with a shorter replacement, `replace` never lengthens the text, and it shortens it when the pattern occurs |
| Text.Split | main.py:174 | `split(",")` gives at least one part, and no part holds a comma |
| Text.SplitJoin | main.py:174 | joining the parts of a split with the separator gives back the original text |
| Text.JoinSplit | main.py:204 | splitting a join of separator-free parts gives back the parts |
| Text.DecimalRoundTrip | main.py:195 | the digits written for a link number read back as that number |
| Scan.Matched | main.py:243 | no more matches than titles; every match contains the keyword |
| Scan.MatchedCount | main.py:243 | a title containing the keyword is kept as many times as it occurs among the titles; any other title is not kept |
| Scan.MatchedMembers | main.py:243 | a title is matched if and only if it is one of the titles and contains the keyword |
| Scan.UseCount | main.py:255-257 | the count never exceeds the number of matches; with a positive `MAX_LINKS` it is the smaller of the two, otherwise all matches; it is zero only when nothing matched |
| Scan.AppendSpec | main.py:247-248 | creating a list on first use and appending to it adds entries only under that keyword, and keeps `detected` a dict without empty lists |
| Scan.ScanKeywordsWellFormed | main.py:242-263 | the keyword loop keeps every key once, with the key order listing exactly the keys, and no list empty |
| Scan.AddMatchesGet | main.py:243-263 | one keyword pass adds `use_count` entries for this page under its keyword and nothing under any other |
| Scan.ScanKeywordsGet | main.py:242-263 | one page adds under `k` one batch of `use_count` entries for each time `k` is configured |
| Scan.ScanPagesSpec | main.py:232-263 | what `main` leaves in `detected` is a well-formed dict without empty lists, and each keyword's list equals the page-by-page reference list |
| Scan.DetectedKeys | main.py:247-248 | a keyword becomes a key if and only if its reference list is non-empty |
| Scan.MatchedKeywordReported | main.py:242-263 | a configured keyword that a title of some fetched page contains has a non-empty reference list and becomes a key; with `Scan.ExpectedEntries`, a keyword is a key exactly when it is configured and some fetched page has a title containing it |
| Scan.ExpectedEntries | main.py:259-263 | every entry carries the placeholder period, is under a configured keyword, and links to a fetched page with a title containing that keyword |
| Scan.OnePageCount | main.py:254-263 | for one page and a keyword configured once, the page adds `min(matches, MAX_LINKS)` entries when `MAX_LINKS > 0` and all matches otherwise, each one the page URL with the placeholder |
| Mail.RecipientsSpec | main.py:174 | every recipient is a non-empty stripped address without a comma; an address is a recipient if and only if some comma-separated part strips to it |
| Mail.LinkLinesSpec | main.py:193-195 | one link line per item, in item order, numbered consecutively |
| Mail.LinkLinesSnoc | main.py:193-195 | one more item adds one more link line, at the end, with the next number |
| Mail.BodyLinesSpec | main.py:178-202 | the body is the subject, a blank line, the keyword line, the link lines numbered from 1 in item order, and the six footer lines |
| Mail.LinkLineNumber | main.py:195 | the number written on a link line reads back as that number |
| Mail.BodySplitsIntoLines | main.py:204 | when the keyword, links and periods have no line break, splitting the mail body at line breaks gives back exactly its lines |
| Mail.BuildLines | main.py:178-202 | the lines built one by one are exactly the body lines described by `Mail.BodyLinesSpec` |
| Mail.SendEmail | main.py:162-209 | a message is produced if and only if user, password, recipients and sender are all set and non-empty. The sender is `SMTP_FROM`, defaulting to the user; the recipients are the stripped non-empty comma-separated addresses; the subject is fixed; the body is the lines joined with line breaks |
| Notifier.FetchTitles | main.py:235-240 | the page's titles are those of what `fetch_page` returned with the default retry budget, or nothing when it returned no text or an empty one; the session changes as one `fetch_page` changes it: headers, flag and the requests logged |
| Notifier.ScanPage | main.py:242-263 | the keyword loop on one page does what the keyword-loop specification says, including the inner loop that appends `use_count` entries |
| Notifier.AddKeywordMatches | main.py:243-263 | one keyword on one page does what one pass of the keyword-loop specification says: nothing without a match, otherwise the list is created on first use and `use_count` entries are appended |
| Notifier.AppendCopies | main.py:259-263 | the inner loop appends exactly `count` copies of the entry to the keyword's list and changes nothing else |
| Notifier.Collect | main.py:232-263 | the page loop leaves in `detected` what the page-loop specification gives for the configured URLs; the session ends with the headers of one `fetch_page` per URL in order, the flag set once any URL was non-empty, and exactly those fetches' requests appended to its log |
| Notifier.Visit | main.py:234-263 | one iteration of the page loop extends `detected`, the session headers, the flag and the request log from the first `i` URLs to the first `i + 1` |
| Notifier.RunWarmsUpOnce | main.py:52-65 | over a whole run the session is warmed up at most once: exactly once when it was not warmed up before and some configured URL is non-empty; besides that, each URL costs at most `max_retries` requests |
| Notifier.Notify | main.py:269-270 | one message per detected keyword, in the order the keywords were first detected; none without credentials |
| Notifier.Run | main.py:224-270 | no URLs means nothing is detected, nothing is sent and the session is untouched. Otherwise the session changes as in `Notifier.Collect`, and `detected` is the page-loop specification applied to the configured URLs; with credentials, exactly one message goes out per detected keyword, in detection order, with that keyword's entries; without credentials none goes out |
| Notifier.DetectedLinksConfigured | main.py:234-263 | every collected entry links to a configured URL whose fetch returned text with a title containing the keyword; it carries the placeholder period; its keyword is configured |
| Notifier.MatchedKeywordDetected | main.py:234-263 | a configured keyword that a title of some configured URL's fetched page contains is detected, with at least one entry |
| Notifier.NothingFetchedNothingDetected | main.py:234-238 | when no URL yields text, `detected` stays empty, so no mail is sent |

## Left out

- Fetch.Session.constructor: the default headers `requests.Session()` sets
  are a parameter, because they depend on the installed library version;
  `Fetch.LibraryDefaultsOverridden` shows which of them every page request
  overrides.
- HTTP itself is not modelled. This covers timeouts, cookies, and the content
  of the warm-up response. A response is a function of the requested URL and
  the attempt number only; it does not depend on the session's cookies or
  headers. So the header merge is recorded, but it has no effect on the
  results.
- The random delay before each attempt (`random.uniform`, `time.sleep`) is
  not modelled, because it does not affect any result.
- Printing and logging are not modelled. `last_status` is only ever printed,
  so `Fetch.Session.RetryLoop` does not return it; `Fetch.RetrySpec` states
  its value.
- `urlparse` is a parameter, because only its scheme and network location
  are read.
- BeautifulSoup is a parameter that gives the anchor texts of a page. An
  anchor whose text is `None` is given as the empty string.
- `load_config`, JSON decoding, and the defaults of `MAX_LINKS` (2) and
  `KEYWORDS` (empty) are not modelled; the configured values are parameters.
  `max_links` is taken to be an integer.
- Environment access is not modelled; the environment is the `Mail.Env`
  parameter. `SMTP_HOST` and `SMTP_PORT`, and the `ValueError` that
  `int(SMTP_PORT)` may raise, are not modelled.
- The delivery itself is not modelled: the SMTP connection, STARTTLS, login
  and `sendmail`, the caught delivery exception, `MIMEText`, `formataddr` and
  the `To` header. `Mail.SendEmail` returns the message it would hand over.
- The `isinstance(item, dict)` branches of `send_email` are not modelled,
  because `main` only ever passes dict entries.
- `SESSION.headers` is a case-insensitive dictionary. The model uses a plain
  map, because every header name the program writes differs from the others
  in more than case.

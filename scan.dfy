/**
  The keyword matching of `main`: for every page fetched with some text and
  every configured keyword, the titles containing the keyword are counted,
  the count is capped at `MAX_LINKS` when that is positive, and that many
  entries `{link: <page URL>, period: "알 수 없음"}` are appended to the
  keyword's list in `detected`. Entries are not deduplicated and carry no
  extracted period: every entry's link is the page URL itself.

  This module holds the specification of that loop; the loop itself is
  `Notifier.Run`.
*/
module Scan {
  import opened Wrappers
  import opened Text

  /** The period every entry carries ("unknown"). */
  const PeriodPlaceholder := "알 수 없음"

  /** One `{"link": ..., "period": ...}` entry of `detected`. */
  datatype Item = Item(link: string, period: string)

  /** The `detected` dict: its keys in insertion order and its values. */
  datatype Detected = Detected(keys: seq<string>, items: map<string, seq<Item>>)

  /** What a Python dict guarantees: each key once, and the key order lists
      exactly the keys of the map. */
  ghost predicate ValidDict(d: Detected) {
    (forall i, j :: 0 <= i < j < |d.keys| ==> d.keys[i] != d.keys[j]) &&
    (forall k :: k in d.items <==> k in d.keys)
  }

  /** Every list in `detected` has at least one entry. */
  ghost predicate NoEmptyList(d: Detected) {
    forall k :: k in d.items ==> d.items[k] != []
  }

  const NoneDetected := Detected([], map[])

  /** One configured URL as `main` sees it: its titles when `fetch_page`
      returned a non-empty text, `None` when the page was skipped. */
  datatype Page = Page(url: string, titles: Option<seq<string>>)

  /** `[t for t in titles if kw in t]`. */
  function Matched(titles: seq<string>, kw: string): (r: seq<string>)
    ensures |r| <= |titles|
    ensures forall t :: t in r ==> Contains(t, kw)
  {
    if titles == [] then []
    else
      var init, t := titles[..|titles| - 1], titles[|titles| - 1];
      assert titles == init + [t];
      Matched(init, kw) + (if Contains(t, kw) then [t] else [])
  }

  /** A title is matched exactly when it is one of the titles and contains
      the keyword. */
  lemma {:induction false} MatchedMembers(titles: seq<string>, kw: string, t: string)
    ensures t in Matched(titles, kw) <==> t in titles && Contains(t, kw)
    decreases |titles|
  {
    if titles != [] {
      var init := titles[..|titles| - 1];
      MatchedMembers(init, kw, t);
      assert titles == init + [titles[|titles| - 1]];
    }
  }

  /** Each title containing the keyword is kept as often as it occurs, and
      no other title is kept. */
  lemma {:induction false} MatchedCount(titles: seq<string>, kw: string, t: string)
    ensures multiset(Matched(titles, kw))[t] == if Contains(t, kw) then multiset(titles)[t] else 0
    decreases |titles|
  {
    if titles != [] {
      var init, last := titles[..|titles| - 1], titles[|titles| - 1];
      MatchedCount(init, kw, t);
      assert titles == init + [last];
    }
  }

  /** `use_count`: the number of matches, capped at `MAX_LINKS` only when
      `MAX_LINKS` is positive. */
  function UseCount(matches: nat, maxLinks: int): (n: nat)
    ensures n <= matches
    ensures maxLinks > 0 ==> n <= maxLinks && (n == matches || n == maxLinks)
    ensures maxLinks <= 0 ==> n == matches
    ensures n == 0 <==> matches == 0
  {
    if maxLinks > 0 && maxLinks < matches then maxLinks else matches
  }

  /** The entries of `d` under `k`, none when `k` is not a key. */
  function Get(d: Detected, k: string): seq<Item> {
    if k in d.items then d.items[k] else []
  }

  /** `if kw not in detected: detected[kw] = []` followed by appending `xs`. */
  function Append(d: Detected, kw: string, xs: seq<Item>): Detected {
    if kw in d.items then Detected(d.keys, d.items[kw := d.items[kw] + xs])
    else Detected(d.keys + [kw], d.items[kw := xs])
  }

  /** One pass of the keyword loop for page `url`. */
  function AddMatches(d: Detected, url: string, titles: seq<string>, kw: string, maxLinks: int): Detected {
    var matched := Matched(titles, kw);
    if matched == [] then d
    else Append(d, kw, Repeat(Item(url, PeriodPlaceholder), UseCount(|matched|, maxLinks)))
  }

  /** The keyword loop for one page: the keywords in configured order. */
  function ScanKeywords(d: Detected, url: string, titles: seq<string>, kws: seq<string>, maxLinks: int): Detected
    decreases |kws|
  {
    if kws == [] then d
    else AddMatches(ScanKeywords(d, url, titles, kws[..|kws| - 1], maxLinks), url, titles, kws[|kws| - 1], maxLinks)
  }

  /** The page loop of `main`, starting from an empty `detected`; skipped
      pages contribute nothing. */
  function ScanPages(pages: seq<Page>, kws: seq<string>, maxLinks: int): Detected
    decreases |pages|
  {
    if pages == [] then NoneDetected
    else
      var d := ScanPages(pages[..|pages| - 1], kws, maxLinks);
      var p := pages[|pages| - 1];
      if p.titles.None? then d else ScanKeywords(d, p.url, p.titles.value, kws, maxLinks)
  }

  /** Reference definition of one keyword's list, page by page: a fetched
      page contributes, for each time `k` is configured, as many entries
      linking to that page as it has titles containing `k` (capped). */
  function Expected(pages: seq<Page>, kws: seq<string>, k: string, maxLinks: int): seq<Item>
    decreases |pages|
  {
    if pages == [] then []
    else
      var p := pages[|pages| - 1];
      Expected(pages[..|pages| - 1], kws, k, maxLinks) +
      (if p.titles.None? then []
       else Repeat(Item(p.url, PeriodPlaceholder), multiset(kws)[k] * UseCount(|Matched(p.titles.value, k)|, maxLinks)))
  }

  lemma AppendSpec(d: Detected, kw: string, xs: seq<Item>, k: string)
    ensures Get(Append(d, kw, xs), k) == Get(d, k) + (if k == kw then xs else [])
    ensures ValidDict(d) ==> ValidDict(Append(d, kw, xs))
    ensures NoEmptyList(d) && xs != [] ==> NoEmptyList(Append(d, kw, xs))
  {
  }

  /** The keyword loop keeps `detected` a dict without empty lists. */
  lemma {:induction false} ScanKeywordsWellFormed(d: Detected, url: string, titles: seq<string>, kws: seq<string>, maxLinks: int)
    requires ValidDict(d) && NoEmptyList(d)
    ensures var d' := ScanKeywords(d, url, titles, kws, maxLinks);
      ValidDict(d') && NoEmptyList(d')
    decreases |kws|
  {
    if kws != [] {
      var init, kw := kws[..|kws| - 1], kws[|kws| - 1];
      ScanKeywordsWellFormed(d, url, titles, init, maxLinks);
      var d0 := ScanKeywords(d, url, titles, init, maxLinks);
      var matched := Matched(titles, kw);
      if matched != [] {
        AppendSpec(d0, kw, Repeat(Item(url, PeriodPlaceholder), UseCount(|matched|, maxLinks)), kw);
      }
    }
  }

  lemma MulSucc(a: nat, n: nat)
    ensures a * n + n == (a + 1) * n
  {
  }

  /** One pass of the keyword loop adds this page's batch under its own
      keyword and nothing under any other. */
  lemma AddMatchesGet(d: Detected, url: string, titles: seq<string>, kw: string, maxLinks: int, k: string)
    ensures Get(AddMatches(d, url, titles, kw, maxLinks), k) ==
      Get(d, k) + (if k == kw then Repeat(Item(url, PeriodPlaceholder), UseCount(|Matched(titles, k)|, maxLinks)) else [])
  {
    var matched := Matched(titles, kw);
    if matched != [] {
      AppendSpec(d, kw, Repeat(Item(url, PeriodPlaceholder), UseCount(|matched|, maxLinks)), k);
    } else {
      assert Repeat(Item(url, PeriodPlaceholder), 0) == [];
      assert Get(d, k) + [] == Get(d, k);
    }
  }

  /** The keyword loop adds, under `k`, one batch of entries for this page
      per occurrence of `k` among the keywords. */
  lemma {:induction false} ScanKeywordsGet(d: Detected, url: string, titles: seq<string>, kws: seq<string>, maxLinks: int, k: string)
    ensures Get(ScanKeywords(d, url, titles, kws, maxLinks), k) ==
      Get(d, k) + Repeat(Item(url, PeriodPlaceholder), multiset(kws)[k] * UseCount(|Matched(titles, k)|, maxLinks))
    decreases |kws|
  {
    var item := Item(url, PeriodPlaceholder);
    var n := UseCount(|Matched(titles, k)|, maxLinks);
    if kws == [] {
      assert Get(d, k) + Repeat(item, 0) == Get(d, k);
    } else {
      var init, kw := kws[..|kws| - 1], kws[|kws| - 1];
      var a := multiset(init)[k];
      var d0 := ScanKeywords(d, url, titles, init, maxLinks);
      ScanKeywordsGet(d, url, titles, init, maxLinks, k);
      AddMatchesGet(d0, url, titles, kw, maxLinks, k);
      CountSnoc(kws, k);
      BatchSnoc(Get(d, k), item, a, n, k == kw);
    }
  }

  /** Counting `k` in a sequence one element at a time from the end. */
  lemma CountSnoc(kws: seq<string>, k: string)
    requires kws != []
    ensures multiset(kws)[k] == multiset(kws[..|kws| - 1])[k] + (if k == kws[|kws| - 1] then 1 else 0)
  {
    assert kws == kws[..|kws| - 1] + [kws[|kws| - 1]];
  }

  /** `a` batches of `n` entries followed by one more batch, or none. */
  lemma BatchSnoc(prefix: seq<Item>, item: Item, a: nat, n: nat, more: bool)
    ensures prefix + Repeat(item, a * n) + (if more then Repeat(item, n) else []) ==
      prefix + Repeat(item, (a + (if more then 1 else 0)) * n)
  {
    if more {
      RepeatAdd(item, a * n, n);
      MulSucc(a, n);
    }
  }

  /** What `main` leaves in `detected`: a well-formed dict in which a
      keyword is a key exactly when some fetched page has a title containing
      it, and whose list for each key is the reference list above. */
  lemma {:induction false} ScanPagesSpec(pages: seq<Page>, kws: seq<string>, maxLinks: int, k: string)
    ensures var d := ScanPages(pages, kws, maxLinks);
      ValidDict(d) && NoEmptyList(d) && Get(d, k) == Expected(pages, kws, k, maxLinks)
    decreases |pages|
  {
    if pages != [] {
      var init := pages[..|pages| - 1];
      var p := pages[|pages| - 1];
      ScanPagesSpec(init, kws, maxLinks, k);
      if p.titles.Some? {
        var d := ScanPages(init, kws, maxLinks);
        ScanKeywordsWellFormed(d, p.url, p.titles.value, kws, maxLinks);
        ScanKeywordsGet(d, p.url, p.titles.value, kws, maxLinks, k);
      }
    }
  }

  /** A keyword gets a key exactly when its reference list is not empty,
      that is when some fetched page has a title containing it. */
  lemma DetectedKeys(pages: seq<Page>, kws: seq<string>, maxLinks: int, k: string)
    ensures var d := ScanPages(pages, kws, maxLinks);
      ValidDict(d) &&
      (k in d.items <==> Expected(pages, kws, k, maxLinks) != []) &&
      (k in d.items ==> d.items[k] == Expected(pages, kws, k, maxLinks))
  {
    ScanPagesSpec(pages, kws, maxLinks, k);
  }

  lemma PositiveProduct(a: nat, n: nat)
    ensures a * n > 0 <==> a > 0 && n > 0
  {
  }

  /** Every entry of a keyword's reference list links to a page that was
      fetched and has a title containing the keyword, carries the placeholder
      period, and the keyword is one of the configured ones. */
  lemma {:induction false} ExpectedEntries(pages: seq<Page>, kws: seq<string>, k: string, maxLinks: int, e: Item)
    requires e in Expected(pages, kws, k, maxLinks)
    ensures e.period == PeriodPlaceholder && k in kws
    ensures exists p :: p in pages && p.url == e.link && p.titles.Some? && Matched(p.titles.value, k) != []
    decreases |pages|
  {
    var init := pages[..|pages| - 1];
    var p := pages[|pages| - 1];
    assert p in pages;
    if e in Expected(init, kws, k, maxLinks) {
      ExpectedEntries(init, kws, k, maxLinks, e);
      var q :| q in init && q.url == e.link && q.titles.Some? && Matched(q.titles.value, k) != [];
      assert q in pages;
    } else {
      var a := multiset(kws)[k];
      var n := UseCount(|Matched(p.titles.value, k)|, maxLinks);
      var tail := Repeat(Item(p.url, PeriodPlaceholder), a * n);
      assert e in tail;
      PositiveProduct(a, n);
    }
  }

  /** The converse of `ExpectedEntries`: a configured keyword that some
      fetched page has a title containing gets a non-empty list, so `main`
      reports every keyword that matched anywhere. */
  lemma {:induction false} MatchedKeywordReported(pages: seq<Page>, kws: seq<string>, k: string, maxLinks: int, p: Page)
    requires k in kws && p in pages && p.titles.Some? && Matched(p.titles.value, k) != []
    ensures Expected(pages, kws, k, maxLinks) != []
    ensures k in ScanPages(pages, kws, maxLinks).items
    decreases |pages|
  {
    var init, last := pages[..|pages| - 1], pages[|pages| - 1];
    assert pages == init + [last];
    if p == last {
      var a := multiset(kws)[k];
      var n := UseCount(|Matched(p.titles.value, k)|, maxLinks);
      PositiveProduct(a, n);
      assert |Repeat(Item(p.url, PeriodPlaceholder), a * n)| > 0;
    } else {
      assert p in init;
      MatchedKeywordReported(init, kws, k, maxLinks, p);
    }
    DetectedKeys(pages, kws, maxLinks, k);
  }

  /** For one fetched page and a keyword configured once, the page adds
      `min(#titles containing kw, MAX_LINKS)` entries when `MAX_LINKS > 0`
      and one per matching title otherwise, all linking to that page. */
  lemma OnePageCount(url: string, titles: seq<string>, kws: seq<string>, maxLinks: int, k: string)
    requires multiset(kws)[k] == 1
    ensures var e := Expected([Page(url, Some(titles))], kws, k, maxLinks);
      var m := |Matched(titles, k)|;
      |e| == (if maxLinks > 0 && maxLinks < m then maxLinks else m) &&
      forall i :: 0 <= i < |e| ==> e[i] == Item(url, PeriodPlaceholder)
  {
    assert [Page(url, Some(titles))][..0] == [];
  }
}

/**
 * The records of one results page (`extract_listings`) and the walk over
 * a county's result pages (`scrape_county`).
 *
 * The browser is not modelled. A page is what loading its URL gives: a
 * failure, or the listing cards it shows and whether it links to a next
 * page. `fetch` maps each URL to that outcome.
 */
module Listings {
  import opened Text
  import opened Decimal
  import opened Catalog
  import opened Records
  import opened Paging

  /** A record is stored when its title is truthy: present and not empty. */
  predicate HasTitle(b: Business) {
    b.title.Some? && b.title.value != []
  }

  /** A card gives a stored record exactly when it has a title that is not
      all white space. */
  lemma TitleKept(card: Card, county: County, now: Clock)
    ensures HasTitle(Record(card, county, now)) <==> card.title.Some? && !AllSpace(card.title.value)
  {
    if card.title.Some? {
      StripEmptyIff(card.title.value);
    }
  }

  /** The records that have a title, in order. */
  function Titled(bs: seq<Business>): (r: seq<Business>)
    ensures |r| <= |bs|
    ensures forall b :: b in r ==> b in bs && HasTitle(b)
  {
    if bs == [] then []
    else Titled(bs[..|bs| - 1]) + (if HasTitle(bs[|bs| - 1]) then [bs[|bs| - 1]] else [])
  }

  /** Filtering is done record by record: two pieces are filtered
      independently, in order. */
  lemma {:induction false} TitledAppend(a: seq<Business>, b: seq<Business>)
    ensures Titled(a + b) == Titled(a) + Titled(b)
  {
    if b == [] {
      assert a + b == a;
    } else {
      assert (a + b)[..|a + b| - 1] == a + b[..|b| - 1];
      TitledAppend(a, b[..|b| - 1]);
    }
  }

  /** A record is kept exactly when it is one of the records and has a
      title. */
  lemma {:induction false} TitledMember(bs: seq<Business>, b: Business)
    ensures b in Titled(bs) <==> b in bs && HasTitle(b)
  {
    if bs != [] {
      TitledMember(bs[..|bs| - 1], b);
      assert bs == bs[..|bs| - 1] + [bs[|bs| - 1]];
    }
  }

  /** When every record has a title, all are kept. */
  lemma {:induction false} TitledAll(bs: seq<Business>)
    requires forall i :: 0 <= i < |bs| ==> HasTitle(bs[i])
    ensures Titled(bs) == bs
  {
    if bs != [] {
      var init, last := bs[..|bs| - 1], bs[|bs| - 1];
      forall i | 0 <= i < |init| ensures HasTitle(init[i]) {
        assert init[i] == bs[i];
      }
      TitledAll(init);
      assert HasTitle(last);
      assert init + [last] == bs;
    }
  }

  /** The record of every card, in card order. */
  function RecordsOf(cards: seq<Card>, county: County, now: Clock): (bs: seq<Business>)
    ensures |bs| == |cards|
  {
    if cards == [] then []
    else RecordsOf(cards[..|cards| - 1], county, now) + [Record(cards[|cards| - 1], county, now)]
  }

  lemma {:induction false} RecordsOfAt(cards: seq<Card>, county: County, now: Clock, i: nat)
    requires i < |cards|
    ensures RecordsOf(cards, county, now)[i] == Record(cards[i], county, now)
  {
    if i < |cards| - 1 {
      RecordsOfAt(cards[..|cards| - 1], county, now, i);
    }
  }

  lemma {:induction false} RecordsOfAppend(a: seq<Card>, b: seq<Card>, county: County, now: Clock)
    ensures RecordsOf(a + b, county, now) == RecordsOf(a, county, now) + RecordsOf(b, county, now)
  {
    if b == [] {
      assert a + b == a;
    } else {
      assert (a + b)[..|a + b| - 1] == a + b[..|b| - 1];
      assert (a + b)[|a + b| - 1] == b[|b| - 1];
      RecordsOfAppend(a, b[..|b| - 1], county, now);
    }
  }

  /** The records of the cards that have a title, in card order. */
  function Kept(cards: seq<Card>, county: County, now: Clock): seq<Business>
  {
    Titled(RecordsOf(cards, county, now))
  }

  /** Keeping is done card by card: the cards of two pieces are kept
      independently, in order. */
  lemma KeptAppend(a: seq<Card>, b: seq<Card>, county: County, now: Clock)
    ensures Kept(a + b, county, now) == Kept(a, county, now) + Kept(b, county, now)
  {
    RecordsOfAppend(a, b, county, now);
    TitledAppend(RecordsOf(a, county, now), RecordsOf(b, county, now));
  }

  /** One more card: its record is stored after the others when it has a
      title. */
  lemma KeptSnoc(cards: seq<Card>, i: nat, county: County, now: Clock)
    requires i < |cards|
    ensures var b := Record(cards[i], county, now);
            Kept(cards[..i + 1], county, now) == Kept(cards[..i], county, now) + (if HasTitle(b) then [b] else [])
  {
    var prefix := cards[..i + 1];
    assert prefix[..i] == cards[..i] && prefix[i] == cards[i];
    assert RecordsOf(prefix, county, now) == RecordsOf(cards[..i], county, now) + [Record(cards[i], county, now)];
  }

  /** A stored record is the record of one of the cards, and has a title;
      the record of every card with a title is stored. */
  lemma KeptMember(cards: seq<Card>, county: County, now: Clock, b: Business)
    ensures b in Kept(cards, county, now) <==>
            HasTitle(b) && exists i :: 0 <= i < |cards| && b == Record(cards[i], county, now)
  {
    TitledMember(RecordsOf(cards, county, now), b);
    RecordsOfMember(cards, county, now, b);
  }

  lemma RecordsOfMember(cards: seq<Card>, county: County, now: Clock, b: Business)
    ensures b in RecordsOf(cards, county, now) <==>
            exists i :: 0 <= i < |cards| && b == Record(cards[i], county, now)
  {
    var bs := RecordsOf(cards, county, now);
    if b in bs {
      var i :| 0 <= i < |bs| && bs[i] == b;
      RecordsOfAt(cards, county, now, i);
    }
    if exists i :: 0 <= i < |cards| && b == Record(cards[i], county, now) {
      var i :| 0 <= i < |cards| && b == Record(cards[i], county, now);
      RecordsOfAt(cards, county, now, i);
      assert bs[i] == b;
    }
  }

  /** When every card has a title, every card gives a stored record. */
  lemma KeptAll(cards: seq<Card>, county: County, now: Clock)
    requires forall i :: 0 <= i < |cards| ==> cards[i].title.Some? && !AllSpace(cards[i].title.value)
    ensures |Kept(cards, county, now)| == |cards|
  {
    var bs := RecordsOf(cards, county, now);
    forall i | 0 <= i < |bs| ensures HasTitle(bs[i]) {
      RecordsOfAt(cards, county, now, i);
      TitleKept(cards[i], county, now);
    }
    TitledAll(bs);
  }

  /**
   * `extract_listings`: build the record of every card, in order, and
   * store the ones with a title.
   */
  method ExtractListings(cards: seq<Card>, county: County, now: Clock) returns (bs: seq<Business>)
    ensures bs == Kept(cards, county, now)
  {
    bs := [];
    var i := 0;
    while i < |cards|
      invariant 0 <= i <= |cards|
      invariant bs == Kept(cards[..i], county, now)
    {
      var b := ExtractBusinessData(cards[i], county, now);
      if HasTitle(b) {
        bs := bs + [b];
      }
      KeptSnoc(cards, i, county, now);
      i := i + 1;
    }
    assert cards[..i] == cards;
  }

  /** What loading one results page gives. */
  datatype Page = Failed | Loaded(cards: seq<Card>, hasNext: bool)

  /** The URL of result page `n`: the county URL itself for the first page,
      with a `?page=n` query for the others. */
  function PageUrl(url: string, n: nat): (u: string)
    ensures url <= u
    ensures n == 1 ==> u == url
    ensures n != 1 ==> u == url + "?page=" + Numeral(n)
  {
    if n == 1 then url else url + "?page=" + Numeral(n)
  }

  /** Different page numbers give different URLs. */
  lemma PageUrlInjective(url: string, m: nat, n: nat)
    requires m >= 1 && n >= 1
    requires PageUrl(url, m) == PageUrl(url, n)
    ensures m == n
  {
    if m != 1 && n != 1 {
      var q := url + "?page=";
      assert PageUrl(url, m)[|q|..] == Numeral(m);
      assert PageUrl(url, n)[|q|..] == Numeral(n);
      NumeralInjective(m, n);
    }
  }

  /** The records a loaded page contributes. */
  function Collected(page: Page, county: County, now: Clock): seq<Business>
  {
    if page.Loaded? then Kept(page.cards, county, now) else []
  }

  /** The walk goes on after a page that loaded, gave records and links to a
      next page. */
  predicate Continues(page: Page, county: County, now: Clock) {
    page.Loaded? && Kept(page.cards, county, now) != [] && page.hasNext
  }

  /** Loading result page `n` of the county URL. */
  function Loader(fetch: string -> Page, url: string): nat -> Page {
    (n: nat) => fetch(PageUrl(url, n))
  }

  function GoOn(county: County, now: Clock): Page -> bool {
    page => Continues(page, county, now)
  }

  function Gain(county: County, now: Clock): Page -> seq<Business> {
    page => Collected(page, county, now)
  }

  /**
   * The records of the walk over pages 1 to `max`: a page that fails or
   * gives no record ends the walk and adds nothing; a page without a next
   * link ends it after adding its records.
   */
  function Crawl(fetch: string -> Page, url: string, county: County, now: Clock, max: nat): seq<Business>
  {
    Walk(Loader(fetch, url), GoOn(county, now), Gain(county, now), 1, max)
  }

  /** The URLs the walk loads, in order. */
  function Visited(fetch: string -> Page, url: string, county: County, now: Clock, max: nat): (us: seq<string>)
    ensures |us| == |Loads(Loader(fetch, url), GoOn(county, now), 1, max)|
  {
    var pages := Loads(Loader(fetch, url), GoOn(county, now), 1, max);
    seq(|pages|, i requires 0 <= i < |pages| => PageUrl(url, pages[i]))
  }

  /** The walk loads at most `max` pages. */
  lemma VisitedBound(fetch: string -> Page, url: string, county: County, now: Clock, max: nat)
    ensures |Visited(fetch, url, county, now, max)| <= max
  {
    LoadsBound(Loader(fetch, url), GoOn(county, now), 1, max);
  }

  /** The `k`-th URL the walk loads is that of page `k + 1`; so no URL is
      loaded twice. */
  lemma VisitedUrls(fetch: string -> Page, url: string, county: County, now: Clock, max: nat)
    ensures var us := Visited(fetch, url, county, now, max);
      && (forall k :: 0 <= k < |us| ==> us[k] == PageUrl(url, k + 1))
      && (forall j, k :: 0 <= j < k < |us| ==> us[j] != us[k])
  {
    var us := Visited(fetch, url, county, now, max);
    forall k | 0 <= k < |us| ensures us[k] == PageUrl(url, k + 1) {
      LoadsAt(Loader(fetch, url), GoOn(county, now), 1, max, k);
    }
    forall j, k | 0 <= j < k < |us| ensures us[j] != us[k] {
      if us[j] == us[k] {
        PageUrlInjective(url, j + 1, k + 1);
      }
    }
  }

  /** Every page loaded before the last one loaded, gave records and links
      to a next page. */
  lemma VisitedGoesOn(fetch: string -> Page, url: string, county: County, now: Clock, max: nat, k: nat)
    requires k + 1 < |Visited(fetch, url, county, now, max)|
    ensures Continues(fetch(PageUrl(url, k + 1)), county, now)
  {
    LoadsGoOn(Loader(fetch, url), GoOn(county, now), 1, max, k);
  }

  /** The walk stops before page `max` only at a page that failed, gave no
      record or has no next link. */
  lemma VisitedEndsEarly(fetch: string -> Page, url: string, county: County, now: Clock, max: nat)
    requires 0 < |Visited(fetch, url, county, now, max)| < max
    ensures !Continues(fetch(PageUrl(url, |Visited(fetch, url, county, now, max)|)), county, now)
  {
    var n := |Visited(fetch, url, county, now, max)|;
    LoadsEndEarly(Loader(fetch, url), GoOn(county, now), 1, max, n - 1);
  }

  /** The records of the walk are those of the pages it loaded, in order;
      a page that failed adds nothing. */
  lemma CrawlGathers(fetch: string -> Page, url: string, county: County, now: Clock, max: nat)
    ensures Crawl(fetch, url, county, now, max) ==
            Gather(Loader(fetch, url), Gain(county, now), Loads(Loader(fetch, url), GoOn(county, now), 1, max))
  {
    WalkGathers(Loader(fetch, url), GoOn(county, now), Gain(county, now), 1, max);
  }

  /** Every record the walk collects is the record of a titled card of one
      of the pages, and so carries the county it was collected for. */
  lemma CrawlCounty(fetch: string -> Page, url: string, county: County, now: Clock, max: nat, b: Business)
    requires b in Crawl(fetch, url, county, now, max)
    ensures HasTitle(b)
    ensures b.county == county.name && b.countyId == county.id && b.region == county.region
    ensures b.location == county.name + ", Florida" && b.multiplier == Unset
  {
    var load := Loader(fetch, url);
    WalkMember(load, GoOn(county, now), Gain(county, now), 1, max, b);
    var m :| 1 <= m <= max && b in Gain(county, now)(load(m));
    var page := load(m);
    assert page.Loaded? && b in Kept(page.cards, county, now);
    KeptMember(page.cards, county, now, b);
    var i :| 0 <= i < |page.cards| && b == Record(page.cards[i], county, now);
    RecordFields(page.cards[i], county, now);
  }

  /** The records a page contributes to the walk from page `n` on. */
  lemma WalkStep(fetch: string -> Page, url: string, county: County, now: Clock, n: nat, max: nat)
    requires 1 <= n <= max
    ensures var page := fetch(PageUrl(url, n));
            Walk(Loader(fetch, url), GoOn(county, now), Gain(county, now), n, max) ==
              if Continues(page, county, now) then
                Collected(page, county, now) + Walk(Loader(fetch, url), GoOn(county, now), Gain(county, now), n + 1, max)
              else Collected(page, county, now)
  {
  }

  /**
   * One pass of the page loop of `scrape_county`: load page `n`; a page that
   * fails or gives no record stops the walk and adds nothing, any other page
   * adds its records and stops the walk when it has no next link.
   */
  method VisitPage(fetch: string -> Page, url: string, county: County, now: Clock, n: nat)
    returns (found: seq<Business>, stop: bool)
    ensures found == Collected(fetch(PageUrl(url, n)), county, now)
    ensures stop <==> !Continues(fetch(PageUrl(url, n)), county, now)
  {
    var page := fetch(PageUrl(url, n));
    if page.Failed? {
      return [], true;
    }
    found := ExtractListings(page.cards, county, now);
    if found == [] {
      return [], true;
    }
    stop := !page.hasNext;
  }

  /**
   * `scrape_county`: load pages 1 to `max` in turn, stopping at a page that
   * fails to load, at a page without records, and after a page without a
   * next link. The result is the records of the walk, and the pages loaded
   * are those of the walk.
   */
  method ScrapeCounty(fetch: string -> Page, url: string, county: County, now: Clock, max: nat)
    returns (bs: seq<Business>, ghost loaded: seq<nat>)
    ensures bs == Crawl(fetch, url, county, now, max)
    ensures loaded == Loads(Loader(fetch, url), GoOn(county, now), 1, max)
  {
    bs, loaded := [], [];
    var pageNum: nat := 1;
    while pageNum <= max
      invariant 1 <= pageNum
      invariant bs + Walk(Loader(fetch, url), GoOn(county, now), Gain(county, now), pageNum, max) ==
                Crawl(fetch, url, county, now, max)
      invariant loaded + Loads(Loader(fetch, url), GoOn(county, now), pageNum, max) ==
                Loads(Loader(fetch, url), GoOn(county, now), 1, max)
      decreases max + 1 - pageNum
    {
      var found, stop := VisitPage(fetch, url, county, now, pageNum);
      Advance(fetch, url, county, now, pageNum, max, bs, loaded, found, stop);
      bs := bs + found;
      loaded := loaded + [pageNum];
      if stop {
        break;
      }
      pageNum := pageNum + 1;
    }
  }

  /** The pages the walk loads from page `n` on: page `n`, then, when it
      lets the walk go on, those from page `n + 1` on. */
  lemma LoadStep(fetch: string -> Page, url: string, county: County, now: Clock, n: nat, max: nat)
    requires 1 <= n <= max
    ensures Loads(Loader(fetch, url), GoOn(county, now), n, max) ==
              [n] + (if Continues(fetch(PageUrl(url, n)), county, now)
                     then Loads(Loader(fetch, url), GoOn(county, now), n + 1, max) else [])
  {
  }

  /** One pass of the page loop keeps its two invariants: the records kept
      so far followed by the rest of the walk are the whole walk, and so are
      the pages loaded so far followed by those the walk still loads; when
      the page stops the walk, what was kept is the whole walk. */
  lemma Advance(fetch: string -> Page, url: string, county: County, now: Clock, n: nat, max: nat,
                bs: seq<Business>, loaded: seq<nat>, found: seq<Business>, stop: bool)
    requires 1 <= n <= max
    requires found == Collected(fetch(PageUrl(url, n)), county, now)
    requires stop <==> !Continues(fetch(PageUrl(url, n)), county, now)
    requires bs + Walk(Loader(fetch, url), GoOn(county, now), Gain(county, now), n, max) ==
             Crawl(fetch, url, county, now, max)
    requires loaded + Loads(Loader(fetch, url), GoOn(county, now), n, max) ==
             Loads(Loader(fetch, url), GoOn(county, now), 1, max)
    ensures stop ==> bs + found == Crawl(fetch, url, county, now, max)
    ensures stop ==> loaded + [n] == Loads(Loader(fetch, url), GoOn(county, now), 1, max)
    ensures !stop ==> (bs + found) + Walk(Loader(fetch, url), GoOn(county, now), Gain(county, now), n + 1, max) ==
                      Crawl(fetch, url, county, now, max)
    ensures !stop ==> (loaded + [n]) + Loads(Loader(fetch, url), GoOn(county, now), n + 1, max) ==
                      Loads(Loader(fetch, url), GoOn(county, now), 1, max)
  {
    WalkStep(fetch, url, county, now, n, max);
    LoadStep(fetch, url, county, now, n, max);
    AppendAssoc(bs, found, Walk(Loader(fetch, url), GoOn(county, now), Gain(county, now), n + 1, max));
    AppendAssoc(loaded, [n], Loads(Loader(fetch, url), GoOn(county, now), n + 1, max));
  }
}

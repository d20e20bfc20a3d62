/**
 * The scraper object (`BizBuySellFloridaScraper`): its configuration, the
 * records it has gathered, and a run of `scrape` — the county loop, the
 * category filter and the multiplier pass.
 */
module Scraper {
  import opened Wrappers
  import opened Catalog
  import opened Metrics
  import opened Records
  import opened Listings
  import opened Paging

  /** The results URL of a county. */
  function CountyUrl(id: string): string
  {
    BaseUrl + "/florida/" + id + "-county-businesses-for-sale/"
  }

  /** Different county ids have different results URLs. */
  lemma CountyUrlInjective(a: string, b: string)
    requires CountyUrl(a) == CountyUrl(b)
    ensures a == b
  {
    var p := BaseUrl + "/florida/";
    var q := "-county-businesses-for-sale/";
    assert CountyUrl(a) == p + a + q;
    assert CountyUrl(b) == p + b + q;
    assert a == CountyUrl(a)[|p|..|p| + |a|];
    assert b == CountyUrl(b)[|p|..|p| + |b|];
  }

  /** The records collected for one selected county id: nothing for an id
      the catalog does not hold. */
  function CountyRecords(regions: seq<Region>, id: string, fetch: string -> Page, now: Clock, max: nat): seq<Business>
  {
    match Lookup(regions, id)
    case None => []
    case Some(county) => Crawl(fetch, CountyUrl(id), county, now, max)
  }

  /** The records collected for the selected county ids, in the order of
      the ids. */
  function Collect(regions: seq<Region>, ids: seq<string>, fetch: string -> Page, now: Clock, max: nat): seq<Business>
  {
    if ids == [] then []
    else Collect(regions, ids[..|ids| - 1], fetch, now, max) + CountyRecords(regions, ids[|ids| - 1], fetch, now, max)
  }

  /** One turn of the county loop of `scrape`: look the id up in the
      catalog, skip it when it is not there, loading no page, otherwise walk
      the pages of the county's results URL. */
  method ScrapeSelectedCounty(regions: seq<Region>, id: string, fetch: string -> Page, now: Clock, max: nat)
    returns (found: seq<Business>, ghost loaded: seq<nat>)
    ensures found == CountyRecords(regions, id, fetch, now, max)
    ensures Lookup(regions, id).None? ==> loaded == []
    ensures Lookup(regions, id).Some? ==>
              loaded == Loads(Loader(fetch, CountyUrl(id)), GoOn(Lookup(regions, id).value, now), 1, max)
  {
    var info := Lookup(regions, id);
    if info.None? {
      return [], [];
    }
    var url := CountyUrl(id);
    found, loaded := ScrapeCounty(fetch, url, info.value, now, max);
  }

  /** One more selected id: its records come after the others. */
  lemma CollectSnoc(regions: seq<Region>, ids: seq<string>, i: nat, fetch: string -> Page, now: Clock, max: nat)
    requires i < |ids|
    ensures Collect(regions, ids[..i + 1], fetch, now, max) ==
            Collect(regions, ids[..i], fetch, now, max) + CountyRecords(regions, ids[i], fetch, now, max)
  {
    var prefix := ids[..i + 1];
    assert prefix[..i] == ids[..i] && prefix[i] == ids[i];
  }

  /** Every collected record belongs to a selected county of the catalog
      and carries that county's name, id and region. */
  lemma {:induction false} CollectCounties(regions: seq<Region>, ids: seq<string>, fetch: string -> Page, now: Clock, max: nat, b: Business)
    requires b in Collect(regions, ids, fetch, now, max)
    ensures b.countyId in ids && HasTitle(b)
    ensures Lookup(regions, b.countyId).Some?
    ensures var c := Lookup(regions, b.countyId).value;
            b.county == c.name && b.region == c.region && b.location == c.name + ", Florida"
  {
    var init, id := ids[..|ids| - 1], ids[|ids| - 1];
    if b in Collect(regions, init, fetch, now, max) {
      CollectCounties(regions, init, fetch, now, max, b);
    } else {
      var county := Lookup(regions, id).value;
      CrawlCounty(fetch, CountyUrl(id), county, now, max, b);
    }
  }

  /** A record is dropped by the category filter when its category is one
      of the excluded ones; a record without a category is never dropped. */
  predicate Excluded(b: Business, excluded: seq<string>) {
    b.niche.Some? && b.niche.value in excluded
  }

  /** The records whose category is not excluded, in order. */
  function Filtered(bs: seq<Business>, excluded: seq<string>): (r: seq<Business>)
    ensures |r| <= |bs|
  {
    if bs == [] then []
    else
      var last := bs[|bs| - 1];
      Filtered(bs[..|bs| - 1], excluded) + (if Excluded(last, excluded) then [] else [last])
  }

  /** The filter keeps exactly the records that are not excluded. */
  lemma {:induction false} FilteredMember(bs: seq<Business>, excluded: seq<string>, b: Business)
    ensures b in Filtered(bs, excluded) <==> b in bs && !Excluded(b, excluded)
  {
    if bs != [] {
      FilteredMember(bs[..|bs| - 1], excluded, b);
      assert bs == bs[..|bs| - 1] + [bs[|bs| - 1]];
    }
  }

  /** The filter works record by record and keeps their order. */
  lemma {:induction false} FilteredAppend(a: seq<Business>, b: seq<Business>, excluded: seq<string>)
    ensures Filtered(a + b, excluded) == Filtered(a, excluded) + Filtered(b, excluded)
  {
    if b == [] {
      assert a + b == a;
    } else {
      assert (a + b)[..|a + b| - 1] == a + b[..|b| - 1];
      FilteredAppend(a, b[..|b| - 1], excluded);
    }
  }

  /** With nothing excluded the filter keeps everything, which is why the
      scraper skips it then. */
  lemma {:induction false} FilteredNothing(bs: seq<Business>)
    ensures Filtered(bs, []) == bs
  {
    if bs != [] {
      FilteredNothing(bs[..|bs| - 1]);
    }
  }

  /** A record with its multiplier computed from its revenue and cash flow. */
  function Priced(b: Business): (r: Business)
    ensures r.multiplier == Set(Multiplier(b.revenue, b.sde))
    ensures r.(multiplier := b.multiplier) == b
  {
    b.(multiplier := Set(Multiplier(b.revenue, b.sde)))
  }

  /** Every record with its multiplier computed. */
  function PricedAll(bs: seq<Business>): (r: seq<Business>)
    ensures |r| == |bs|
    ensures forall i :: 0 <= i < |bs| ==> r[i] == Priced(bs[i])
  {
    seq(|bs|, i requires 0 <= i < |bs| => Priced(bs[i]))
  }

  /** Computing the multipliers a second time changes nothing. */
  lemma PricedAllIdempotent(bs: seq<Business>)
    ensures PricedAll(PricedAll(bs)) == PricedAll(bs)
  {
  }

  /** After the multiplier pass every CSV column of every record holds a
      value: none falls back to `''`. */
  lemma PricedRowsComplete(bs: seq<Business>, j: nat, i: nat)
    requires j < |bs| && i < |CsvKeys|
    ensures Field(PricedAll(bs)[j], CsvKeys[i]).Some?
  {
    RowColumns(PricedAll(bs)[j], i);
  }

  /** What a run leaves, from the records held before it and those it
      collected: the collected ones are appended, the excluded categories
      are dropped when there are any, and every record gets its multiplier. */
  function AfterRun(before: seq<Business>, collected: seq<Business>, excluded: seq<string>): seq<Business>
  {
    var all := before + collected;
    PricedAll(if excluded != [] then Filtered(all, excluded) else all)
  }

  /** A record left by a run is one of the records held before or
      collected, not of an excluded category, with its multiplier computed;
      and every such record is left. */
  lemma AfterRunMember(before: seq<Business>, collected: seq<Business>, excluded: seq<string>, b: Business)
    ensures b in AfterRun(before, collected, excluded) <==>
            exists a :: a in before + collected && !Excluded(a, excluded) && b == Priced(a)
  {
    var all := before + collected;
    var kept := if excluded != [] then Filtered(all, excluded) else all;
    if excluded == [] {
      FilteredNothing(all);
    }
    forall a | a in all ensures a in kept <==> !Excluded(a, excluded) {
      FilteredMember(all, excluded, a);
    }
    if b in AfterRun(before, collected, excluded) {
      var i :| 0 <= i < |kept| && PricedAll(kept)[i] == b;
      FilteredMember(all, excluded, kept[i]);
    }
    if exists a :: a in all && !Excluded(a, excluded) && b == Priced(a) {
      var a :| a in all && !Excluded(a, excluded) && b == Priced(a);
      FilteredMember(all, excluded, a);
      var i :| 0 <= i < |kept| && kept[i] == a;
      assert PricedAll(kept)[i] == b;
    }
  }

  class BizBuySellScraper {
    /** The county catalog. */
    var counties: seq<Region>
    /** The configuration. */
    var selectedCounties: seq<string>
    var excludedCategories: seq<string>
    var maxPagesPerCounty: nat
    /** The records gathered so far. */
    var businesses: seq<Business>

    /** A scraper with the Florida catalog, nothing selected or excluded,
        five pages per county and no records. */
    constructor ()
      ensures counties == Florida && selectedCounties == [] && excludedCategories == []
      ensures maxPagesPerCounty == 5 && businesses == []
    {
      counties := Florida;
      selectedCounties := [];
      excludedCategories := [];
      maxPagesPerCounty := 5;
      businesses := [];
    }

    /** `set_counties`: select the counties to scrape. */
    method SetCounties(ids: seq<string>)
      modifies this`selectedCounties
      ensures selectedCounties == ids
    {
      selectedCounties := ids;
    }

    /** `set_excluded_categories`: the categories to drop. */
    method SetExcludedCategories(categories: seq<string>)
      modifies this`excludedCategories
      ensures excludedCategories == categories
    {
      excludedCategories := categories;
    }

    /**
     * `scrape`: with no county selected, return nothing and change nothing.
     * Otherwise walk the pages of every selected county the catalog holds,
     * in selection order, appending their records to those already held;
     * then drop the excluded categories and compute every multiplier. The
     * result is the records now held.
     */
    method Scrape(fetch: string -> Page, now: Clock) returns (result: seq<Business>)
      modifies this`businesses
      ensures selectedCounties == [] ==> result == [] && businesses == old(businesses)
      ensures selectedCounties != [] ==>
                businesses == AfterRun(old(businesses), Collect(counties, selectedCounties, fetch, now, maxPagesPerCounty), excludedCategories)
      ensures selectedCounties != [] ==> result == businesses
    {
      if selectedCounties == [] {
        return [];
      }
      ScrapeSelected(fetch, now);
      if excludedCategories != [] {
        businesses := Filtered(businesses, excludedCategories);
      }
      PriceAll();
      result := businesses;
    }

    /** The county loop of `scrape`: the records of every selected county
        the catalog holds are appended, in selection order; an id the
        catalog does not hold is skipped. */
    method ScrapeSelected(fetch: string -> Page, now: Clock)
      modifies this`businesses
      ensures businesses == old(businesses) + Collect(counties, selectedCounties, fetch, now, maxPagesPerCounty)
    {
      var ids, regions, max := selectedCounties, counties, maxPagesPerCounty;
      var i := 0;
      while i < |ids|
        invariant 0 <= i <= |ids|
        invariant businesses == old(businesses) + Collect(regions, ids[..i], fetch, now, max)
      {
        var found;
        ghost var loaded;
        found, loaded := ScrapeSelectedCounty(regions, ids[i], fetch, now, max);
        ghost var done := Collect(regions, ids[..i], fetch, now, max);
        businesses := businesses + found;
        CollectSnoc(regions, ids, i, fetch, now, max);
        AppendAssoc(old(businesses), done, found);
        i := i + 1;
      }
      assert ids[..i] == ids;
    }

    /** The multiplier pass of `scrape`: every record held gets the
        multiplier of its revenue and cash flow. */
    method PriceAll()
      modifies this`businesses
      ensures businesses == PricedAll(old(businesses))
    {
      var j := 0;
      while j < |businesses|
        invariant 0 <= j <= |businesses| == |old(businesses)|
        invariant businesses[..j] == PricedAll(old(businesses)[..j])
        invariant businesses[j..] == old(businesses)[j..]
      {
        var b := businesses[j];
        businesses := businesses[j := b.(multiplier := Set(Multiplier(b.revenue, b.sde)))];
        j := j + 1;
      }
      assert businesses == businesses[..j] && old(businesses) == old(businesses)[..j];
    }
  }
}

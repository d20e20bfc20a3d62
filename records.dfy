/**
 * One listing card turned into a business record (`extract_business_data`),
 * the link and id rules it applies, and the projection of a record onto
 * the fixed CSV columns (`save_to_csv`).
 *
 * The browser is not modelled: a card is the raw text of each field the
 * page shows (`None` when the card has no such element), and the clock is
 * one reading given as a date and a timestamp text.
 */
module Records {
  import opened Wrappers
  import opened Text
  import opened NumberParser
  import opened Catalog

  const BaseUrl: string := "https://www.bizbuysell.com"
  const Source: string := "BizBuySell"
  const DescriptionLimit: nat := 500

  /** The raw texts of one listing card, and its link attribute. */
  datatype Card = Card(
    title: Option<string>,
    description: Option<string>,
    price: Option<string>,
    sde: Option<string>,
    revenue: Option<string>,
    category: Option<string>,
    href: Option<string>)

  /** A reading of the clock: the `%Y-%m-%d` date and the timestamp text. */
  datatype Clock = Clock(date: string, timestamp: string)

  /** The `multiplier` key: absent until the multiplier pass sets it. */
  datatype MultiplierField = Unset | Set(value: Option<real>)

  /** A business record; the optional fields are `None` when the card did
      not show them. */
  datatype Business = Business(
    id: string,
    title: Option<string>,
    description: Option<string>,
    price: Option<nat>,
    sde: Option<nat>,
    revenue: Option<nat>,
    niche: Option<string>,
    location: string,
    county: string,
    countyId: string,
    region: string,
    sourceUrl: Option<string>,
    source: string,
    foundDate: string,
    lastModified: string,
    multiplier: MultiplierField)

  /**
   * The listing's URL from its link: a link starting with `/` is resolved
   * against the site, one starting with `http` is kept as it is, and any
   * other link, or an empty or missing one, gives no URL. A URL, when there
   * is one, is absolute.
   */
  function ResolveHref(href: Option<string>): (url: Option<string>)
    ensures url.Some? <==> href.Some? && href.value != [] && (href.value[0] == '/' || "http" <= href.value)
    ensures url.Some? ==> "http" <= url.value
    ensures url.Some? && href.value[0] == '/' ==> url.value == BaseUrl + href.value
    ensures url.Some? && href.value[0] != '/' ==> url.value == href.value
  {
    match href
    case None => None
    case Some(h) =>
      if h == [] then None
      else if h[0] == '/' then
        assert "http" <= BaseUrl;
        Some(BaseUrl + h)
      else if "http" <= h then Some(h)
      else None
  }

  /** A split of a non-empty string into one piece is that string. */
  lemma SplitSingle(u: string, sep: char)
    requires |Split(u, sep)| == 1
    ensures Split(u, sep) == [u]
  {
    JoinSplit(u, sep);
  }

  /**
   * The listing id from its URL: the last `/`-separated segment, or the one
   * before it when the last is empty. It never holds a `/`.
   */
  function UrlId(u: string): (id: string)
    requires u != []
    ensures '/' !in id
  {
    var parts := Split(u, '/');
    if parts[|parts| - 1] != [] then parts[|parts| - 1]
    else
      assert |parts| >= 2 by {
        if |parts| == 1 { SplitSingle(u, '/'); }
      }
      parts[|parts| - 2]
  }

  /** The id of a URL ending in a non-empty segment is that segment. */
  lemma UrlIdLast(p: string, id: string)
    requires id != [] && '/' !in id
    ensures UrlId(p + ['/'] + id) == id
  {
    SplitAppend(p, '/', id);
    SplitPlain(id, '/');
  }

  /** A trailing slash does not change the id: the segment before it is
      taken. */
  lemma UrlIdTrailing(p: string, id: string)
    requires '/' !in id
    ensures UrlId(p + ['/'] + id + ['/']) == id
  {
    var u := p + ['/'] + id;
    SplitAppend(u, '/', []);
    SplitAppend(p, '/', id);
    SplitPlain(id, '/');
    assert u + ['/'] + [] == u + ['/'];
  }

  /** A URL without any `/` is its own id. */
  lemma UrlIdPlain(u: string)
    requires u != [] && '/' !in u
    ensures UrlId(u) == u
  {
    SplitPlain(u, '/');
  }

  /** A site-relative listing link ending in a slash: the URL is on the
      site and the id is the listing number before the slash. */
  lemma LinkExample(h: string)
    requires h == "/cafe/42/"
    ensures ResolveHref(Some(h)) == Some(BaseUrl + h)
    ensures UrlId(BaseUrl + h) == "42"
  {
    var p := BaseUrl + "/cafe";
    assert BaseUrl + h == p + ['/'] + "42" + ['/'];
    UrlIdTrailing(p, "42");
  }

  /** The stored description: the stripped text, cut to its first 500
      characters. */
  function Description(text: string): (d: string)
    ensures d <= Strip(text)
    ensures |d| == if |Strip(text)| <= DescriptionLimit then |Strip(text)| else DescriptionLimit
  {
    Truncate(Strip(text), DescriptionLimit)
  }

  /** The stripped text of an optional field. */
  function StripField(text: Option<string>): (r: Option<string>)
    ensures r.Some? <==> text.Some?
    ensures r.Some? ==> r.value == [] || (!IsSpace(r.value[0]) && !IsSpace(r.value[|r.value| - 1]))
  {
    match text
    case None => None
    case Some(t) => Some(Strip(t))
  }

  /** The record built from one card. */
  function Record(card: Card, county: County, now: Clock): Business
  {
    var url := ResolveHref(card.href);
    Business(
      id := if url.Some? then UrlId(url.value) else "biz_" + now.timestamp,
      title := StripField(card.title),
      description := if card.description.Some? then Some(Description(card.description.value)) else None,
      price := ExtractNumber(card.price),
      sde := ExtractNumber(card.sde),
      revenue := ExtractNumber(card.revenue),
      niche := StripField(card.category),
      location := county.name + ", Florida",
      county := county.name,
      countyId := county.id,
      region := county.region,
      sourceUrl := url,
      source := Source,
      foundDate := now.date,
      lastModified := now.date,
      multiplier := Unset)
  }

  /**
   * What the record of a card holds. The county fields come from the
   * county; text fields are the stripped texts; the description is a prefix
   * of the stripped text of at most 500 characters; each figure is the
   * number read from its text; the URL is the resolved link; and the id
   * comes from the URL when there is one (it then holds no `/`) and from
   * the clock only when there is none.
   */
  lemma RecordFields(card: Card, county: County, now: Clock)
    ensures var b := Record(card, county, now);
      && b.location == county.name + ", Florida"
      && b.county == county.name && b.countyId == county.id && b.region == county.region
      && b.source == Source && b.foundDate == now.date && b.lastModified == now.date
      && b.multiplier == Unset
      && b.title == StripField(card.title) && b.niche == StripField(card.category)
      && (b.description.Some? <==> card.description.Some?)
      && (b.description.Some? ==>
            b.description.value <= Strip(card.description.value) &&
            |b.description.value| == Min(|Strip(card.description.value)|, DescriptionLimit))
      && b.price == ExtractNumber(card.price)
      && b.sde == ExtractNumber(card.sde)
      && b.revenue == ExtractNumber(card.revenue)
      && b.sourceUrl == ResolveHref(card.href)
      && (b.sourceUrl.Some? ==> b.id == UrlId(b.sourceUrl.value) && '/' !in b.id)
      && (b.sourceUrl.None? ==> b.id == "biz_" + now.timestamp)
  {
  }

  function Min(a: nat, b: nat): nat {
    if a <= b then a else b
  }

  /** One text probe: the stripped text when the card shows the element. */
  method ProbeText(text: Option<string>) returns (r: Option<string>)
    ensures r == StripField(text)
  {
    r := None;
    if text.Some? {
      r := Some(Strip(text.value));
    }
  }

  /** One figure probe: the number read from the text when the card shows
      the element. */
  method ProbeNumber(text: Option<string>) returns (n: Option<nat>)
    ensures n == ExtractNumber(text)
  {
    n := None;
    if text.Some? {
      n := ExtractNumber(text);
    }
  }

  /** The link probe: a non-empty link that is site-relative or starts with
      `http` gives the URL. */
  method ProbeLink(href: Option<string>) returns (url: Option<string>)
    ensures url == ResolveHref(href)
  {
    url := None;
    if href.Some? {
      var h := href.value;
      if h != [] {
        if h[0] == '/' {
          url := Some(BaseUrl + h);
        } else if "http" <= h {
          url := Some(h);
        }
      }
    }
  }

  /**
   * `extract_business_data`: start from the record with only the county and
   * the dates filled, then fill each field the card shows, in the order the
   * page is probed, and last the id. The result is the record of the card.
   */
  method ExtractBusinessData(card: Card, county: County, now: Clock) returns (b: Business)
    ensures b == Record(card, county, now)
  {
    b := Business(
      id := "", title := None, description := None, price := None, sde := None,
      revenue := None, niche := None, location := county.name + ", Florida",
      county := county.name, countyId := county.id, region := county.region,
      sourceUrl := None, source := Source, foundDate := now.date,
      lastModified := now.date, multiplier := Unset);
    var title := ProbeText(card.title);
    b := b.(title := title);
    if card.description.Some? {
      b := b.(description := Some(Truncate(Strip(card.description.value), DescriptionLimit)));
    }
    var price := ProbeNumber(card.price);
    b := b.(price := price);
    var sde := ProbeNumber(card.sde);
    b := b.(sde := sde);
    var revenue := ProbeNumber(card.revenue);
    b := b.(revenue := revenue);
    var niche := ProbeText(card.category);
    b := b.(niche := niche);
    var url := ProbeLink(card.href);
    b := b.(sourceUrl := url);
    if b.sourceUrl.Some? {
      b := b.(id := UrlId(b.sourceUrl.value));
    } else {
      b := b.(id := "biz_" + now.timestamp);
    }
  }

  /** A value in a CSV row: text, a whole number, an exact ratio, or
      Python's `None`. */
  datatype Cell = Str(text: string) | Whole(n: nat) | Ratio(q: real) | Null

  /** The CSV columns, in order. */
  const CsvKeys: seq<string> := [
    "id", "title", "description", "price", "sde", "revenue", "multiplier",
    "niche", "location", "county", "region", "sourceUrl", "source",
    "foundDate", "lastModified"]

  function TextCell(s: Option<string>): Cell {
    if s.Some? then Str(s.value) else Null
  }

  function WholeCell(n: Option<nat>): Cell {
    if n.Some? then Whole(n.value) else Null
  }

  /** `business.get(key)`: the value stored under `key`, or nothing when the
      record has no such key (the multiplier before it is set, or a key the
      record never has). */
  function Field(b: Business, key: string): (c: Option<Cell>)
    ensures c.None? <==> (key == "multiplier" && b.multiplier.Unset?) ||
                         (key != "multiplier" && key !in CsvKeys && key != "county_id")
  {
    if key == "id" then Some(Str(b.id))
    else if key == "title" then Some(TextCell(b.title))
    else if key == "description" then Some(TextCell(b.description))
    else if key == "price" then Some(WholeCell(b.price))
    else if key == "sde" then Some(WholeCell(b.sde))
    else if key == "revenue" then Some(WholeCell(b.revenue))
    else if key == "multiplier" then
      (match b.multiplier
       case Unset => None
       case Set(m) => Some(if m.Some? then Ratio(m.value) else Null))
    else if key == "niche" then Some(TextCell(b.niche))
    else if key == "location" then Some(Str(b.location))
    else if key == "county" then Some(Str(b.county))
    else if key == "county_id" then Some(Str(b.countyId))
    else if key == "region" then Some(Str(b.region))
    else if key == "sourceUrl" then Some(TextCell(b.sourceUrl))
    else if key == "source" then Some(Str(b.source))
    else if key == "foundDate" then Some(Str(b.foundDate))
    else if key == "lastModified" then Some(Str(b.lastModified))
    else None
  }

  /** One CSV row: the value of each column, `''` for a missing key. */
  function Row(b: Business): (row: seq<Cell>)
    ensures |row| == |CsvKeys|
  {
    seq(|CsvKeys|, i requires 0 <= i < |CsvKeys| => Field(b, CsvKeys[i]).GetOr(Str("")))
  }

  /** Only the multiplier column can fall back to `''`, and it does exactly
      while the multiplier is unset; every other column shows its field. */
  lemma RowColumns(b: Business, i: nat)
    requires i < |CsvKeys|
    ensures Field(b, CsvKeys[i]).None? <==> i == 6 && b.multiplier.Unset?
    ensures Field(b, CsvKeys[i]).None? ==> Row(b)[i] == Str("")
    ensures Field(b, CsvKeys[i]).Some? ==> Row(b)[i] == Field(b, CsvKeys[i]).value
  {
  }

  /** The county id is stored in the record but is not a CSV column. */
  lemma CountyIdNotExported()
    ensures "county_id" !in CsvKeys
  {
  }
}

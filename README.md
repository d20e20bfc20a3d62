# BizBuySell Florida scraper — a verified model

This project models the core of `BizBuySellFloridaScraper` (scraper.py). The scraper collects
business-for-sale listings for Florida counties from bizbuysell.com. The model covers:

- the built-in catalog of twenty counties in three regions, and looking a county up by id;
- the scraper object: its configuration, the records it holds, and a run of `scrape`;
- the county loop of a run, the category filter, and the revenue-to-cash-flow multiplier pass;
- the walk over one county's result pages (`scrape_county`): page 1 is the county URL, page *n*
  adds `?page=n`, and the walk stops at a page that fails, has no listings or has no next link;
- the records of one page (`extract_listings`): one record per card, kept when its title is truthy;
- one card turned into a record (`extract_business_data`): stripped texts, a description cut to
  500 characters, figures read by `extract_number`, the link resolved against the site, and the id
  taken from the URL;
- `extract_number` itself: dollar signs and commas deleted, the text stripped, the first match of
  `(\d+(?:\.\d+)?)\s*([KM])?` (case-insensitive) read as a decimal, scaled by K or M, and truncated;
- `calculate_multiplier`, and the cells of a CSV row (`save_to_csv`).

The browser is replaced by data. A listing card is a `Records.Card`: the text of each element the
scraper probes, or `None` when the card has no such element. A results page is a `Listings.Page`:
either `Failed`, or the cards it shows and whether it has a next link. The whole site is a function
`fetch` from URL to page. The clock is one `Records.Clock` reading per run, holding the date text
and the timestamp text.

The modules are `Wrappers` (Option), `Text` (strip, slicing, replace, split/join), `Decimal`
(digit strings and numerals), `NumberParser` and `NumberExamples` (`extract_number`), `Metrics`
(the multiplier), `Catalog` (the county catalog), `Records` (one card, one CSV row), `Paging` (the
shape of the page walk), `Listings` (one page, one county) and `Scraper` (the scraper object).

Two details of the code the model keeps:

- A multiplier also needs a non-zero revenue, because the code tests the truthiness of revenue as
  well as `sde > 0`.
- A URL ending in `//` gives an empty id, because the segment before the last one is empty.

## Model

| member | source | states |
|---|---|---|
| NumberParser.ExtractNumber | scraper.py:280-304 | No number exactly when there is no text or the text has no digit (an empty text has none) |
| NumberParser.ExtractNumberFirstRun | scraper.py:287-302 | The number is the integer part of the first run of digits of the cleaned text, with its fraction, scaled by its K/M letter |
| NumberParser.Cleaned | scraper.py:287 | The cleaned text has no `$` and no `,` |
| NumberParser.CleanedKeepsDigits | scraper.py:287 | Cleaning keeps every digit: a digit is in the cleaned text iff it is in the raw text |
| NumberParser.CleanedNoDigits | scraper.py:287 | The cleaned text has a digit iff the raw text has one |
| NumberParser.Search | scraper.py:290 | The pattern matches iff the text has a digit, and a match is well formed |
| NumberParser.SearchFindsFirstDigit | scraper.py:290 | The leftmost match starts at the first digit of the text |
| NumberParser.SearchSkipsPrefix | scraper.py:290 | Digit-free text before the number does not change the match |
| NumberParser.MatchAtGreedy | scraper.py:290 | The whole part is the longest run of digits; a fraction is taken only after a point followed by a digit |
| NumberParser.DigitRun | scraper.py:290 | `\d+` is greedy: a prefix of digits that the next character does not extend |
| NumberParser.Magnitude | scraper.py:290 | A suffix is taken exactly when the text starts with K, M, k or m, and it is that letter |
| NumberParser.MatchWhole | scraper.py:290 | A number with no fraction: the digits, then the magnitude letter after optional white space |
| NumberParser.MatchFraction | scraper.py:290 | A number with a fraction: digits, point, digits, then the magnitude letter |
| NumberParser.Scale | scraper.py:295-300 | The scale is 1, 1000 or 1000000 |
| NumberParser.ScaleFactors | scraper.py:295-300 | No suffix gives 1, K in either case gives 1000, M in either case gives 1000000 |
| NumberParser.MagnitudeScales | scraper.py:290-302 | For all digits, white space, a K/M letter in either case and any text after it, the number read is the digits' value times the letter's factor |
| NumberParser.MatchLetter | scraper.py:290 | Digits, white space and a K/M letter match as the digits with no fraction and that letter |
| NumberParser.MagnitudeAfterSpaces | scraper.py:290 | `\s*` lets the letter come after any amount of white space |
| NumberParser.Truncated | scraper.py:292-302 | The result is the integer part of the exact decimal value times its scale |
| NumberExamples.Dollars | scraper.py:280-304 | "$1,234" reads as 1234 |
| NumberExamples.Truncates | scraper.py:280-304 | "12.9" reads as 12: the fraction is truncated |
| NumberExamples.BarePoint | scraper.py:280-304 | "1." reads as 1: a point with no digit after it is not a fraction |
| NumberExamples.Thousands | scraper.py:280-304 | "45K" reads as 45000 |
| NumberExamples.Millions | scraper.py:280-304 | "2.5m" reads as 2500000: the letter is matched ignoring case |
| NumberExamples.Word | scraper.py:280-304 | "5 Million" reads as 5000000: white space may come before the letter |
| NumberExamples.NoSign | scraper.py:280-304 | "-5" reads as 5: the pattern has no sign |
| Text.Strip | scraper.py:229 | The stripped text is no longer and neither starts nor ends with white space |
| Text.StripSlice | scraper.py:229 | Strip drops white space at both ends and nothing else: the result is a slice of the text |
| Text.StripIdempotent | scraper.py:229 | Stripping twice is stripping once |
| Text.StripEmptyIff | scraper.py:229 | The stripped text is empty iff the text is all white space |
| Text.StripKeeps | scraper.py:287 | Stripping keeps every character that is not white space |
| Text.TrimStartSpaces | scraper.py:290 | Left-stripping drops exactly the white space in front of text that does not start with white space |
| Text.Truncate | scraper.py:234 | `[:500]` gives a prefix of length min(length, 500) |
| Text.Without | scraper.py:287 | Deleting a character leaves no occurrence of it |
| Text.WithoutAppend | scraper.py:287 | Deleting works piece by piece: the result for two pieces is the results for each, in order |
| Text.WithoutChar | scraper.py:287 | One character is dropped if it is the deleted one and kept otherwise; with WithoutAppend this fixes the result as the other characters in order |
| Text.WithoutKeeps | scraper.py:287 | Deleting a character keeps every other character |
| Text.Split | scraper.py:271 | Splitting gives at least one piece and no piece holds the separator |
| Text.JoinSplit | scraper.py:271 | Joining the pieces of a split gives the text back |
| Text.SplitJoin | scraper.py:271 | Splitting joined separator-free pieces gives the pieces back |
| Decimal.ValueNumeral | scraper.py:154 | The page number written in decimal reads back as that number |
| Decimal.NumeralInjective | scraper.py:154 | Different page numbers have different numerals |
| Metrics.Multiplier | scraper.py:306-311 | A multiplier exists iff revenue is present and non-zero and cash flow is present and positive; times the cash flow it gives the revenue; it is positive iff revenue is |
| Records.ResolveHref | scraper.py:259-267 | A URL exists iff the link is non-empty and starts with `/` or `http`; a site-relative link is resolved against the site, an absolute one kept; the URL starts with `http` |
| Records.UrlId | scraper.py:270-271 | The id from a URL holds no `/` |
| Records.UrlIdLast | scraper.py:271 | A URL whose last segment is not empty has that segment as id |
| Records.UrlIdTrailing | scraper.py:271 | A URL ending in `/` has the segment before the slash as id |
| Records.UrlIdPlain | scraper.py:271 | A URL with no `/` is its own id |
| Records.LinkExample | scraper.py:259-271 | The link "/cafe/42/" resolves on the site and gives the id "42" |
| Records.Description | scraper.py:234 | The description is a prefix of the stripped text, of length min(length, 500) |
| Records.RecordFields | scraper.py:207-273 | The record of a card: location "<county>, Florida", county name, id and region, source, both dates from the clock, stripped title and category, the description rule, each figure read by `extract_number`, the resolved URL, and the id from the URL (holding no `/`) or "biz_" and the timestamp when there is no URL |
| Records.ExtractBusinessData | scraper.py:205-278 | Probing the card field by field builds exactly the record `RecordFields` describes |
| Records.Field | scraper.py:351 | Looking a key up gives nothing exactly for the multiplier before it is set and for keys the record never has |
| Records.Row | scraper.py:343-351 | A CSV row has one cell per column |
| Records.RowColumns | scraper.py:343-351 | A column's key is missing exactly for the multiplier while it is unset; a missing key is written as `''` and any other column holds its field's value |
| Records.CountyIdNotExported | scraper.py:343-345 | The county id is not a CSV column |
| Listings.TitleKept | scraper.py:195 | A card gives a kept record iff it has a title that is not all white space |
| Listings.Titled | scraper.py:192-196 | The kept records are among the records and all have a title |
| Listings.TitledMember | scraper.py:192-196 | A record is kept iff it is among the records and has a title |
| Listings.TitledAppend | scraper.py:192-196 | The title filter works card by card and keeps the order |
| Listings.TitledAll | scraper.py:192-196 | When every record has a title, all are kept |
| Listings.KeptAppend | scraper.py:192-196 | The records of two runs of cards are the records of each, in order |
| Listings.KeptMember | scraper.py:192-196 | A record of a page comes from one of its cards and has a title |
| Listings.KeptAll | scraper.py:192-196 | When every card has a title, a page gives one record per card |
| Listings.ExtractListings | scraper.py:181-203 | The loop over the cards returns the kept records of the page |
| Listings.PageUrl | scraper.py:154 | Page 1 is the county URL; page n other than 1 adds `?page=n` |
| Listings.PageUrlInjective | scraper.py:154 | Different page numbers have different URLs |
| Listings.VisitedBound | scraper.py:153 | A county walk loads at most `max_pages_per_county` pages |
| Listings.VisitedUrls | scraper.py:153-154 | The k-th URL loaded is that of page k+1, so no URL is loaded twice |
| Listings.VisitedGoesOn | scraper.py:161-173 | Every page before the last loaded had listings and a next link |
| Listings.VisitedEndsEarly | scraper.py:161-177 | A walk that stops before the page limit stops at a page that failed, had no listings or had no next link |
| Listings.CrawlGathers | scraper.py:149-179 | The county's records are those of the loaded pages, in page order |
| Listings.CrawlCounty | scraper.py:149-179 | Every record of a county has a title, carries that county's name, id, region and location, and has no multiplier yet |
| Listings.ScrapeCounty | scraper.py:149-179 | The page loop returns the records of the walk, and the pages it loads are exactly those of the walk: page 1 first, each next page only after one that loaded, gave records and links on, never beyond max |
| Listings.VisitPage | scraper.py:153-177 | One page of the loop: a page that fails to load or gives no record adds nothing and stops the walk; any other page adds its records and stops the walk exactly when it has no next link |
| Listings.LoadStep | scraper.py:153-177 | The walk from page n loads page n first, then the pages from n + 1 on exactly when page n lets it go on |
| Listings.Advance | scraper.py:153-177 | One pass of the page loop keeps both loop invariants: records so far plus the rest of the walk is the whole walk, pages loaded so far plus the pages still to load is the whole walk; a stopping page completes both |
| Paging.LoadsBound | scraper.py:153 | The walk loads at most one page per page number up to the limit |
| Paging.LoadsAt | scraper.py:153 | The walk loads consecutive page numbers |
| Paging.LoadsGoOn | scraper.py:163-173 | Every page before the last loaded lets the walk go on |
| Paging.LoadsEndEarly | scraper.py:163-173 | The walk ends before the limit only at a page that does not let it go on |
| Paging.WalkGathers | scraper.py:168 | The walk's records are the concatenated records of the loaded pages |
| Paging.WalkMember | scraper.py:168 | Every record of the walk comes from some page within the limit |
| Catalog.FirstWithId | scraper.py:313-319 | A county found has the id and is in the list; none is found iff no county has the id |
| Catalog.FirstWithIdAppend | scraper.py:315-318 | Searching two lists searches the first, then the second |
| Catalog.Lookup | scraper.py:313-319 | A county found has the id asked for |
| Catalog.LookupFlat | scraper.py:313-319 | Looking up by region is the first match in the flattened catalog, regions in order |
| Catalog.LookupFinds | scraper.py:313-319 | No county is found iff the catalog holds no county with the id; a found county is in the catalog |
| Catalog.AllCounties | scraper.py:73-80 | The nested loop lists every county with its region, in catalog order |
| Catalog.FlattenSize | scraper.py:73-80 | The list holds one county per catalog entry |
| Catalog.FloridaSize | scraper.py:19-46 | The built-in catalog lists twenty counties |
| Catalog.FloridaFirst | scraper.py:19-21 | "miami-dade" is Miami-Dade County, population 2716940, in south_florida |
| Scraper.CountyUrlInjective | scraper.py:117 | Different county ids have different results URLs |
| Scraper.ScrapeSelectedCounty | scraper.py:109-122 | One selected id: when the catalog does not hold it, no record and no page loaded; otherwise the records and the loaded pages of the walk over its results URL |
| Scraper.CollectCounties | scraper.py:109-122 | Every collected record has a title, comes from a selected id the catalog holds, and carries that county's name, region and location |
| Scraper.Filtered | scraper.py:131-136 | The category filter never adds records |
| Scraper.FilteredMember | scraper.py:133-136 | A record is kept iff it is held and its category is not excluded; a record without a category is kept |
| Scraper.FilteredAppend | scraper.py:133-136 | The filter works record by record and keeps the order |
| Scraper.FilteredNothing | scraper.py:131-136 | With nothing excluded the filter would keep everything |
| Scraper.Priced | scraper.py:140-144 | Pricing sets the multiplier to the multiplier of the record's revenue and cash flow, and changes no other field |
| Scraper.PricedAll | scraper.py:140-144 | Every record is priced, the count and order are kept |
| Scraper.PricedAllIdempotent | scraper.py:140-144 | Pricing twice is pricing once |
| Scraper.PricedRowsComplete | scraper.py:343-351 | After pricing, every CSV column of every record holds a value |
| Scraper.AfterRunMember | scraper.py:122-144 | A record left by a run is a held or collected record, not excluded, priced; and every such record is left |
| Scraper.BizBuySellScraper.constructor | scraper.py:14-53 | A new scraper has the Florida catalog, no selection, no exclusions, five pages per county and no records |
| Scraper.BizBuySellScraper.SetCounties | scraper.py:321-324 | The selection becomes the ids given |
| Scraper.BizBuySellScraper.SetExcludedCategories | scraper.py:326-329 | The exclusions become the categories given |
| Scraper.BizBuySellScraper.Scrape | scraper.py:82-147 | With no selection: returns nothing and changes nothing. Otherwise the held records become the old ones plus the collected ones, filtered when exclusions exist, all priced; that list is returned |
| Scraper.BizBuySellScraper.ScrapeSelected | scraper.py:109-126 | The county loop appends each selected county's records, in selection order, skipping unknown ids |
| Scraper.BizBuySellScraper.PriceAll | scraper.py:139-144 | The loop over the held records prices every one in place |

## Left out

- The browser (Playwright): the launch, the viewport, the user agent, navigation, the selectors and
  waiting for them are not modelled. A card is given by the texts its elements show, and a page by
  `fetch`. Which element a selector picks is not modelled.
- The `headless` argument of `scrape` only affects the browser and is not modelled.
- The random pause between pages (`asyncio.sleep` with a random delay) is not modelled.
- Exceptions are modelled only where they change the outcome on the page walk. An exception while
  loading or reading a page ends the county walk, like a `Failed` page. An exception while probing
  the next link is treated like a missing next link, which also ends the walk. A selector timeout in
  `extract_listings` gives a page with no cards. An exception inside one card's extraction, which
  leaves that record's later fields unset, is not modelled. An exception that aborts a whole county
  (lines 124-126) keeps nothing from that county; the model has no such failure because a failed
  page simply ends the walk.
- Records.RecordFields: the clock is read once per run. The source reads it anew for each card, and
  separately for each date and for the timestamp. So in the model every record of a run has the same
  dates, and every record of a run without a link gets the same id "biz_" plus the timestamp. In the
  source those fallback ids differ from card to card, and two date reads across midnight could differ.
- The printed progress messages, `load_config`, `save_config`, `save_to_json`, the file and header
  handling of `save_to_csv`, `print_summary` and `main` are I/O and are not modelled. Only the CSV
  row cells are modelled.
- Configuration values of other types than the defaults (a string for the page limit, a null
  category) are not modelled. The page limit is a natural number; a negative limit in the source
  loads no page, like a limit of 0.
- NumberParser.ExtractNumber: the value is computed exactly. The source goes through a
  floating-point number, so a fractional amount can land on the other side of an integer before
  truncation: "1.005K" gives 1004 in the source (1.005 times 1000 is 1004.9999999999999 in binary
  floating point) and 1005 in the model, and "1.99999999999999999" gives 2 in the source and 1 in
  the model. Large whole numbers lose precision above 2^53, and digits beyond the float range raise
  an OverflowError in the source. `\d` is limited to the ASCII digits; Python also matches other Unicode
  digits.
- Metrics.Multiplier: the quotient is exact. The source rounds it to one decimal place as a float.
- Records.UrlId: requires a non-empty URL, which every resolved URL is.
- Catalog.AllCounties: builds a fresh list of tagged counties. The source also writes the region
  key into the stored catalog entries; that write is not modelled because nothing else reads it.

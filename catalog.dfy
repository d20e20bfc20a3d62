/**
 * The built-in catalog of Florida counties, grouped by region, and the two
 * ways the scraper reads it: looking one county up by id
 * (`get_county_info`) and listing all of them (`get_all_counties`).
 */
module Catalog {
  import opened Wrappers

  /** A catalog entry as stored under its region. */
  datatype Entry = Entry(id: string, name: string, population: nat)

  /** A region key with its entries, in catalog order. */
  datatype Region = Region(key: string, entries: seq<Entry>)

  /** The county information handed to the rest of the scraper: an entry
      together with the key of the region it is listed under. */
  datatype County = County(id: string, name: string, population: nat, region: string)

  /** The twenty most populous counties of Florida, in three regions. */
  const Florida: seq<Region> := [
    Region("south_florida", [
      Entry("miami-dade", "Miami-Dade County", 2716940),
      Entry("broward", "Broward County", 1944375),
      Entry("palm-beach", "Palm Beach County", 1496770),
      Entry("collier", "Collier County", 384902),
      Entry("lee", "Lee County", 760822),
      Entry("monroe", "Monroe County", 82874)
    ]),
    Region("central_florida", [
      Entry("hillsborough", "Hillsborough County", 1459762),
      Entry("orange", "Orange County", 1429908),
      Entry("pinellas", "Pinellas County", 959107),
      Entry("polk", "Polk County", 725046),
      Entry("brevard", "Brevard County", 606612),
      Entry("volusia", "Volusia County", 553543),
      Entry("seminole", "Seminole County", 471826),
      Entry("osceola", "Osceola County", 388656),
      Entry("pasco", "Pasco County", 561891),
      Entry("manatee", "Manatee County", 403253),
      Entry("sarasota", "Sarasota County", 434006)
    ]),
    Region("north_florida", [
      Entry("duval", "Duval County", 995567),
      Entry("leon", "Leon County", 293582),
      Entry("st-johns", "St. Johns County", 273425)
    ])
  ]

  /** An entry tagged with its region key. */
  function Tag(e: Entry, region: string): (c: County)
    ensures c.id == e.id && c.name == e.name && c.population == e.population
    ensures c.region == region
  {
    County(e.id, e.name, e.population, region)
  }

  /** The entries of one region, tagged with its key, in order. */
  function Tagged(r: Region): (cs: seq<County>)
    ensures |cs| == |r.entries|
    ensures forall i :: 0 <= i < |cs| ==> cs[i] == Tag(r.entries[i], r.key)
  {
    seq(|r.entries|, i requires 0 <= i < |r.entries| => Tag(r.entries[i], r.key))
  }

  /** Every county of the catalog, region by region, each region in its own
      order. */
  function Flatten(regions: seq<Region>): seq<County>
  {
    if regions == [] then []
    else Flatten(regions[..|regions| - 1]) + Tagged(regions[|regions| - 1])
  }

  /** The number of entries over all regions. */
  function Size(regions: seq<Region>): nat
  {
    if regions == [] then 0
    else Size(regions[..|regions| - 1]) + |regions[|regions| - 1].entries|
  }

  /** Flattening loses and adds no county. */
  lemma {:induction false} FlattenSize(regions: seq<Region>)
    ensures |Flatten(regions)| == Size(regions)
  {
    if regions != [] {
      FlattenSize(regions[..|regions| - 1]);
    }
  }

  /** The first county with the given id in a flat list. */
  function FirstWithId(cs: seq<County>, id: string): (r: Option<County>)
    ensures r.Some? ==> r.value in cs && r.value.id == id
    ensures r.None? <==> forall c :: c in cs ==> c.id != id
  {
    if cs == [] then None
    else if cs[0].id == id then Some(cs[0])
    else FirstWithId(cs[1..], id)
  }

  lemma {:induction false} FirstWithIdAppend(a: seq<County>, b: seq<County>, id: string)
    ensures FirstWithId(a + b, id) ==
            if FirstWithId(a, id).Some? then FirstWithId(a, id) else FirstWithId(b, id)
  {
    if a != [] {
      assert (a + b)[1..] == a[1..] + b;
      FirstWithIdAppend(a[1..], b, id);
    } else {
      assert a + b == b;
    }
  }

  /** The first entry with the given id within one region. */
  function FindEntry(entries: seq<Entry>, id: string): (r: Option<Entry>)
    ensures r.Some? ==> r.value.id == id
  {
    if entries == [] then None
    else if entries[0].id == id then Some(entries[0])
    else FindEntry(entries[1..], id)
  }

  /**
   * `get_county_info`: search the regions in order, and within a region its
   * entries in order; the first entry with the id is returned, tagged with
   * its region. A county is found exactly when some catalog county has the
   * id.
   */
  function Lookup(regions: seq<Region>, id: string): (r: Option<County>)
    ensures r.Some? ==> r.value.id == id
  {
    if regions == [] then None
    else match FindEntry(regions[0].entries, id)
      case Some(e) => Some(Tag(e, regions[0].key))
      case None => Lookup(regions[1..], id)
  }

  lemma {:induction false} FindEntryTagged(r: Region, id: string)
    ensures FirstWithId(Tagged(r), id) ==
            match FindEntry(r.entries, id)
            case Some(e) => Some(Tag(e, r.key))
            case None => None
    decreases |r.entries|
  {
    if r.entries != [] {
      var rest := Region(r.key, r.entries[1..]);
      assert Tagged(r)[1..] == Tagged(rest);
      FindEntryTagged(rest, id);
    }
  }

  lemma {:induction false} FlattenFront(regions: seq<Region>)
    requires regions != []
    ensures Flatten(regions) == Tagged(regions[0]) + Flatten(regions[1..])
  {
    if |regions| > 1 {
      var init := regions[..|regions| - 1];
      FlattenFront(init);
      assert init[1..] == regions[1..][..|regions[1..]| - 1];
      assert init[0] == regions[0];
    } else {
      assert regions[..0] == [];
    }
  }

  /** Looking a county up region by region finds the same county as looking
      for the first one with that id in the flat list of all counties. */
  lemma {:induction false} LookupFlat(regions: seq<Region>, id: string)
    ensures Lookup(regions, id) == FirstWithId(Flatten(regions), id)
  {
    if regions != [] {
      FlattenFront(regions);
      FirstWithIdAppend(Tagged(regions[0]), Flatten(regions[1..]), id);
      FindEntryTagged(regions[0], id);
      LookupFlat(regions[1..], id);
    }
  }

  /** Hence the lookup fails exactly when no county of the catalog has the
      id, and what it finds is a catalog county. */
  lemma LookupFinds(regions: seq<Region>, id: string)
    ensures Lookup(regions, id).None? <==> forall c :: c in Flatten(regions) ==> c.id != id
    ensures Lookup(regions, id).Some? ==> Lookup(regions, id).value in Flatten(regions)
  {
    LookupFlat(regions, id);
  }

  /**
   * `get_all_counties`: every county of the catalog with its region, in
   * catalog order.
   */
  method AllCounties(regions: seq<Region>) returns (all: seq<County>)
    ensures all == Flatten(regions)
  {
    all := [];
    var i := 0;
    while i < |regions|
      invariant 0 <= i <= |regions|
      invariant all == Flatten(regions[..i])
    {
      var r := regions[i];
      var j := 0;
      ghost var before := all;
      while j < |r.entries|
        invariant 0 <= j <= |r.entries|
        invariant all == before + Tagged(r)[..j]
      {
        all := all + [Tag(r.entries[j], r.key)];
        j := j + 1;
        assert Tagged(r)[..j] == Tagged(r)[..j - 1] + [Tagged(r)[j - 1]];
      }
      assert Tagged(r)[..j] == Tagged(r);
      assert regions[..i + 1][..i] == regions[..i];
      i := i + 1;
    }
    assert regions[..i] == regions;
  }

  /** The catalog holds twenty counties. */
  lemma FloridaSize()
    ensures |Flatten(Florida)| == 20
  {
    FlattenSize(Florida);
    var f := Florida;
    assert |f[0].entries| == 6 && |f[1].entries| == 11 && |f[2].entries| == 3;
    assert f[..3] == f && f[..3][..2] == f[..2] && f[..2][..1] == f[..1] && f[..1][..0] == [];
    assert Size(f[..1]) == 6;
    assert Size(f[..2]) == 17;
    assert Size(f[..3]) == 20;
  }

  /** The first catalog county is found under its region. */
  lemma FloridaFirst(id: string)
    requires id == "miami-dade"
    ensures Lookup(Florida, id) == Some(County(id, "Miami-Dade County", 2716940, "south_florida"))
  {
  }
}

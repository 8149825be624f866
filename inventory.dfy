/** The car inventory page: the URL codec between the filter state and the
    query string, the search request builder, the pager, and the controller
    that keeps filters, search term, page and URL in step. */
module Inventory {
  import opened Js
  import opened Types

  /** Page size: the `limit` of every search request. */
  const Limit: int := 9

  /** The filters a fresh page starts with; `currentYear` is the year the
      browser's clock reports. */
  function DefaultFilters(currentYear: int): FilterOptions
  {
    FilterOptions("", "", (Int(0), Int(5000)), (Int(1980), Int(currentYear + 1)),
                  (Int(0), Int(200000)), [], [], [], [])
  }

  // ------------------------------------------------------------ URL codec

  /** The query parameters the page reads and writes. Any other parameter
      is ignored by the decoder and never written by the encoder. */
  datatype Key = BrandKey | ModelKey | PriceMinKey | PriceMaxKey | YearMinKey | YearMaxKey
               | FuelKey | TransmissionKey | StatusKey | SearchKey | PageKey

  /** The parameter's name in the address bar. */
  function KeyName(k: Key): string
  {
    match k
    case BrandKey => "brand"
    case ModelKey => "model"
    case PriceMinKey => "priceMin"
    case PriceMaxKey => "priceMax"
    case YearMinKey => "yearMin"
    case YearMaxKey => "yearMax"
    case FuelKey => "fuel"
    case TransmissionKey => "transmission"
    case StatusKey => "status"
    case SearchKey => "q"
    case PageKey => "page"
  }

  /** The query string as the page sees it, one value per parameter. */
  type Params = map<Key, string>

  /** `sp.get(key)`. */
  function Get(sp: Params, key: Key): Option<string>
  {
    if key in sp then Some(sp[key]) else None
  }

  /** `sp.get(key) ?? ''`. */
  function GetOrEmpty(sp: Params, key: Key): string
  {
    if key in sp then sp[key] else ""
  }

  /** `raw ? parseInt(raw, 10) : fallback`: an absent or empty value falls
      back, anything else is parsed (and may be NaN). */
  function Bound(raw: Option<string>, fallback: Num): Num
  {
    if raw.Some? && raw.value != "" then ParseInt(raw.value) else fallback
  }

  datatype Decoded = Decoded(filters: FilterOptions, search: string, page: Num)

  /** `status ? status.split(',').filter(Boolean) : []`. */
  function DecodeStatus(raw: string): (tokens: seq<string>)
    ensures CleanTokens(tokens)
  {
    if raw != "" then NonEmpty(Split(raw, ',')) else []
  }

  /** `raw ? [raw] : []`, the decoding of `fuel` and `transmission`. */
  function DecodeSingle(raw: string): (xs: seq<string>)
    ensures SingleOrNone(xs)
  {
    if raw != "" then [raw] else []
  }

  /** The filter part of `parseFiltersFromSearchParams`. Each range bound
      falls back to its own default; fuel and transmission give at most one
      non-empty element; status is the non-empty comma-separated tokens;
      mileage and body types are always the defaults. */
  function DecodeFilters(sp: Params, currentYear: int): (f: FilterOptions)
    ensures f.mileageRange == DefaultFilters(currentYear).mileageRange
    ensures f.bodyTypes == DefaultFilters(currentYear).bodyTypes
    ensures SingleOrNone(f.fuelTypes) && SingleOrNone(f.transmissions)
    ensures CleanTokens(f.status)
    ensures PriceMinKey !in sp ==> f.priceRange.0 == Int(0)
    ensures PriceMaxKey !in sp ==> f.priceRange.1 == Int(5000)
    ensures YearMinKey !in sp ==> f.yearRange.0 == Int(1980)
    ensures YearMaxKey !in sp ==> f.yearRange.1 == Int(currentYear + 1)
  {
    var def := DefaultFilters(currentYear);
    FilterOptions(
      GetOrEmpty(sp, BrandKey),
      GetOrEmpty(sp, ModelKey),
      DecodeRange(sp, PriceMinKey, PriceMaxKey, def.priceRange),
      DecodeRange(sp, YearMinKey, YearMaxKey, def.yearRange),
      def.mileageRange,
      DecodeSingle(GetOrEmpty(sp, FuelKey)),
      DecodeSingle(GetOrEmpty(sp, TransmissionKey)),
      def.bodyTypes,
      DecodeStatus(GetOrEmpty(sp, StatusKey)))
  }

  /** A range read from two keys, each bound falling back on its own. */
  function DecodeRange(sp: Params, minKey: Key, maxKey: Key, def: (Num, Num)): (r: (Num, Num))
    ensures minKey !in sp ==> r.0 == def.0
    ensures maxKey !in sp ==> r.1 == def.1
  {
    (Bound(Get(sp, minKey), def.0), Bound(Get(sp, maxKey), def.1))
  }

  /** `parseFiltersFromSearchParams`: filters, search term (`q ?? ''`) and
      page (`page ? parseInt(page, 10) : 1`). */
  function Decode(sp: Params, currentYear: int): (d: Decoded)
    ensures PageKey !in sp ==> d.page == Int(1)
  {
    Decoded(DecodeFilters(sp, currentYear), GetOrEmpty(sp, SearchKey), Bound(Get(sp, PageKey), Int(1)))
  }

  /** Status tokens that survive `join(',')` followed by `split(',')` and
      `filter(Boolean)`: none is empty and none holds a comma. */
  predicate CleanTokens(xs: seq<string>)
  {
    forall i :: 0 <= i < |xs| ==> xs[i] != "" && ',' !in xs[i]
  }

  /** The range test of the serializer is `r[0] !== d[0] || r[1] !== d[1]`;
      this is its negation. */
  predicate SameRange(r: (Num, Num), d: (Num, Num))
  {
    StrictEq(r.0, d.0) && StrictEq(r.1, d.1)
  }

  /** `serializeFiltersToParams`, key by key: the value each parameter is
      set to, or `None` where the source skips the `params.set`. Brand,
      model, fuel, transmission, status and search are skipped when empty,
      the two bounds of a range are skipped together when the range is the
      default one, and `page` is always set (to 1 when no page is given). */
  function EncodedValue(f: FilterOptions, q: string, p: Option<Num>, currentYear: int, k: Key): Option<string>
  {
    var def := DefaultFilters(currentYear);
    match k
    case BrandKey => if f.brand != "" then Some(f.brand) else None
    case ModelKey => if f.model != "" then Some(f.model) else None
    case PriceMinKey =>
      if !SameRange(f.priceRange, def.priceRange) then Some(NumToString(f.priceRange.0)) else None
    case PriceMaxKey =>
      if !SameRange(f.priceRange, def.priceRange) then Some(NumToString(f.priceRange.1)) else None
    case YearMinKey =>
      if !SameRange(f.yearRange, def.yearRange) then Some(NumToString(f.yearRange.0)) else None
    case YearMaxKey =>
      if !SameRange(f.yearRange, def.yearRange) then Some(NumToString(f.yearRange.1)) else None
    case FuelKey => if |f.fuelTypes| > 0 then Some(First(f.fuelTypes)) else None
    case TransmissionKey => if |f.transmissions| > 0 then Some(First(f.transmissions)) else None
    case StatusKey => if |f.status| > 0 then Some(Join(f.status, ',')) else None
    case SearchKey => if q != "" then Some(q) else None
    case PageKey => Some(NumToString(if p.Some? then p.value else Int(1)))
  }

  /** Every parameter the codec knows. */
  const AllKeys: set<Key> := {BrandKey, ModelKey, PriceMinKey, PriceMaxKey, YearMinKey, YearMaxKey,
                              FuelKey, TransmissionKey, StatusKey, SearchKey, PageKey}

  /** The parameters `serializeFiltersToParams` builds: exactly the keys it
      sets, with the values it sets them to. */
  function Encode(f: FilterOptions, q: string, p: Option<Num>, currentYear: int): (params: Params)
  {
    map k | k in AllKeys && EncodedValue(f, q, p, currentYear, k).Some? :: EncodedValue(f, q, p, currentYear, k).value
  }

  lemma EncodeByKey(f: FilterOptions, q: string, p: Option<Num>, currentYear: int, k: Key)
    ensures Get(Encode(f, q, p, currentYear), k) == EncodedValue(f, q, p, currentYear, k)
  {
  }

  /** `page` is always present; `priceMin` and `priceMax` are present
      together, exactly when the price range is not the default one, and
      likewise `yearMin` and `yearMax` for the year range. */
  lemma EncodeRangesPaired(f: FilterOptions, q: string, p: Option<Num>, currentYear: int)
    ensures var sp := Encode(f, q, p, currentYear);
      var def := DefaultFilters(currentYear);
      && PageKey in sp
      && (PriceMinKey in sp <==> PriceMaxKey in sp)
      && (PriceMinKey in sp <==> !SameRange(f.priceRange, def.priceRange))
      && (YearMinKey in sp <==> YearMaxKey in sp)
      && (YearMinKey in sp <==> !SameRange(f.yearRange, def.yearRange))
  {
    EncodeByKey(f, q, p, currentYear, PageKey);
    EncodeByKey(f, q, p, currentYear, PriceMinKey);
    EncodeByKey(f, q, p, currentYear, PriceMaxKey);
    EncodeByKey(f, q, p, currentYear, YearMinKey);
    EncodeByKey(f, q, p, currentYear, YearMaxKey);
  }

  /** `xs[0] ?? ''`. */
  function First(xs: seq<string>): string
  {
    if |xs| > 0 then xs[0] else ""
  }

  /** `filtersEqual`: the shallow comparison the URL-to-state sync makes
      before it overwrites the filters. Only first fuel and transmission
      entries are compared, status by its joined form, and mileage and body
      types not at all. */
  predicate FiltersEqual(a: FilterOptions, b: FilterOptions)
  {
    a.brand == b.brand && a.model == b.model &&
    StrictEq(a.priceRange.0, b.priceRange.0) && StrictEq(a.priceRange.1, b.priceRange.1) &&
    StrictEq(a.yearRange.0, b.yearRange.0) && StrictEq(a.yearRange.1, b.yearRange.1) &&
    First(a.fuelTypes) == First(b.fuelTypes) &&
    First(a.transmissions) == First(b.transmissions) &&
    Join(a.status, ',') == Join(b.status, ',')
  }

  /** No bound of the two ranges the comparison looks at is NaN. */
  predicate NumericRanges(f: FilterOptions)
  {
    f.priceRange.0.Int? && f.priceRange.1.Int? && f.yearRange.0.Int? && f.yearRange.1.Int?
  }

  /** A filter state that the codec reproduces up to `FiltersEqual`. */
  predicate Encodable(f: FilterOptions)
  {
    NumericRanges(f) && CleanTokens(f.status)
  }

  /** A list the codec keeps exactly: empty, or one non-empty entry. */
  predicate SingleOrNone(xs: seq<string>)
  {
    |xs| == 0 || (|xs| == 1 && xs[0] != "")
  }

  // ---------------------------------------------------------- query builder

  /** The parameters of the search request. Fields not listed here (status,
      mileage, body types) are never sent. */
  datatype SearchQuery = SearchQuery(
    model: Option<string>, brand: Option<string>,
    priceMin: Num, priceMax: Num, yearMin: Num, yearMax: Num,
    fuel: Option<string>, transmission: Option<string>,
    page: Num, limit: int)

  /** `a || b` on an optional non-empty string and a string. */
  function OrElse(a: Option<string>, b: string): Option<string>
  {
    if a.Some? && a.value != "" then a else Some(b)
  }

  /** `apiSearchParams`: ranges are always sent, only the first fuel and
      transmission, and a search term only fills a brand or model the
      filters leave empty. */
  function ApiSearchParams(f: FilterOptions, searchTerm: string, page: Num): (r: SearchQuery)
    ensures r.limit == Limit && r.page == page
    ensures r.priceMin == f.priceRange.0 && r.priceMax == f.priceRange.1
    ensures r.yearMin == f.yearRange.0 && r.yearMax == f.yearRange.1
    ensures r.fuel.Some? <==> |f.fuelTypes| > 0
    ensures r.fuel.Some? ==> r.fuel.value == f.fuelTypes[0]
    ensures r.transmission.Some? <==> |f.transmissions| > 0
    ensures r.transmission.Some? ==> r.transmission.value == f.transmissions[0]
    ensures f.model != "" ==> r.model == Some(f.model)
    ensures f.brand != "" ==> r.brand == Some(f.brand)
    ensures f.model == "" ==> r.model == (if searchTerm != "" then Some(searchTerm) else None)
    ensures f.brand == "" ==> r.brand == (if searchTerm != "" then Some(searchTerm) else None)
  {
    var model := if f.model != "" then Some(f.model) else None;
    var brand := if f.brand != "" then Some(f.brand) else None;
    var fuel := if |f.fuelTypes| > 0 then Some(f.fuelTypes[0]) else None;
    var transmission := if |f.transmissions| > 0 then Some(f.transmissions[0]) else None;
    var model' := if searchTerm != "" then OrElse(model, searchTerm) else model;
    var brand' := if searchTerm != "" then OrElse(brand, searchTerm) else brand;
    SearchQuery(model', brand', f.priceRange.0, f.priceRange.1, f.yearRange.0, f.yearRange.1,
                fuel, transmission, page, Limit)
  }

  // ------------------------------------------------------------------ pager

  /** `Math.max(1, Math.ceil(total / LIMIT))`. */
  function TotalPages(total: int): (tp: int)
    ensures tp >= 1
    ensures total <= tp * Limit
    ensures tp == 1 || (tp - 1) * Limit < total
  {
    var c := if total >= 0 then (total + Limit - 1) / Limit else -((-total) / Limit);
    if c >= 1 then c else 1
  }

  /** The clamp effect: a page beyond the last one becomes the last one. */
  function ClampPage(page: Num, totalPages: int): Num
  {
    if Gt(page, Int(totalPages)) then Int(totalPages) else page
  }

  /** The Prev button is disabled when `page <= 1`. */
  predicate PrevDisabled(page: Num)
  {
    Le(page, Int(1))
  }

  /** The Next button is disabled when `page >= totalPages`. */
  predicate NextDisabled(page: Num, totalPages: int)
  {
    Le(Int(totalPages), page)
  }

  /** `Math.max(1, page - 1)`. */
  function PrevPage(page: Num): Num
  {
    MathMax(Int(1), Plus(page, -1))
  }

  /** `Math.min(totalPages, page + 1)`. */
  function NextPage(page: Num, totalPages: int): Num
  {
    MathMin(Int(totalPages), Plus(page, 1))
  }

  // ------------------------------------------------------------- controller

  /** The page's state owner. Every handler is one event; React's effect
      scheduling between them is not modelled. */
  class Controller {
    const currentYear: int
    var filters: FilterOptions
    var searchTerm: string
    var page: Num
    var totalCount: int
    /** The address bar's query parameters. */
    var url: Params

    /** The state and the URL describe the same selection: decoding the URL
        gives back the state, as far as the sync effect compares. After such a
        state the URL-change event that our own write triggers is a no-op. */
    ghost predicate InSync()
      reads this
    {
      var d := Decode(url, currentYear);
      FiltersEqual(d.filters, filters) && d.search == searchTerm && StrictEq(d.page, page)
    }

    /** The request the page issues for its current state. */
    function Query(): (q: SearchQuery)
      reads this
      ensures q.page == page && q.limit == Limit
    {
      ApiSearchParams(filters, searchTerm, page)
    }

    /** Mount: the state starts at the defaults and is then seeded from the
        URL by the same sync as a URL change. */
    constructor (currentYear: int, initialUrl: Params)
      ensures this.currentYear == currentYear && url == initialUrl && totalCount == 0
      ensures var d := Decode(initialUrl, currentYear);
        && filters == (if FiltersEqual(d.filters, DefaultFilters(currentYear)) then DefaultFilters(currentYear) else d.filters)
        && searchTerm == d.search
        && page == (if StrictEq(d.page, Int(1)) then Int(1) else d.page)
    {
      this.currentYear := currentYear;
      filters := DefaultFilters(currentYear);
      searchTerm := "";
      page := Int(1);
      totalCount := 0;
      url := initialUrl;
      new;
      OnUrlChange(initialUrl);
    }

    /** URL to state (back/forward, deep link): each part is overwritten only
        when it differs from the decoded value. */
    method OnUrlChange(params: Params)
      modifies this
      ensures url == params && totalCount == old(totalCount)
      ensures var d := Decode(params, currentYear);
        && filters == (if FiltersEqual(d.filters, old(filters)) then old(filters) else d.filters)
        && searchTerm == d.search
        && page == (if StrictEq(d.page, old(page)) then old(page) else d.page)
      ensures old(InSync()) && params == old(url) ==>
        filters == old(filters) && searchTerm == old(searchTerm) && page == old(page)
      ensures NumericRanges(Decode(params, currentYear).filters) && Decode(params, currentYear).page.Int? ==> InSync()
    {
      url := params;
      var d := Decode(params, currentYear);
      if !FiltersEqual(d.filters, filters) {
        filters := d.filters;
      }
      if d.search != searchTerm {
        searchTerm := d.search;
      }
      if !StrictEq(d.page, page) {
        page := d.page;
      }
      if NumericRanges(d.filters) && d.page.Int? {
        FiltersEqualReflexive(d.filters);
        FiltersEqualSymmetric(d.filters, filters);
      }
    }

    /** The filter panel hands over a new filter object: the page resets to
        1 and the URL is rewritten. */
    method OnFiltersChange(f: FilterOptions)
      modifies this
      ensures filters == f && searchTerm == old(searchTerm) && page == Int(1)
      ensures totalCount == old(totalCount)
      ensures url == Encode(f, searchTerm, Some(Int(1)), currentYear)
      ensures Encodable(f) ==> InSync()
    {
      filters := f;
      page := Int(1);
      url := Encode(filters, searchTerm, Some(page), currentYear);
      if Encodable(f) {
        SyncAfterEncode(filters, searchTerm, page, currentYear);
      }
    }

    /** Typing in the search box: a different term resets the page to 1. */
    method OnSearchChange(q: string)
      modifies this
      ensures filters == old(filters) && searchTerm == q && totalCount == old(totalCount)
      ensures q != old(searchTerm) ==> page == Int(1) && url == Encode(filters, q, Some(Int(1)), currentYear)
      ensures q == old(searchTerm) ==> page == old(page) && url == old(url)
      ensures old(InSync()) && Encodable(filters) ==> InSync()
    {
      if q != searchTerm {
        searchTerm := q;
        page := Int(1);
        url := Encode(filters, searchTerm, Some(page), currentYear);
        if Encodable(filters) {
          SyncAfterEncode(filters, searchTerm, page, currentYear);
        }
      }
    }

    /** The Prev button, when enabled. */
    method OnPreviousPage()
      modifies this
      ensures filters == old(filters) && searchTerm == old(searchTerm) && totalCount == old(totalCount)
      ensures PrevDisabled(old(page)) ==> page == old(page) && url == old(url)
      ensures !PrevDisabled(old(page)) ==> page == PrevPage(old(page))
      ensures page != old(page) ==> url == Encode(filters, searchTerm, Some(page), currentYear)
      ensures page == old(page) ==> url == old(url)
      ensures old(InSync()) && Encodable(filters) && page.Int? ==> InSync()
    {
      if !PrevDisabled(page) {
        var next := PrevPage(page);
        if next != page {
          page := next;
          url := Encode(filters, searchTerm, Some(page), currentYear);
          if Encodable(filters) && page.Int? {
            SyncAfterEncode(filters, searchTerm, page, currentYear);
          }
        }
      }
    }

    /** The Next button, when enabled. */
    method OnNextPage()
      modifies this
      ensures filters == old(filters) && searchTerm == old(searchTerm) && totalCount == old(totalCount)
      ensures NextDisabled(old(page), TotalPages(totalCount)) ==> page == old(page) && url == old(url)
      ensures !NextDisabled(old(page), TotalPages(totalCount)) ==> page == NextPage(old(page), TotalPages(totalCount))
      ensures page != old(page) ==> url == Encode(filters, searchTerm, Some(page), currentYear)
      ensures page == old(page) ==> url == old(url)
      ensures old(InSync()) && Encodable(filters) && page.Int? ==> InSync()
    {
      var tp := TotalPages(totalCount);
      if !NextDisabled(page, tp) {
        var next := NextPage(page, tp);
        if next != page {
          page := next;
          url := Encode(filters, searchTerm, Some(page), currentYear);
          if Encodable(filters) && page.Int? {
            SyncAfterEncode(filters, searchTerm, page, currentYear);
          }
        }
      }
    }

    /** A search response arrives (`total ?? 0`); a page past the last one is
        clamped, which triggers a new request. */
    method OnResponse(total: Option<int>)
      modifies this
      ensures filters == old(filters) && searchTerm == old(searchTerm)
      ensures totalCount == (if total.Some? then total.value else 0)
      ensures page == ClampPage(old(page), TotalPages(totalCount))
      ensures page != old(page) ==> url == Encode(filters, searchTerm, Some(page), currentYear)
      ensures page == old(page) ==> url == old(url)
      ensures old(InSync()) && Encodable(filters) ==> InSync()
    {
      totalCount := if total.Some? then total.value else 0;
      var tp := TotalPages(totalCount);
      if Gt(page, Int(tp)) {
        page := Int(tp);
        url := Encode(filters, searchTerm, Some(page), currentYear);
        if Encodable(filters) {
          SyncAfterEncode(filters, searchTerm, page, currentYear);
        }
      }
    }
  }

  // ----------------------------------------------------------------- lemmas

  /** `filtersEqual(f, f)` holds exactly when no compared bound is NaN. */
  lemma FiltersEqualReflexive(f: FilterOptions)
    ensures FiltersEqual(f, f) <==> NumericRanges(f)
  {
  }

  lemma FiltersEqualSymmetric(a: FilterOptions, b: FilterOptions)
    ensures FiltersEqual(a, b) <==> FiltersEqual(b, a)
  {
  }

  /** Decoding the serialized state gives back a state the sync effect
      considers equal, the same search term and the same page, so the
      URL/state cycle stops after one round. This holds for any number of
      fuel or transmission entries, since only the first are compared. */
  lemma SyncAfterEncode(f: FilterOptions, q: string, p: Num, currentYear: int)
    requires Encodable(f) && p.Int?
    ensures var d := Decode(Encode(f, q, Some(p), currentYear), currentYear);
      FiltersEqual(d.filters, f) && d.search == q && StrictEq(d.page, p)
  {
    DecodeEncodeFields(f, q, p, currentYear);
    StatusRoundTrip(f.status);
    ParseIntOfIntToString(p.v);
  }

  /** What decoding the serialized state gives, field by field. */
  lemma DecodeEncodeFields(f: FilterOptions, q: string, p: Num, currentYear: int)
    requires NumericRanges(f)
    ensures var d := Decode(Encode(f, q, Some(p), currentYear), currentYear);
      && d.filters.brand == f.brand && d.filters.model == f.model
      && d.filters.priceRange == f.priceRange && d.filters.yearRange == f.yearRange
      && d.filters.fuelTypes == DecodeSingle(First(f.fuelTypes))
      && d.filters.transmissions == DecodeSingle(First(f.transmissions))
      && d.filters.status == DecodeStatus(Join(f.status, ','))
      && d.search == q
      && d.page == ParseInt(NumToString(p))
  {
    var def := DefaultFilters(currentYear);
    var sp := Encode(f, q, Some(p), currentYear);
    EncodedTexts(f, q, p, currentYear);
    EncodedRange(f, q, p, currentYear, PriceMinKey, PriceMaxKey, f.priceRange, def.priceRange);
    EncodedRange(f, q, p, currentYear, YearMinKey, YearMaxKey, f.yearRange, def.yearRange);
    EncodeByKey(f, q, Some(p), currentYear, PageKey);
    NumToStringNotEmpty(p);
    assert Bound(Get(sp, PageKey), Int(1)) == ParseInt(NumToString(p));
    DecodeParts(sp, currentYear);
  }

  /** Decoding, part by part. */
  lemma DecodeParts(sp: Params, currentYear: int)
    ensures var d := Decode(sp, currentYear);
      var def := DefaultFilters(currentYear);
      && d.filters.brand == GetOrEmpty(sp, BrandKey) && d.filters.model == GetOrEmpty(sp, ModelKey)
      && d.filters.priceRange == DecodeRange(sp, PriceMinKey, PriceMaxKey, def.priceRange)
      && d.filters.yearRange == DecodeRange(sp, YearMinKey, YearMaxKey, def.yearRange)
      && d.filters.fuelTypes == DecodeSingle(GetOrEmpty(sp, FuelKey))
      && d.filters.transmissions == DecodeSingle(GetOrEmpty(sp, TransmissionKey))
      && d.filters.status == DecodeStatus(GetOrEmpty(sp, StatusKey))
      && d.search == GetOrEmpty(sp, SearchKey)
      && d.page == Bound(Get(sp, PageKey), Int(1))
  {
  }

  /** The text-valued keys of the serialized state read back as the fields
      they came from (an absent key reads as the empty string). */
  lemma EncodedTexts(f: FilterOptions, q: string, p: Num, currentYear: int)
    ensures var sp := Encode(f, q, Some(p), currentYear);
      && GetOrEmpty(sp, BrandKey) == f.brand && GetOrEmpty(sp, ModelKey) == f.model
      && GetOrEmpty(sp, FuelKey) == First(f.fuelTypes)
      && GetOrEmpty(sp, TransmissionKey) == First(f.transmissions)
      && GetOrEmpty(sp, StatusKey) == Join(f.status, ',')
      && GetOrEmpty(sp, SearchKey) == q
  {
    var sp := Encode(f, q, Some(p), currentYear);
    EncodeByKey(f, q, Some(p), currentYear, BrandKey);
    assert GetOrEmpty(sp, BrandKey) == f.brand;
    EncodeByKey(f, q, Some(p), currentYear, ModelKey);
    assert GetOrEmpty(sp, ModelKey) == f.model;
    EncodeByKey(f, q, Some(p), currentYear, FuelKey);
    assert GetOrEmpty(sp, FuelKey) == First(f.fuelTypes);
    EncodeByKey(f, q, Some(p), currentYear, TransmissionKey);
    assert GetOrEmpty(sp, TransmissionKey) == First(f.transmissions);
    EncodeByKey(f, q, Some(p), currentYear, StatusKey);
    assert GetOrEmpty(sp, StatusKey) == Join(f.status, ',');
    EncodeByKey(f, q, Some(p), currentYear, SearchKey);
  }

  /** A range with no NaN bound decodes to itself from the serialized state. */
  lemma EncodedRange(f: FilterOptions, q: string, p: Num, currentYear: int,
                     minKey: Key, maxKey: Key, r: (Num, Num), def: (Num, Num))
    requires r.0.Int? && r.1.Int? && def.0.Int? && def.1.Int?
    requires (minKey, maxKey, r, def) == (PriceMinKey, PriceMaxKey, f.priceRange, DefaultFilters(currentYear).priceRange)
          || (minKey, maxKey, r, def) == (YearMinKey, YearMaxKey, f.yearRange, DefaultFilters(currentYear).yearRange)
    ensures DecodeRange(Encode(f, q, Some(p), currentYear), minKey, maxKey, def) == r
  {
    var sp := Encode(f, q, Some(p), currentYear);
    EncodeByKey(f, q, Some(p), currentYear, minKey);
    EncodeByKey(f, q, Some(p), currentYear, maxKey);
    DecodedRange(sp, minKey, maxKey, r, def);
  }

  lemma DecodedRange(sp: Params, minKey: Key, maxKey: Key, r: (Num, Num), def: (Num, Num))
    requires r.0.Int? && r.1.Int? && def.0.Int? && def.1.Int?
    requires Get(sp, minKey) == (if SameRange(r, def) then None else Some(NumToString(r.0)))
    requires Get(sp, maxKey) == (if SameRange(r, def) then None else Some(NumToString(r.1)))
    ensures DecodeRange(sp, minKey, maxKey, def) == r
  {
    EncodedBound(r.0, def.0, SameRange(r, def));
    EncodedBound(r.1, def.1, SameRange(r, def));
  }

  /** A serialized bound decodes to itself; one left out because its range
      is the default decodes to the default, which is then the same value. */
  lemma EncodedBound(x: Num, fallback: Num, same: bool)
    requires x.Int? && fallback.Int?
    requires same ==> StrictEq(x, fallback)
    ensures Bound(if same then None else Some(NumToString(x)), fallback) == x
  {
    if !same {
      ParseIntOfIntToString(x.v);
      NumToStringNotEmpty(x);
    }
  }

  /** Clean status tokens survive join, split and `filter(Boolean)`. */
  lemma StatusRoundTrip(xs: seq<string>)
    requires CleanTokens(xs)
    ensures DecodeStatus(Join(xs, ',')) == xs
  {
    if |xs| > 0 {
      JoinNotEmpty(xs);
      SplitJoin(xs, ',');
      NonEmptyIdentity(xs);
    }
  }

  lemma NumToStringNotEmpty(x: Num)
    ensures NumToString(x) != ""
  {
  }

  lemma JoinNotEmpty(xs: seq<string>)
    requires |xs| > 0 && CleanTokens(xs)
    ensures Join(xs, ',') != ""
  {
    if |xs| > 1 {
      assert |Join(xs, ',')| >= |xs[0]| + 1;
    }
  }

  /** The round trip: within the fields the codec covers, decoding the
      serialized filters, term and page gives them back exactly. */
  lemma RoundTrip(f: FilterOptions, q: string, p: Num, currentYear: int)
    requires Encodable(f) && p.Int?
    requires SingleOrNone(f.fuelTypes) && SingleOrNone(f.transmissions)
    requires f.mileageRange == DefaultFilters(currentYear).mileageRange
    requires f.bodyTypes == DefaultFilters(currentYear).bodyTypes
    ensures Decode(Encode(f, q, Some(p), currentYear), currentYear) == Decoded(f, q, p)
  {
    DecodeEncodeFields(f, q, p, currentYear);
    StatusRoundTrip(f.status);
    ParseIntOfIntToString(p.v);
    var d := Decode(Encode(f, q, Some(p), currentYear), currentYear);
    assert d.filters.fuelTypes == f.fuelTypes;
    assert d.filters.transmissions == f.transmissions;
  }

  /** Status values drawn from the status type are clean tokens, so a filter
      built from the panel's status toggle round-trips. */
  lemma StatusValuesAreClean(xs: seq<string>)
    requires forall i :: 0 <= i < |xs| ==> IsStatus(xs[i])
    ensures CleanTokens(xs)
  {
  }

  /** The defaults with no search term on page 1 serialize to `{page: "1"}`. */
  lemma EncodeDefaults(currentYear: int)
    ensures Encode(DefaultFilters(currentYear), "", Some(Int(1)), currentYear) == map[PageKey := "1"]
  {
  }

  /** The defaults with status `["sold"]` serialize to `{status: "sold", page: "1"}`. */
  lemma EncodeSoldOnly(currentYear: int)
    ensures Encode(DefaultFilters(currentYear).(status := ["sold"]), "", Some(Int(1)), currentYear)
      == map[StatusKey := "sold", PageKey := "1"]
  {
  }

  /** A missing lower bound falls back alone: the upper bound is still parsed. */
  lemma DecodeFallsBackPerBound(sp: Params, currentYear: int)
    requires PriceMinKey !in sp && PriceMaxKey in sp && sp[PriceMaxKey] != ""
    ensures Decode(sp, currentYear).filters.priceRange == (Int(0), ParseInt(sp[PriceMaxKey]))
  {
  }

  /** `?brand=Toyota&priceMin=10&priceMax=50&page=2` decodes to brand Toyota,
      price range [10, 50] and page 2, every other field at its default. */
  lemma DecodeExample(currentYear: int)
    ensures var sp := map[BrandKey := "Toyota", PriceMinKey := "10", PriceMaxKey := "50", PageKey := "2"];
      Decode(sp, currentYear) ==
        Decoded(DefaultFilters(currentYear).(brand := "Toyota", priceRange := (Int(10), Int(50))), "", Int(2))
  {
    var sp: Params := map[BrandKey := "Toyota", PriceMinKey := "10", PriceMaxKey := "50", PageKey := "2"];
    var def := DefaultFilters(currentYear);
    ExampleLookups(sp);
    ParseIntExamples();
    DecodeRangeOf(sp, PriceMinKey, PriceMaxKey, def.priceRange, "10", "50");
    DecodeParts(sp, currentYear);
  }

  /** What the decoder finds in `?brand=Toyota&priceMin=10&priceMax=50&page=2`. */
  lemma ExampleLookups(sp: Params)
    requires sp == map[BrandKey := "Toyota", PriceMinKey := "10", PriceMaxKey := "50", PageKey := "2"]
    ensures Get(sp, PriceMinKey) == Some("10") && Get(sp, PriceMaxKey) == Some("50")
    ensures Get(sp, YearMinKey) == None && Get(sp, YearMaxKey) == None
    ensures Get(sp, PageKey) == Some("2")
    ensures GetOrEmpty(sp, FuelKey) == "" && GetOrEmpty(sp, TransmissionKey) == ""
    ensures GetOrEmpty(sp, StatusKey) == "" && GetOrEmpty(sp, SearchKey) == ""
    ensures GetOrEmpty(sp, BrandKey) == "Toyota" && GetOrEmpty(sp, ModelKey) == ""
  {
  }

  /** Two present, non-empty bounds are both parsed. */
  lemma DecodeRangeOf(sp: Params, minKey: Key, maxKey: Key, def: (Num, Num), a: string, b: string)
    requires Get(sp, minKey) == Some(a) && Get(sp, maxKey) == Some(b) && a != "" && b != ""
    ensures DecodeRange(sp, minKey, maxKey, def) == (ParseInt(a), ParseInt(b))
  {
  }

  lemma ParseIntExamples()
    ensures ParseInt("2") == Int(2) && ParseInt("10") == Int(10) && ParseInt("50") == Int(50)
  {
    ParsesTen();
    ParsesFifty();
    ParsesTwo();
  }

  lemma ParsesTen()
    ensures ParseInt("10") == Int(10)
  {
    var s := "10";
    assert s[..1] == "1" && "1"[..0] == [];
    assert DigitsValue("1", 10) == 1;
    assert DigitsValue(s, 10) == 10;
    ParseIntOfDigits(s);
  }

  lemma ParsesFifty()
    ensures ParseInt("50") == Int(50)
  {
    var s := "50";
    assert s[..1] == "5" && "5"[..0] == [];
    assert DigitsValue("5", 10) == 5;
    assert DigitsValue(s, 10) == 50;
    ParseIntOfDigits(s);
  }

  lemma ParsesTwo()
    ensures ParseInt("2") == Int(2)
  {
    var s := "2";
    assert s[..0] == [];
    assert DigitsValue(s, 10) == 2;
    ParseIntOfDigits(s);
  }

  /** A search term with no brand or model fills both; nothing else changes
      the page and limit that are sent. */
  lemma SearchTermFillsBoth(currentYear: int)
    ensures var r := ApiSearchParams(DefaultFilters(currentYear), "Camry", Int(1));
      r.model == Some("Camry") && r.brand == Some("Camry") && r.page == Int(1) && r.limit == 9 &&
      r.priceMin == Int(0) && r.priceMax == Int(5000) && r.yearMin == Int(1980) &&
      r.yearMax == Int(currentYear + 1) && r.fuel.None? && r.transmission.None?
  {
  }

  /** The request does not depend on status, mileage or body types. */
  lemma QueryIgnoresUnsentFields(f: FilterOptions, g: FilterOptions, searchTerm: string, page: Num)
    requires f.(status := g.status, mileageRange := g.mileageRange, bodyTypes := g.bodyTypes) == g
    ensures ApiSearchParams(f, searchTerm, page) == ApiSearchParams(g, searchTerm, page)
  {
  }

  /** A page beyond the last is clamped down to the last; a page already in
      range stays; the result never exceeds the last page. */
  lemma ClampKeepsPageInRange(page: Num, total: int)
    requires page.Int? && page.v >= 1
    ensures var tp := TotalPages(total);
      var r := ClampPage(page, tp);
      r.Int? && 1 <= r.v <= tp && (page.v <= tp ==> r == page) && (page.v > tp ==> r == Int(tp))
  {
  }

  /** With no results, any page clamps to page 1. */
  lemma ClampWithNoResults(page: Num)
    requires page.Int? && page.v >= 1
    ensures ClampPage(page, TotalPages(0)) == Int(1)
  {
  }

  /** Prev and Next keep a page within `[1, totalPages]` and move it by one
      whenever their button is enabled. */
  lemma PagerStaysInRange(page: Num, totalPages: int)
    requires totalPages >= 1 && page.Int? && 1 <= page.v <= totalPages
    ensures var p := PrevPage(page); p.Int? && 1 <= p.v <= totalPages
    ensures var n := NextPage(page, totalPages); n.Int? && 1 <= n.v <= totalPages
    ensures !PrevDisabled(page) ==> PrevPage(page) == Int(page.v - 1)
    ensures !NextDisabled(page, totalPages) ==> NextPage(page, totalPages) == Int(page.v + 1)
    ensures PrevDisabled(page) <==> page.v == 1
    ensures NextDisabled(page, totalPages) <==> page.v == totalPages
  {
  }
}

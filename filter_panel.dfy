/** The filter side panel of the inventory page. Every handler builds a new
    filter record from the current one and hands it to the page; nothing
    inside the panel is mutable, so each handler is a function here. */
module FilterPanel {
  import opened Js
  import opened Types
  import Inventory
  import Catalogue

  // ------------------------------------------------------- updateFilters

  /** The keys of the filter record. */
  datatype FieldName = BrandField | ModelField | PriceField | YearField | MileageField
                     | FuelField | TransmissionField | BodyField | StatusField

  /** The value held under one key: a text, a pair of bounds or a list. */
  datatype FieldValue = Text(s: string) | Range(r: (Num, Num)) | List(xs: seq<string>)

  /** `filters[key]`. */
  function FieldOf(f: FilterOptions, k: FieldName): FieldValue
  {
    match k
    case BrandField => Text(f.brand)
    case ModelField => Text(f.model)
    case PriceField => Range(f.priceRange)
    case YearField => Range(f.yearRange)
    case MileageField => Range(f.mileageRange)
    case FuelField => List(f.fuelTypes)
    case TransmissionField => List(f.transmissions)
    case BodyField => List(f.bodyTypes)
    case StatusField => List(f.status)
  }

  /** The value has the type the record declares for the key. */
  predicate Fits(k: FieldName, v: FieldValue)
  {
    match k
    case BrandField | ModelField => v.Text?
    case PriceField | YearField | MileageField => v.Range?
    case _ => v.List?
  }

  /** Two filter records holding the same value under every key are equal. */
  lemma FieldsDetermine(a: FilterOptions, b: FilterOptions)
    requires forall k :: FieldOf(a, k) == FieldOf(b, k)
    ensures a == b
  {
    assert FieldOf(a, BrandField) == FieldOf(b, BrandField);
    assert FieldOf(a, ModelField) == FieldOf(b, ModelField);
    assert FieldOf(a, PriceField) == FieldOf(b, PriceField);
    assert FieldOf(a, YearField) == FieldOf(b, YearField);
    assert FieldOf(a, MileageField) == FieldOf(b, MileageField);
    assert FieldOf(a, FuelField) == FieldOf(b, FuelField);
    assert FieldOf(a, TransmissionField) == FieldOf(b, TransmissionField);
    assert FieldOf(a, BodyField) == FieldOf(b, BodyField);
    assert FieldOf(a, StatusField) == FieldOf(b, StatusField);
  }

  /** `{ ...filters, [key]: value }`: the key now holds the value and every
      other key keeps its old one. */
  function UpdateFilters(f: FilterOptions, k: FieldName, v: FieldValue): (r: FilterOptions)
    requires Fits(k, v)
    ensures FieldOf(r, k) == v
    ensures forall k' :: k' != k ==> FieldOf(r, k') == FieldOf(f, k')
  {
    match k
    case BrandField => f.(brand := v.s)
    case ModelField => f.(model := v.s)
    case PriceField => f.(priceRange := v.r)
    case YearField => f.(yearRange := v.r)
    case MileageField => f.(mileageRange := v.r)
    case FuelField => f.(fuelTypes := v.xs)
    case TransmissionField => f.(transmissions := v.xs)
    case BodyField => f.(bodyTypes := v.xs)
    case StatusField => f.(status := v.xs)
  }

  /** Writing back the value a key already holds changes nothing, and a
      second write to the same key overrides the first. */
  lemma UpdateLaws(f: FilterOptions, k: FieldName, v: FieldValue, w: FieldValue)
    requires Fits(k, v) && Fits(k, w)
    ensures UpdateFilters(f, k, FieldOf(f, k)) == f
    ensures UpdateFilters(UpdateFilters(f, k, v), k, w) == UpdateFilters(f, k, w)
  {
    assert Fits(k, FieldOf(f, k));
    FieldsDetermine(UpdateFilters(f, k, FieldOf(f, k)), f);
    FieldsDetermine(UpdateFilters(UpdateFilters(f, k, v), k, w), UpdateFilters(f, k, w));
  }

  // ------------------------------------------------------- clearFilters

  /** "Clear All": the record the panel resets to. */
  function ClearFilters(currentYear: int): (r: FilterOptions)
    ensures r == Inventory.DefaultFilters(currentYear)
  {
    FilterOptions("", "", (Int(0), Int(5000)), (Int(1980), Int(currentYear + 1)),
                  (Int(0), Int(200000)), [], [], [], [])
  }

  // ------------------------------------------- brand and model choices

  /** `serverBrands && serverBrands.length > 0 ? serverBrands : brands`. */
  function BrandsToShow(serverBrands: Option<seq<string>>): (r: seq<string>)
    ensures serverBrands.Some? && serverBrands.value != [] ==> r == serverBrands.value
    ensures serverBrands.None? || serverBrands.value == [] ==> r == Catalogue.BrandList
  {
    Catalogue.BrandsValue();
    if serverBrands.Some? && |serverBrands.value| > 0 then serverBrands.value else Catalogue.Brands()
  }

  /** The server's brand-to-model table when it has at least one key, else
      the local table. */
  function BrandModelsToUse(serverBrandModels: Option<map<string, seq<string>>>): map<string, seq<string>>
  {
    if serverBrandModels.Some? && |serverBrandModels.value.Keys| > 0 then serverBrandModels.value
    else Catalogue.BrandModels
  }

  /** `table[brand] || []`. */
  function ModelsOf(table: map<string, seq<string>>, brand: string): seq<string>
  {
    if brand in table then table[brand] else []
  }

  /** `getAvailableModels`: nothing while no brand is chosen, else the
      brand's models (none for a brand the table does not know). */
  function AvailableModels(f: FilterOptions, table: map<string, seq<string>>): seq<string>
  {
    if f.brand == "" then [] else ModelsOf(table, f.brand)
  }

  /** With the local table, a catalogue car's model is offered once the car's
      brand is chosen. */
  lemma CatalogueModelsOffered(f: FilterOptions, i: nat)
    requires i < |Catalogue.Cars| && f.brand == Catalogue.Cars[i].brand
    ensures Catalogue.Cars[i].model in AvailableModels(f, BrandModelsToUse(None))
  {
    Catalogue.ModelListed(i);
    assert f.brand != "" by {
      Catalogue.ModelListed(i);
      assert "" !in Catalogue.BrandModels;
    }
  }

  /** The brand select: the model is kept when it fits the new brand and
      cleared otherwise; no other filter changes. */
  function ChangeBrand(f: FilterOptions, newBrand: string, table: map<string, seq<string>>): (r: FilterOptions)
    ensures r.brand == newBrand
    ensures forall k :: k != BrandField && k != ModelField ==> FieldOf(r, k) == FieldOf(f, k)
    ensures ModelFitsBrand(f.(brand := newBrand), table) ==> r.model == f.model
    ensures !ModelFitsBrand(f.(brand := newBrand), table) ==> r.model == ""
  {
    var availableModels := ModelsOf(table, newBrand);
    var retainedModel := if f.model in availableModels then f.model else "";
    f.(brand := newBrand, model := retainedModel)
  }

  /** A model that is chosen belongs to the chosen brand. */
  predicate ModelFitsBrand(f: FilterOptions, table: map<string, seq<string>>)
  {
    f.model == "" || f.model in ModelsOf(table, f.brand)
  }

  /** The brand select always leaves a model that fits the new brand. */
  lemma ChangeBrandFits(f: FilterOptions, newBrand: string, table: map<string, seq<string>>)
    ensures ModelFitsBrand(ChangeBrand(f, newBrand, table), table)
  {
  }

  /** The model select: `updateFilters('model', value)`. */
  function SelectModel(f: FilterOptions, model: string): (r: FilterOptions)
    ensures r.model == model
    ensures forall k :: k != ModelField ==> FieldOf(r, k) == FieldOf(f, k)
  {
    UpdateFilters(f, ModelField, Text(model))
  }

  /** Picking "All" or one of the offered models keeps the model fitting the
      brand. */
  lemma SelectModelFits(f: FilterOptions, model: string, table: map<string, seq<string>>)
    requires model == "" || model in AvailableModels(f, table)
    ensures ModelFitsBrand(SelectModel(f, model), table)
  {
  }

  // ------------------------------------------------------ price sliders

  /** The lower price slider: `parseInt` of the slider's value replaces the
      lower bound, unless it would exceed the upper bound (or is NaN). */
  function PriceMinChange(f: FilterOptions, raw: string): (r: FilterOptions)
    ensures Le(ParseInt(raw), f.priceRange.1) ==> r.priceRange == (ParseInt(raw), f.priceRange.1)
    ensures !Le(ParseInt(raw), f.priceRange.1) ==> r == f
    ensures forall k :: k != PriceField ==> FieldOf(r, k) == FieldOf(f, k)
  {
    var newMin := ParseInt(raw);
    if Le(newMin, f.priceRange.1) then UpdateFilters(f, PriceField, Range((newMin, f.priceRange.1)))
    else f
  }

  /** The upper price slider, symmetric to the lower one. */
  function PriceMaxChange(f: FilterOptions, raw: string): (r: FilterOptions)
    ensures Le(f.priceRange.0, ParseInt(raw)) ==> r.priceRange == (f.priceRange.0, ParseInt(raw))
    ensures !Le(f.priceRange.0, ParseInt(raw)) ==> r == f
    ensures forall k :: k != PriceField ==> FieldOf(r, k) == FieldOf(f, k)
  {
    var newMax := ParseInt(raw);
    if Le(f.priceRange.0, newMax) then UpdateFilters(f, PriceField, Range((f.priceRange.0, newMax)))
    else f
  }

  /** Neither bound is NaN and the lower does not exceed the upper. */
  predicate PriceOrdered(f: FilterOptions)
  {
    Le(f.priceRange.0, f.priceRange.1)
  }

  /** A slider edit that takes effect leaves the range ordered, and one
      applied to an ordered range keeps it ordered. */
  lemma SliderEditOrdered(f: FilterOptions, raw: string)
    ensures PriceMinChange(f, raw) != f ==> PriceOrdered(PriceMinChange(f, raw))
    ensures PriceMaxChange(f, raw) != f ==> PriceOrdered(PriceMaxChange(f, raw))
    ensures PriceOrdered(f) ==> PriceOrdered(PriceMinChange(f, raw)) && PriceOrdered(PriceMaxChange(f, raw))
  {
  }

  /** One movement of either slider, carrying the slider's value text. */
  datatype SliderEdit = MinTo(raw: string) | MaxTo(raw: string)

  function ApplySlider(f: FilterOptions, e: SliderEdit): FilterOptions
  {
    match e
    case MinTo(raw) => PriceMinChange(f, raw)
    case MaxTo(raw) => PriceMaxChange(f, raw)
  }

  /** The filters after a run of slider movements, in order. */
  function ApplySliders(f: FilterOptions, es: seq<SliderEdit>): FilterOptions
    decreases |es|
  {
    if es == [] then f else ApplySliders(ApplySlider(f, es[0]), es[1..])
  }

  /** Whatever the user does with the two sliders, an ordered price range
      stays ordered and no other field moves. */
  lemma {:induction false} SlidersKeepOrder(f: FilterOptions, es: seq<SliderEdit>)
    requires PriceOrdered(f)
    ensures PriceOrdered(ApplySliders(f, es))
    ensures forall k :: k != PriceField ==> FieldOf(ApplySliders(f, es), k) == FieldOf(f, k)
    decreases |es|
  {
    if es != [] {
      var g := ApplySlider(f, es[0]);
      SliderEditOrdered(f, es[0].raw);
      SlidersKeepOrder(g, es[1..]);
    }
  }

  /** The slider reports its position `n` as decimal text, so a movement to
      `n` is applied exactly when it keeps the bounds ordered. */
  lemma SliderPosition(f: FilterOptions, n: nat)
    requires f.priceRange.0.Int? && f.priceRange.1.Int?
    ensures n <= f.priceRange.1.v ==> PriceMinChange(f, IntToString(n)).priceRange == (Int(n), f.priceRange.1)
    ensures n > f.priceRange.1.v ==> PriceMinChange(f, IntToString(n)) == f
    ensures n >= f.priceRange.0.v ==> PriceMaxChange(f, IntToString(n)).priceRange == (f.priceRange.0, Int(n))
    ensures n < f.priceRange.0.v ==> PriceMaxChange(f, IntToString(n)) == f
  {
    ParseIntOfIntToString(n);
  }

  // -------------------------------------------------------- year selects

  /** The "from" year select replaces the lower bound only. */
  function YearMinChange(f: FilterOptions, raw: string): (r: FilterOptions)
    ensures r.yearRange == (ParseInt(raw), f.yearRange.1)
    ensures forall k :: k != YearField ==> FieldOf(r, k) == FieldOf(f, k)
  {
    UpdateFilters(f, YearField, Range((ParseInt(raw), f.yearRange.1)))
  }

  /** The "to" year select replaces the upper bound only. */
  function YearMaxChange(f: FilterOptions, raw: string): (r: FilterOptions)
    ensures r.yearRange == (f.yearRange.0, ParseInt(raw))
    ensures forall k :: k != YearField ==> FieldOf(r, k) == FieldOf(f, k)
  {
    UpdateFilters(f, YearField, Range((f.yearRange.0, ParseInt(raw))))
  }

  /** The year selects do not keep the bounds ordered: choosing a "from"
      year after the "to" year is accepted as it is. */
  lemma YearSelectsUnordered(f: FilterOptions, year: nat)
    requires f.yearRange.1.Int? && year > f.yearRange.1.v
    ensures !Le(YearMinChange(f, IntToString(year)).yearRange.0, YearMinChange(f, IntToString(year)).yearRange.1)
    ensures YearMinChange(f, IntToString(year)).yearRange.0 == Int(year)
  {
    ParseIntOfIntToString(year);
  }

  // ------------------------------------------------------------ toggles

  /** The fuel buttons are single-select: pressing the selected fuel clears
      the choice, pressing another one makes it the only choice. */
  function ToggleFuel(f: FilterOptions, fuel: string): (r: FilterOptions)
    ensures fuel in f.fuelTypes ==> r.fuelTypes == []
    ensures fuel !in f.fuelTypes ==> r.fuelTypes == [fuel]
    ensures |r.fuelTypes| <= 1
    ensures forall k :: k != FuelField ==> FieldOf(r, k) == FieldOf(f, k)
  {
    var selected := fuel in f.fuelTypes;
    if selected then UpdateFilters(f, FuelField, List([])) else UpdateFilters(f, FuelField, List([fuel]))
  }

  /** After a press of a named fuel button the fuel list is one the URL codec
      keeps exactly, and pressing it again restores a cleared choice. */
  lemma ToggleFuelLaws(f: FilterOptions, fuel: string)
    requires fuel != ""
    ensures Inventory.SingleOrNone(ToggleFuel(f, fuel).fuelTypes)
    ensures f.fuelTypes == [] ==> ToggleFuel(ToggleFuel(f, fuel), fuel) == f
  {
    if f.fuelTypes == [] {
      var g := ToggleFuel(f, fuel);
      assert g.fuelTypes == [fuel];
      FieldsDetermine(ToggleFuel(g, fuel), f);
    }
  }

  /** Multi-select toggle: drop every copy of a present value, append an
      absent one at the end. */
  function Toggle(xs: seq<string>, x: string): (r: seq<string>)
    ensures x in xs ==> r == Without(xs, x)
    ensures x !in xs ==> r == xs + [x]
    ensures x in r <==> x !in xs
    ensures forall y :: y != x ==> (y in r <==> y in xs)
  {
    if x in xs then Without(xs, x) else xs + [x]
  }

  /** The value last appended is the one dropped again. */
  lemma {:induction false} WithoutAppended(xs: seq<string>, x: string)
    requires x !in xs
    ensures Without(xs + [x], x) == xs
  {
    if xs == [] {
      assert [] + [x] == [x];
      assert Without([x], x) == [] + Without([x][1..], x);
    } else {
      var ys := xs + [x];
      assert ys[1..] == xs[1..] + [x];
      assert ys[0] == xs[0] && xs[0] != x;
      WithoutAppended(xs[1..], x);
      calc {
        Without(ys, x);
        [xs[0]] + Without(ys[1..], x);
        [xs[0]] + xs[1..];
        xs;
      }
    }
  }

  /** Toggling an absent value twice changes nothing, and toggling keeps a
      list free of duplicates. */
  lemma ToggleLaws(xs: seq<string>, x: string)
    ensures x !in xs ==> Toggle(Toggle(xs, x), x) == xs
    ensures NoDuplicates(xs) ==> NoDuplicates(Toggle(xs, x))
  {
    if x !in xs {
      WithoutAppended(xs, x);
    }
    if NoDuplicates(xs) {
      if x in xs {
        WithoutKeepsNoDuplicates(xs, x);
      } else {
        var r := xs + [x];
        forall i, j | 0 <= i < j < |r| ensures r[i] != r[j] {
          if j == |xs| {
            assert r[i] == xs[i];
          } else {
            assert r[i] == xs[i] && r[j] == xs[j];
          }
        }
      }
    }
  }

  /** A transmission button. */
  function ToggleTransmission(f: FilterOptions, transmission: string): (r: FilterOptions)
    ensures r.transmissions == Toggle(f.transmissions, transmission)
    ensures forall k :: k != TransmissionField ==> FieldOf(r, k) == FieldOf(f, k)
  {
    UpdateFilters(f, TransmissionField, List(Toggle(f.transmissions, transmission)))
  }

  /** A status button: one of "available", "sold" and "reserved". */
  function ToggleStatus(f: FilterOptions, status: string): (r: FilterOptions)
    requires IsStatus(status)
    ensures r.status == Toggle(f.status, status)
    ensures forall k :: k != StatusField ==> FieldOf(r, k) == FieldOf(f, k)
  {
    UpdateFilters(f, StatusField, List(Toggle(f.status, status)))
  }

  /** Status values a filter state can hold after any status press. */
  predicate StatusesOnly(xs: seq<string>)
  {
    forall i :: 0 <= i < |xs| ==> IsStatus(xs[i])
  }

  /** The status buttons keep the list to status values, which the URL codec
      writes and reads back unchanged. */
  lemma ToggleStatusKeepsStatuses(f: FilterOptions, status: string)
    requires IsStatus(status) && StatusesOnly(f.status)
    ensures StatusesOnly(ToggleStatus(f, status).status)
    ensures Inventory.CleanTokens(ToggleStatus(f, status).status)
  {
    var r := ToggleStatus(f, status).status;
    forall i | 0 <= i < |r| ensures IsStatus(r[i]) {
      assert r[i] in r;
      if r[i] != status {
        assert r[i] in f.status;
        var j :| 0 <= j < |f.status| && f.status[j] == r[i];
      }
    }
    Inventory.StatusValuesAreClean(r);
  }
}

/** The filter record shared by the inventory page and its filter panel. */
module Types {
  import opened Js

  /** One filter selection. An empty `brand` or `model` means "All"; the
      ranges hold JavaScript numbers, so a bound decoded from a malformed
      query string can be NaN. */
  datatype FilterOptions = FilterOptions(
    brand: string,
    model: string,
    priceRange: (Num, Num),
    yearRange: (Num, Num),
    mileageRange: (Num, Num),
    fuelTypes: seq<string>,
    transmissions: seq<string>,
    bodyTypes: seq<string>,
    status: seq<string>)

  /** The three values the status type admits. */
  predicate IsStatus(s: string)
  {
    s == "available" || s == "sold" || s == "reserved"
  }
}

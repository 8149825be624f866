/** The static catalogue, and the option lists the filter panel derives
    from it: every distinct value of a field, in JavaScript's default sort
    order. */
module Catalogue {
  import opened Js

  /** One catalogue car. Images, features, description, location and the
      featured flags are not listed. Of the fields kept, the option lists
      read brand, fuel type, transmission and body type, and the brand
      table reads model; year, price, mileage, colour and status are
      carried as data only. */
  datatype Listing = Listing(
    id: string, brand: string, model: string, year: int, price: int, mileage: int,
    fuelType: string, transmission: string, bodyType: string, color: string, status: string)

  /** The 21 cars of the catalogue, in source order. */
  const Cars: seq<Listing> := [
    Listing("1", "Toyota", "Crown", 2020, 45000000, 35000, "Hybrid", "Automatic", "Sedan", "Pearl White", "available"),
    Listing("2", "Toyota", "Mark II", 2019, 38000000, 42000, "Petrol", "Automatic", "Sedan", "Silver Metallic", "available"),
    Listing("3", "Toyota", "Ractis", 2018, 32000000, 48000, "Petrol", "Automatic", "Hatchback", "Blue Metallic", "available"),
    Listing("4", "Toyota", "Camry", 2021, 52000000, 25000, "Hybrid", "Automatic", "Sedan", "Midnight Black", "available"),
    Listing("5", "Toyota", "Vitz", 2017, 28000000, 55000, "Petrol", "Automatic", "Hatchback", "Red", "sold"),
    Listing("6", "Honda", "Civic", 2020, 42000000, 38000, "Petrol", "Automatic", "Sedan", "White Pearl", "available"),
    Listing("7", "Honda", "CR-V", 2019, 48000000, 35000, "Petrol", "Automatic", "SUV", "Space Gray", "available"),
    Listing("8", "Honda", "Accord", 2018, 39000000, 45000, "Petrol", "Automatic", "Sedan", "Silver", "available"),
    Listing("9", "Honda", "Fit", 2019, 33000000, 41000, "Hybrid", "Automatic", "Hatchback", "Blue", "reserved"),
    Listing("10", "Nissan", "Altima", 2018, 35000000, 52000, "Petrol", "Automatic", "Sedan", "Midnight Blue", "available"),
    Listing("11", "Nissan", "X-Trail", 2020, 46000000, 32000, "Petrol", "Automatic", "SUV", "Gun Metallic", "available"),
    Listing("12", "Nissan", "March", 2017, 26000000, 58000, "Petrol", "Automatic", "Hatchback", "Pink", "sold"),
    Listing("13", "Mazda", "CX-5", 2021, 48000000, 25000, "Petrol", "Automatic", "SUV", "Soul Red", "available"),
    Listing("14", "Mazda", "Axela", 2019, 36000000, 43000, "Petrol", "Automatic", "Sedan", "White", "available"),
    Listing("15", "Mazda", "Demio", 2018, 29000000, 47000, "Petrol", "Automatic", "Hatchback", "Black", "available"),
    Listing("16", "BMW", "3 Series", 2020, 65000000, 32000, "Petrol", "Automatic", "Sedan", "Jet Black", "available"),
    Listing("17", "BMW", "X3", 2019, 72000000, 38000, "Petrol", "Automatic", "SUV", "Alpine White", "available"),
    Listing("18", "Hyundai", "Tucson", 2019, 38000000, 41000, "Petrol", "Automatic", "SUV", "Silver", "available"),
    Listing("19", "Hyundai", "Elantra", 2020, 34000000, 36000, "Petrol", "Automatic", "Sedan", "White", "available"),
    Listing("20", "Kia", "Optima", 2018, 32000000, 58000, "Petrol", "Automatic", "Sedan", "White Pearl", "sold"),
    Listing("21", "Kia", "Sportage", 2020, 44000000, 33000, "Petrol", "Automatic", "SUV", "Red", "available")
  ]

  /** The models offered for each brand. */
  const BrandModels: map<string, seq<string>> := map[
    "Toyota" := ["Crown", "Mark II", "Ractis", "Camry", "Vitz"],
    "Honda" := ["Civic", "CR-V", "Accord", "Fit"],
    "Nissan" := ["Altima", "X-Trail", "March"],
    "Mazda" := ["CX-5", "Axela", "Demio"],
    "BMW" := ["3 Series", "X3"],
    "Hyundai" := ["Tucson", "Elantra"],
    "Kia" := ["Optima", "Sportage"]
  ]

  // ---------------------------------------------------------------- order

  /** `a < b` under the default `sort`: lexicographic by code point, a proper
      prefix first. This is JavaScript's code-unit order for text without
      characters above U+FFFF, which covers every catalogue string. */
  predicate Less(a: string, b: string)
  {
    if a == [] then b != []
    else b != [] && (a[0] < b[0] || (a[0] == b[0] && Less(a[1..], b[1..])))
  }

  lemma {:induction false} LessIrreflexive(a: string)
    ensures !Less(a, a)
  {
    if a != [] { LessIrreflexive(a[1..]); }
  }

  lemma {:induction false} LessTransitive(a: string, b: string, c: string)
    requires Less(a, b) && Less(b, c)
    ensures Less(a, c)
  {
    if a != [] && b != [] && c != [] && a[0] == b[0] && b[0] == c[0] {
      LessTransitive(a[1..], b[1..], c[1..]);
    }
  }

  /** Two different strings are ordered one way or the other. */
  lemma {:induction false} LessTotal(a: string, b: string)
    requires a != b
    ensures Less(a, b) || Less(b, a)
  {
    if a != [] && b != [] && a[0] == b[0] {
      assert a == [a[0]] + a[1..] && b == [b[0]] + b[1..];
      LessTotal(a[1..], b[1..]);
    }
  }

  /** Each element is at most the next one. */
  predicate Sorted(xs: seq<string>)
  {
    |xs| <= 1 || ((xs[0] == xs[1] || Less(xs[0], xs[1])) && Sorted(xs[1..]))
  }

  /** Each element is below the next one, so sorted and duplicate-free. */
  predicate Ascending(xs: seq<string>)
  {
    |xs| <= 1 || (Less(xs[0], xs[1]) && Ascending(xs[1..]))
  }

  /** In an ascending list the head is below every later element. */
  lemma {:induction false} AscendingHeadLeast(xs: seq<string>, y: string)
    requires Ascending(xs) && |xs| > 0 && y in xs[1..]
    ensures Less(xs[0], y)
  {
    if xs[1] != y {
      AscendingHeadLeast(xs[1..], y);
      LessTransitive(xs[0], xs[1], y);
    }
  }

  /** An ascending list is determined by its elements. */
  lemma {:induction false} AscendingUnique(a: seq<string>, b: seq<string>)
    requires Ascending(a) && Ascending(b)
    requires forall x :: x in a <==> x in b
    ensures a == b
  {
    assert a != [] ==> a[0] in b;
    assert b != [] ==> b[0] in a;
    if a != [] && b != [] {
      assert a == [a[0]] + a[1..] && b == [b[0]] + b[1..];
      if a[0] != b[0] {
        assert b[0] in a && a[0] in b;
        assert b[0] in a[1..];
        assert a[0] in b[1..];
        AscendingHeadLeast(a, b[0]);
        AscendingHeadLeast(b, a[0]);
        LessTransitive(a[0], b[0], a[0]);
        LessIrreflexive(a[0]);
        assert false;
      }
      forall x
        ensures x in a[1..] <==> x in b[1..]
      {
        if x in a[1..] {
          AscendingHeadLeast(a, x);
          LessIrreflexive(x);
          assert x in b;
        }
        if x in b[1..] {
          AscendingHeadLeast(b, x);
          LessIrreflexive(x);
          assert x in a;
        }
      }
      AscendingUnique(a[1..], b[1..]);
    }
  }

  /** A sorted list without duplicates is ascending. */
  lemma {:induction false} SortedDistinctAscending(xs: seq<string>)
    requires Sorted(xs) && NoDuplicates(xs)
    ensures Ascending(xs)
  {
    if |xs| > 1 {
      assert xs[0] != xs[1];
      assert NoDuplicates(xs[1..]) by {
        forall i, j | 0 <= i < j < |xs| - 1 ensures xs[1..][i] != xs[1..][j] {
          assert xs[1..][i] == xs[i + 1] && xs[1..][j] == xs[j + 1];
        }
      }
      SortedDistinctAscending(xs[1..]);
    }
  }

  // -------------------------------------------------- Set and sort

  /** `Array.from(new Set(xs))`: first occurrences, in order. */
  function Distinct(xs: seq<string>): (r: seq<string>)
    ensures NoDuplicates(r)
    ensures forall x :: x in r <==> x in xs
  {
    if xs == [] then []
    else
      var d := Distinct(xs[..|xs| - 1]);
      var last := xs[|xs| - 1];
      assert xs == xs[..|xs| - 1] + [last];
      if last in d then d else d + [last]
  }

  /** Place `x` before the first element it does not exceed. */
  function Insert(x: string, ys: seq<string>): seq<string>
  {
    if ys == [] then [x]
    else if x == ys[0] || Less(x, ys[0]) then [x] + ys
    else [ys[0]] + Insert(x, ys[1..])
  }

  /** `xs.sort()` with the default comparison. */
  function Sort(xs: seq<string>): seq<string>
  {
    if xs == [] then [] else Insert(xs[0], Sort(xs[1..]))
  }

  lemma {:induction false} InsertSorted(x: string, ys: seq<string>)
    requires Sorted(ys)
    ensures Sorted(Insert(x, ys))
    ensures multiset(Insert(x, ys)) == multiset(ys) + multiset{x}
    ensures |Insert(x, ys)| > 0 && (Insert(x, ys)[0] == x || (ys != [] && Insert(x, ys)[0] == ys[0]))
  {
    InsertPermutes(x, ys);
    if ys != [] && !(x == ys[0] || Less(x, ys[0])) {
      var t := Insert(x, ys[1..]);
      InsertSorted(x, ys[1..]);
      LessTotal(x, ys[0]);
      assert Insert(x, ys) == [ys[0]] + t;
      assert ([ys[0]] + t)[1..] == t;
    }
  }

  /** Inserting adds one occurrence of the value and keeps the others. */
  lemma {:induction false} InsertPermutes(x: string, ys: seq<string>)
    ensures multiset(Insert(x, ys)) == multiset(ys) + multiset{x}
  {
    if ys != [] && !(x == ys[0] || Less(x, ys[0])) {
      InsertPermutes(x, ys[1..]);
      assert ys == [ys[0]] + ys[1..];
    }
  }

  /** The default sort gives a sorted permutation of its input. */
  lemma {:induction false} SortSorted(xs: seq<string>)
    ensures Sorted(Sort(xs))
    ensures multiset(Sort(xs)) == multiset(xs)
  {
    if xs != [] {
      SortSorted(xs[1..]);
      InsertSorted(xs[0], Sort(xs[1..]));
      assert xs == [xs[0]] + xs[1..];
    }
  }

  /** A permutation of a duplicate-free list is duplicate-free. */
  lemma PermutationNoDuplicates(xs: seq<string>, ys: seq<string>)
    requires multiset(xs) == multiset(ys) && NoDuplicates(xs)
    ensures NoDuplicates(ys)
  {
    forall i, j | 0 <= i < j < |ys| ensures ys[i] != ys[j] {
      if ys[i] == ys[j] {
        var v := ys[i];
        assert multiset(ys)[v] >= 2 by {
          var rest := ys[..i] + ys[i + 1..];
          assert ys == ys[..i] + [v] + ys[i + 1..];
          assert rest[j - 1] == v;
          assert v in multiset(rest);
          calc {
            multiset(ys)[v];
            multiset(ys[..i])[v] + 1 + multiset(ys[i + 1..])[v];
            multiset(rest)[v] + 1;
          }
        }
        DistinctCountsOne(xs, v);
      }
    }
  }

  /** In a duplicate-free list every value occurs at most once. */
  lemma {:induction false} DistinctCountsOne(xs: seq<string>, v: string)
    requires NoDuplicates(xs)
    ensures multiset(xs)[v] <= 1
  {
    if xs != [] {
      assert NoDuplicates(xs[1..]) by {
        forall i, j | 0 <= i < j < |xs| - 1 ensures xs[1..][i] != xs[1..][j] {
          assert xs[1..][i] == xs[i + 1] && xs[1..][j] == xs[j + 1];
        }
      }
      DistinctCountsOne(xs[1..], v);
      assert xs == [xs[0]] + xs[1..];
      if xs[0] == v {
        assert v !in xs[1..];
      }
    }
  }

  /** `Array.from(new Set(xs)).sort()`: ascending, and holding exactly the
      values of `xs`. */
  function Options(xs: seq<string>): (r: seq<string>)
    ensures Ascending(r)
    ensures forall x :: x in r <==> x in xs
  {
    var d := Distinct(xs);
    SortSorted(d);
    PermutationNoDuplicates(d, Sort(d));
    SortedDistinctAscending(Sort(d));
    assert forall x :: x in Sort(d) <==> x in multiset(d);
    Sort(d)
  }

  // ------------------------------------------------------------ columns

  /** The fields the option lists are drawn from. */
  datatype Column = BrandColumn | FuelColumn | TransmissionColumn | BodyColumn

  function FieldOf(c: Listing, col: Column): string
  {
    match col
    case BrandColumn => c.brand
    case FuelColumn => c.fuelType
    case TransmissionColumn => c.transmission
    case BodyColumn => c.bodyType
  }

  /** `cars.map(car => car.<field>)`. */
  function Values(cs: seq<Listing>, col: Column): seq<string>
  {
    seq(|cs|, i requires 0 <= i < |cs| => FieldOf(cs[i], col))
  }

  function Brands(): seq<string> { Options(Values(Cars, BrandColumn)) }
  function FuelTypes(): seq<string> { Options(Values(Cars, FuelColumn)) }
  function Transmissions(): seq<string> { Options(Values(Cars, TransmissionColumn)) }
  function BodyTypes(): seq<string> { Options(Values(Cars, BodyColumn)) }

  // ------------------------------------------------- the derived lists

  /** An ascending list holding exactly a column's values is that
      column's option list; `w[j]` names a row whose field is `lit[j]`. */
  lemma OptionsAre(cs: seq<Listing>, col: Column, lit: seq<string>, w: seq<nat>)
    requires Ascending(lit)
    requires forall i :: 0 <= i < |cs| ==> FieldOf(cs[i], col) in lit
    requires |w| == |lit| && forall j :: 0 <= j < |w| ==> w[j] < |cs| && FieldOf(cs[w[j]], col) == lit[j]
    ensures Options(Values(cs, col)) == lit
  {
    var v := Values(cs, col);
    forall x ensures x in v <==> x in lit {
      if x in v {
        var i :| 0 <= i < |v| && v[i] == x;
      }
      if x in lit {
        var j :| 0 <= j < |lit| && lit[j] == x;
        assert v[w[j]] == x;
      }
    }
    AscendingUnique(Options(v), lit);
  }

  const BrandList: seq<string> := ["BMW", "Honda", "Hyundai", "Kia", "Mazda", "Nissan", "Toyota"]

  lemma BrandListAscending()
    ensures Ascending(BrandList)
  {
  }

  lemma BrandColumnCovered()
    ensures forall i :: 0 <= i < |Cars| ==> FieldOf(Cars[i], BrandColumn) in BrandList
  {
  }

  lemma BrandWitnesses()
    ensures forall j :: 0 <= j < 7 ==>
      [15, 5, 17, 19, 12, 9, 0][j] < |Cars| && FieldOf(Cars[[15, 5, 17, 19, 12, 9, 0][j]], BrandColumn) == BrandList[j]
  {
  }

  /** The brands of the catalogue, sorted. */
  lemma BrandsValue()
    ensures Brands() == BrandList
  {
    BrandListAscending();
    BrandColumnCovered();
    BrandWitnesses();
    OptionsAre(Cars, BrandColumn, BrandList, [15, 5, 17, 19, 12, 9, 0]);
  }

  lemma FuelTypesValue()
    ensures FuelTypes() == ["Hybrid", "Petrol"]
  {
    var lit := ["Hybrid", "Petrol"];
    assert forall i :: 0 <= i < |Cars| ==> FieldOf(Cars[i], FuelColumn) in lit;
    OptionsAre(Cars, FuelColumn, lit, [0, 1]);
  }

  lemma TransmissionsValue()
    ensures Transmissions() == ["Automatic"]
  {
    var lit := ["Automatic"];
    assert forall i :: 0 <= i < |Cars| ==> FieldOf(Cars[i], TransmissionColumn) in lit;
    OptionsAre(Cars, TransmissionColumn, lit, [0]);
  }

  const BodyList: seq<string> := ["Hatchback", "SUV", "Sedan"]

  lemma BodyColumnCovered()
    ensures forall i :: 0 <= i < |Cars| ==> FieldOf(Cars[i], BodyColumn) in BodyList
  {
  }

  lemma BodyTypesValue()
    ensures BodyTypes() == BodyList
  {
    BodyColumnCovered();
    assert Ascending(BodyList);
    OptionsAre(Cars, BodyColumn, BodyList, [2, 6, 0]);
  }

  /** The brand-to-model table covers exactly the catalogue's brands. */
  lemma BrandModelsCoverBrands()
    ensures BrandModels.Keys == set b | b in Brands()
  {
    BrandsValue();
  }

  /** Every catalogue car's model is listed under its brand. */
  lemma EveryModelListed()
    ensures forall i :: 0 <= i < |Cars| ==>
      Cars[i].brand in BrandModels && Cars[i].model in BrandModels[Cars[i].brand]
  {
    forall i | 0 <= i < |Cars|
      ensures Cars[i].brand in BrandModels && Cars[i].model in BrandModels[Cars[i].brand]
    {
      ModelListed(i);
    }
  }

  lemma ModelListed(i: nat)
    requires i < |Cars|
    ensures Cars[i].brand in BrandModels && Cars[i].model in BrandModels[Cars[i].brand]
  {
    if i < 5 { assert Cars[i].brand == "Toyota"; }
    else if i < 9 { assert Cars[i].brand == "Honda"; }
    else if i < 12 { assert Cars[i].brand == "Nissan"; }
    else if i < 15 { assert Cars[i].brand == "Mazda"; }
    else if i < 17 { assert Cars[i].brand == "BMW"; }
    else if i < 19 { assert Cars[i].brand == "Hyundai"; }
    else { assert Cars[i].brand == "Kia"; }
  }
}

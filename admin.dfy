/** The four admin tables (brands, models, cars and car images). Each page
    keeps its rows in memory and edits them through a modal form: open the
    form for a new row or for an existing one, submit it (rejected with a
    message when a required field is missing), and, except for images,
    delete a row after confirmation. A new row's id is passed in; it must
    not already be in the table. */
module Admin {
  import opened Js
  import opened Records

  // ================================================================ brands

  /** The brands page. A brand's only field is its name. */
  class BrandsPage {
    var brands: seq<Row<string>>
    var loading: bool
    var openModal: bool
    var selectedBrand: Option<Row<string>>
    var deleteTarget: Option<Row<string>>
    var name: string
    var error: Option<string>

    ghost predicate Valid()
      reads this
    {
      UniqueIds(brands)
    }

    constructor ()
      ensures brands == [] && loading && !openModal
      ensures selectedBrand.None? && deleteTarget.None? && name == "" && error.None?
      ensures Valid()
    {
      brands := [];
      loading := true;
      openModal := false;
      selectedBrand := None;
      deleteTarget := None;
      name := "";
      error := None;
    }

    /** The delayed mock load, taken as one step. */
    method FinishLoading()
      modifies this
      ensures brands == [Row("1", "Toyota"), Row("2", "Honda"), Row("3", "BMW")] && !loading
      ensures openModal == old(openModal) && selectedBrand == old(selectedBrand)
      ensures deleteTarget == old(deleteTarget) && name == old(name) && error == old(error)
      ensures Valid()
    {
      brands := [Row("1", "Toyota"), Row("2", "Honda"), Row("3", "BMW")];
      loading := false;
    }

    /** "Add brand": an empty form, no selection, no error. */
    method OpenCreate()
      modifies this
      ensures selectedBrand.None? && name == "" && error.None? && openModal
      ensures brands == old(brands) && loading == old(loading) && deleteTarget == old(deleteTarget)
    {
      selectedBrand := None;
      name := "";
      error := None;
      openModal := true;
    }

    /** "Edit": the form holds the brand's name, no error. */
    method OpenEdit(brand: Row<string>)
      modifies this
      ensures selectedBrand == Some(brand) && name == brand.fields && error.None? && openModal
      ensures brands == old(brands) && loading == old(loading) && deleteTarget == old(deleteTarget)
    {
      selectedBrand := Some(brand);
      name := brand.fields;
      error := None;
      openModal := true;
    }

    /** Typing in the name box. */
    method ChangeName(value: string)
      modifies this
      ensures name == value
      ensures brands == old(brands) && loading == old(loading) && openModal == old(openModal)
      ensures selectedBrand == old(selectedBrand) && deleteTarget == old(deleteTarget) && error == old(error)
    {
      name := value;
    }

    /** "Save": a blank name is refused; otherwise the selected brand is
        renamed, or a new brand is appended, and the form is closed and
        emptied. The name is stored as typed, untrimmed. */
    method HandleSubmit(freshId: string)
      requires Valid() && freshId !in Ids(brands)
      modifies this
      ensures IsBlank(old(name)) ==>
        error == Some("Brand name is required") && brands == old(brands) &&
        name == old(name) && selectedBrand == old(selectedBrand) && openModal == old(openModal)
      ensures !IsBlank(old(name)) && old(selectedBrand).Some? ==>
        brands == Replace(old(brands), old(selectedBrand).value.id, old(name))
      ensures !IsBlank(old(name)) && old(selectedBrand).None? ==>
        brands == old(brands) + [Row(freshId, old(name))]
      ensures !IsBlank(old(name)) ==>
        !openModal && selectedBrand.None? && name == "" && error == old(error)
      ensures loading == old(loading) && deleteTarget == old(deleteTarget)
      ensures Valid()
    {
      if IsBlank(name) {
        error := Some("Brand name is required");
        return;
      }
      if selectedBrand.Some? {
        ReplaceKeepsIds(brands, selectedBrand.value.id, name);
        brands := Replace(brands, selectedBrand.value.id, name);
      } else {
        AppendFreshKeepsUnique(brands, Row(freshId, name));
        brands := brands + [Row(freshId, name)];
      }
      openModal := false;
      selectedBrand := None;
      name := "";
    }

    /** "Cancel" in the form: the modal closes, the form keeps its state. */
    method CloseModal()
      modifies this
      ensures !openModal
      ensures brands == old(brands) && loading == old(loading) && selectedBrand == old(selectedBrand)
      ensures deleteTarget == old(deleteTarget) && name == old(name) && error == old(error)
    {
      openModal := false;
    }

    /** The trash button: ask to confirm deleting the brand. */
    method RequestDelete(brand: Row<string>)
      modifies this
      ensures deleteTarget == Some(brand)
      ensures brands == old(brands) && loading == old(loading) && openModal == old(openModal)
      ensures selectedBrand == old(selectedBrand) && name == old(name) && error == old(error)
    {
      deleteTarget := Some(brand);
    }

    /** "Cancel" in the confirmation. */
    method CancelDelete()
      modifies this
      ensures deleteTarget.None?
      ensures brands == old(brands) && loading == old(loading) && openModal == old(openModal)
      ensures selectedBrand == old(selectedBrand) && name == old(name) && error == old(error)
    {
      deleteTarget := None;
    }

    /** "Delete" in the confirmation: every row with the target's id goes,
        the rest stay in order. Without a target nothing happens. */
    method ConfirmDelete()
      requires Valid()
      modifies this
      ensures old(deleteTarget).None? ==> brands == old(brands)
      ensures old(deleteTarget).Some? ==> brands == Remove(old(brands), old(deleteTarget).value.id)
      ensures deleteTarget.None?
      ensures loading == old(loading) && openModal == old(openModal)
      ensures selectedBrand == old(selectedBrand) && name == old(name) && error == old(error)
      ensures Valid()
    {
      if deleteTarget.None? {
        return;
      }
      RemoveKeepsUnique(brands, deleteTarget.value.id);
      brands := Remove(brands, deleteTarget.value.id);
      deleteTarget := None;
    }
  }

  // ================================================================ models

  datatype ModelFields = ModelFields(name: string, brandId: string)

  /** `brands.find(b => b.id === id)?.name ?? "-"`: "-" when no row has the
      id, else the name of the first row that has it. */
  function NameById(rows: seq<Row<string>>, id: string): (r: string)
    ensures (forall k :: 0 <= k < |rows| ==> rows[k].id != id) ==> r == "-"
    ensures forall k :: 0 <= k < |rows| && rows[k].id == id && FirstWithId(rows, id, k) ==> r == rows[k].fields
  {
    FindIndexIsFirst(rows, id);
    match FindIndex(rows, id)
    case None => "-"
    case Some(k) => rows[k].fields
  }

  /** In a table with unique ids, a row's id names that row. */
  lemma NameOfRow(rows: seq<Row<string>>, k: nat)
    requires UniqueIds(rows) && k < |rows|
    ensures NameById(rows, rows[k].id) == rows[k].fields
  {
    FindUnique(rows, k);
  }

  /** An id missing from the table shows as "-". */
  lemma NameOfMissing(rows: seq<Row<string>>, id: string)
    requires forall k :: 0 <= k < |rows| ==> rows[k].id != id
    ensures NameById(rows, id) == "-"
  {
    assert id !in Ids(rows);
  }

  /** The models page: each model names its brand by id. */
  class ModelsPage {
    var models: seq<Row<ModelFields>>
    var brands: seq<Row<string>>
    var loading: bool
    var openModal: bool
    var selectedModel: Option<Row<ModelFields>>
    var deleteTarget: Option<Row<ModelFields>>
    var name: string
    var brandId: string
    var error: Option<string>

    ghost predicate Valid()
      reads this
    {
      UniqueIds(models)
    }

    constructor ()
      ensures models == [] && brands == [] && loading && !openModal
      ensures selectedModel.None? && deleteTarget.None? && name == "" && brandId == "" && error.None?
      ensures Valid()
    {
      models := [];
      brands := [];
      loading := true;
      openModal := false;
      selectedModel := None;
      deleteTarget := None;
      name := "";
      brandId := "";
      error := None;
    }

    /** The brand column: the brand's name, or "-" for an unknown id. */
    function GetBrandName(id: string): (r: string)
      reads this
      ensures (forall k :: 0 <= k < |brands| ==> brands[k].id != id) ==> r == "-"
      ensures forall k :: 0 <= k < |brands| && brands[k].id == id && FirstWithId(brands, id, k) ==> r == brands[k].fields
    {
      NameById(brands, id)
    }

    /** The delayed mock load, taken as one step. */
    method FinishLoading()
      modifies this
      ensures brands == [Row("b1", "Toyota"), Row("b2", "Honda"), Row("b3", "Suzuki"), Row("b4", "Ford")]
      ensures models == [Row("m1", ModelFields("Land Cruiser", "b1")), Row("m2", ModelFields("Camry", "b1")),
                         Row("m3", ModelFields("CR-V", "b2")), Row("m4", ModelFields("Swift", "b3")),
                         Row("m5", ModelFields("Ranger", "b4"))]
      ensures !loading && openModal == old(openModal) && selectedModel == old(selectedModel)
      ensures deleteTarget == old(deleteTarget) && name == old(name) && brandId == old(brandId) && error == old(error)
      ensures Valid()
    {
      brands := [Row("b1", "Toyota"), Row("b2", "Honda"), Row("b3", "Suzuki"), Row("b4", "Ford")];
      models := [Row("m1", ModelFields("Land Cruiser", "b1")), Row("m2", ModelFields("Camry", "b1")),
                 Row("m3", ModelFields("CR-V", "b2")), Row("m4", ModelFields("Swift", "b3")),
                 Row("m5", ModelFields("Ranger", "b4"))];
      loading := false;
    }

    method OpenCreate()
      modifies this
      ensures selectedModel.None? && name == "" && brandId == "" && error.None? && openModal
      ensures models == old(models) && brands == old(brands) && loading == old(loading)
      ensures deleteTarget == old(deleteTarget)
    {
      selectedModel := None;
      name := "";
      brandId := "";
      error := None;
      openModal := true;
    }

    method OpenEdit(model: Row<ModelFields>)
      modifies this
      ensures selectedModel == Some(model) && name == model.fields.name && brandId == model.fields.brandId
      ensures error.None? && openModal
      ensures models == old(models) && brands == old(brands) && loading == old(loading)
      ensures deleteTarget == old(deleteTarget)
    {
      selectedModel := Some(model);
      name := model.fields.name;
      brandId := model.fields.brandId;
      error := None;
      openModal := true;
    }

    /** Typing in the name box. */
    method ChangeName(value: string)
      modifies this
      ensures name == value
      ensures models == old(models) && brands == old(brands) && loading == old(loading)
      ensures openModal == old(openModal) && selectedModel == old(selectedModel)
      ensures deleteTarget == old(deleteTarget) && brandId == old(brandId) && error == old(error)
    {
      name := value;
    }

    /** Picking a brand: the select yields the chosen brand's id. */
    method ChangeBrand(value: string)
      modifies this
      ensures brandId == value
      ensures models == old(models) && brands == old(brands) && loading == old(loading)
      ensures openModal == old(openModal) && selectedModel == old(selectedModel)
      ensures deleteTarget == old(deleteTarget) && name == old(name) && error == old(error)
    {
      brandId := value;
    }

    method CloseModal()
      modifies this
      ensures !openModal
      ensures models == old(models) && brands == old(brands) && loading == old(loading)
      ensures selectedModel == old(selectedModel) && deleteTarget == old(deleteTarget)
      ensures name == old(name) && brandId == old(brandId) && error == old(error)
    {
      openModal := false;
    }

    /** "Save": needs a non-blank name and a brand; then the selected model
        takes the form's name and brand, or a new model is appended, and
        the form is closed and emptied. */
    method HandleSubmit(freshId: string)
      requires Valid() && freshId !in Ids(models)
      modifies this
      ensures IsBlank(old(name)) || old(brandId) == "" ==>
        error == Some("Model name and Brand are required") && models == old(models) &&
        name == old(name) && brandId == old(brandId) && selectedModel == old(selectedModel) &&
        openModal == old(openModal)
      ensures !IsBlank(old(name)) && old(brandId) != "" && old(selectedModel).Some? ==>
        models == Replace(old(models), old(selectedModel).value.id, ModelFields(old(name), old(brandId)))
      ensures !IsBlank(old(name)) && old(brandId) != "" && old(selectedModel).None? ==>
        models == old(models) + [Row(freshId, ModelFields(old(name), old(brandId)))]
      ensures !IsBlank(old(name)) && old(brandId) != "" ==>
        !openModal && selectedModel.None? && name == "" && brandId == "" && error == old(error)
      ensures brands == old(brands) && loading == old(loading) && deleteTarget == old(deleteTarget)
      ensures Valid()
    {
      if IsBlank(name) || brandId == "" {
        error := Some("Model name and Brand are required");
        return;
      }
      var fields := ModelFields(name, brandId);
      if selectedModel.Some? {
        ReplaceKeepsIds(models, selectedModel.value.id, fields);
        models := Replace(models, selectedModel.value.id, fields);
      } else {
        AppendFreshKeepsUnique(models, Row(freshId, fields));
        models := models + [Row(freshId, fields)];
      }
      openModal := false;
      selectedModel := None;
      name := "";
      brandId := "";
    }

    method RequestDelete(model: Row<ModelFields>)
      modifies this
      ensures deleteTarget == Some(model)
      ensures models == old(models) && brands == old(brands) && loading == old(loading)
      ensures openModal == old(openModal) && selectedModel == old(selectedModel)
      ensures name == old(name) && brandId == old(brandId) && error == old(error)
    {
      deleteTarget := Some(model);
    }

    method CancelDelete()
      modifies this
      ensures deleteTarget.None?
      ensures models == old(models) && brands == old(brands) && loading == old(loading)
      ensures openModal == old(openModal) && selectedModel == old(selectedModel)
      ensures name == old(name) && brandId == old(brandId) && error == old(error)
    {
      deleteTarget := None;
    }

    method ConfirmDelete()
      requires Valid()
      modifies this
      ensures old(deleteTarget).None? ==> models == old(models)
      ensures old(deleteTarget).Some? ==> models == Remove(old(models), old(deleteTarget).value.id)
      ensures deleteTarget.None?
      ensures brands == old(brands) && loading == old(loading) && openModal == old(openModal)
      ensures selectedModel == old(selectedModel) && name == old(name) && brandId == old(brandId)
      ensures error == old(error)
      ensures Valid()
    {
      if deleteTarget.None? {
        return;
      }
      RemoveKeepsUnique(models, deleteTarget.value.id);
      models := Remove(models, deleteTarget.value.id);
      deleteTarget := None;
    }
  }

  // ================================================================== cars

  datatype Fuel = Petrol | Diesel
  datatype Transmission = Manual | Automatic
  datatype CarStatus = Available | Sold

  /** Every field of a car but its id. The numeric fields hold what
      `Number` made of the text their input passed on to the handler. */
  datatype CarFields = CarFields(
    modelId: string, modelYear: NumberValue, showroomId: string, price: NumberValue,
    mileage: NumberValue, fuel: Fuel, transmission: Transmission, status: CarStatus,
    colorId: string)

  /** The blank car form; its model year is the current year. */
  function BlankCar(currentYear: int): CarFields
  {
    CarFields("", Finite(currentYear as real), "", Finite(0.0), Finite(0.0), Petrol, Manual, Available, "")
  }

  /** A car form the page accepts: a model id and a showroom id. Neither is
      trimmed, so a blank but non-empty id passes. */
  predicate CarComplete(f: CarFields)
  {
    f.modelId != "" && f.showroomId != ""
  }

  /** The blank form is never accepted as it is, nor with only one of the
      two ids typed in; typing both, in either order, makes it acceptable
      exactly when both texts are non-empty. */
  lemma BlankCarIncomplete(currentYear: int, modelId: string, showroomId: string)
    ensures !CarComplete(BlankCar(currentYear))
    ensures !CarComplete(EditCar(BlankCar(currentYear), ModelIdInput(modelId)))
    ensures !CarComplete(EditCar(BlankCar(currentYear), ShowroomIdInput(showroomId)))
    ensures CarComplete(EditCar(EditCar(BlankCar(currentYear), ModelIdInput(modelId)), ShowroomIdInput(showroomId)))
      <==> modelId != "" && showroomId != ""
    ensures CarComplete(EditCar(EditCar(BlankCar(currentYear), ShowroomIdInput(showroomId)), ModelIdInput(modelId)))
      <==> modelId != "" && showroomId != ""
  {
    var b := BlankCar(currentYear);
    EditCarCompleteness(b, ModelIdInput(modelId));
    EditCarCompleteness(b, ShowroomIdInput(showroomId));
    EditCarCompleteness(EditCar(b, ModelIdInput(modelId)), ShowroomIdInput(showroomId));
    EditCarCompleteness(EditCar(b, ShowroomIdInput(showroomId)), ModelIdInput(modelId));
  }

  /** One input of the car form: five text boxes and three selects. The
      colour id has no input. */
  datatype CarInput =
    | ModelIdInput(text: string) | ModelYearInput(text: string) | ShowroomIdInput(text: string)
    | PriceInput(text: string) | MileageInput(text: string)
    | FuelPick(fuel: Fuel) | TransmissionPick(transmission: Transmission) | StatusPick(status: CarStatus)

  /** `setForm({ ...form, <field>: <value> })` for the input. */
  function EditCar(f: CarFields, input: CarInput): (r: CarFields)
    ensures input.ModelYearInput? ==> r.modelYear == StringToNumber(input.text)
    ensures input.PriceInput? ==> r.price == StringToNumber(input.text)
    ensures input.MileageInput? ==> r.mileage == StringToNumber(input.text)
    ensures r.colorId == f.colorId
  {
    match input
    case ModelIdInput(t) => f.(modelId := t)
    case ModelYearInput(t) => f.(modelYear := StringToNumber(t))
    case ShowroomIdInput(t) => f.(showroomId := t)
    case PriceInput(t) => f.(price := StringToNumber(t))
    case MileageInput(t) => f.(mileage := StringToNumber(t))
    case FuelPick(x) => f.(fuel := x)
    case TransmissionPick(x) => f.(transmission := x)
    case StatusPick(x) => f.(status := x)
  }

  /** Whether the form is accepted depends on the two id boxes only: any
      other input leaves it as it was, and an id box decides by its text. */
  lemma EditCarCompleteness(f: CarFields, input: CarInput)
    ensures !input.ModelIdInput? && !input.ShowroomIdInput? ==>
      (CarComplete(EditCar(f, input)) <==> CarComplete(f))
    ensures input.ModelIdInput? ==>
      (CarComplete(EditCar(f, input)) <==> input.text != "" && f.showroomId != "")
    ensures input.ShowroomIdInput? ==>
      (CarComplete(EditCar(f, input)) <==> f.modelId != "" && input.text != "")
  {
  }

  /** A number typed as plain digits is stored as that number. */
  lemma NumericInputs(f: CarFields, n: nat)
    ensures EditCar(f, ModelYearInput(NatToString(n))).modelYear == Finite(n as real)
    ensures EditCar(f, PriceInput(NatToString(n))).price == Finite(n as real)
    ensures EditCar(f, MileageInput(NatToString(n))).mileage == Finite(n as real)
  {
    NumberOfNatToString(n);
  }

  /** A handler for a numeric box that is given a word, a text starting with
      a lower-case letter, stores NaN, since that is `Number` of such a text.
      The required-field check does not look at the value. */
  lemma NonNumericInputs(f: CarFields, word: string)
    requires |word| > 0 && 'a' <= word[0] <= 'z'
    ensures EditCar(f, ModelYearInput(word)).modelYear == NotANumber
    ensures EditCar(f, PriceInput(word)).price == NotANumber
    ensures EditCar(f, MileageInput(word)).mileage == NotANumber
    ensures CarComplete(EditCar(f, PriceInput(word))) <==> CarComplete(f)
  {
    NumberOfWord(word);
  }

  /** An empty or all-white-space text, which is what a number box passes
      on when it holds no valid number, is stored as 0. */
  lemma BlankNumericInputs(f: CarFields, t: string)
    requires IsBlank(t)
    ensures EditCar(f, ModelYearInput(t)).modelYear == Finite(0.0)
    ensures EditCar(f, PriceInput(t)).price == Finite(0.0)
    ensures EditCar(f, MileageInput(t)).mileage == Finite(0.0)
  {
    BlankIffTrimEmpty(t);
  }

  /** The cars page. */
  class CarsPage {
    const currentYear: int
    var cars: seq<Row<CarFields>>
    var loading: bool
    var openModal: bool
    var selectedCar: Option<Row<CarFields>>
    var deleteTarget: Option<Row<CarFields>>
    var form: CarFields
    var error: Option<string>

    ghost predicate Valid()
      reads this
    {
      UniqueIds(cars)
    }

    constructor (currentYear: int)
      ensures this.currentYear == currentYear && cars == [] && loading && !openModal
      ensures selectedCar.None? && deleteTarget.None? && form == BlankCar(currentYear) && error.None?
      ensures Valid()
    {
      this.currentYear := currentYear;
      cars := [];
      loading := true;
      openModal := false;
      selectedCar := None;
      deleteTarget := None;
      form := CarFields("", Finite(currentYear as real), "", Finite(0.0), Finite(0.0), Petrol, Manual, Available, "");
      error := None;
    }

    /** The delayed mock load, taken as one step. */
    method FinishLoading()
      modifies this
      ensures cars == [
        Row("1", CarFields("33798743-d22a-4060-94f2-bcecae113eef", Finite(2022.0), "SR-001",
                           Finite(0.0), Finite(0.0), Petrol, Manual, Sold, "c1")),
        Row("2", CarFields("4cdb2210-dc03-43c1-ae93-0771b4c6a8", Finite(2024.0), "SR-002",
                           Finite(100000000.0), Finite(1.0), Petrol, Automatic, Available, "c2"))]
      ensures !loading && openModal == old(openModal) && selectedCar == old(selectedCar)
      ensures deleteTarget == old(deleteTarget) && form == old(form) && error == old(error)
      ensures Valid()
    {
      cars := [
        Row("1", CarFields("33798743-d22a-4060-94f2-bcecae113eef", Finite(2022.0), "SR-001",
                           Finite(0.0), Finite(0.0), Petrol, Manual, Sold, "c1")),
        Row("2", CarFields("4cdb2210-dc03-43c1-ae93-0771b4c6a8", Finite(2024.0), "SR-002",
                           Finite(100000000.0), Finite(1.0), Petrol, Automatic, Available, "c2"))];
      loading := false;
    }

    /** "Add car": the blank form, no selection, no error. */
    method OpenCreate()
      modifies this
      ensures selectedCar.None? && form == BlankCar(currentYear) && error.None? && openModal
      ensures cars == old(cars) && loading == old(loading) && deleteTarget == old(deleteTarget)
    {
      selectedCar := None;
      form := CarFields("", Finite(currentYear as real), "", Finite(0.0), Finite(0.0), Petrol, Manual, Available, "");
      error := None;
      openModal := true;
    }

    /** "Edit": the form holds the car's fields. An earlier error message is
        left as it was. */
    method OpenEdit(car: Row<CarFields>)
      modifies this
      ensures selectedCar == Some(car) && form == car.fields && openModal
      ensures error == old(error)
      ensures cars == old(cars) && loading == old(loading) && deleteTarget == old(deleteTarget)
    {
      selectedCar := Some(car);
      form := car.fields;
      openModal := true;
    }

    /** One input of the form changes. */
    method ChangeForm(input: CarInput)
      modifies this
      ensures form == EditCar(old(form), input)
      ensures cars == old(cars) && loading == old(loading) && openModal == old(openModal)
      ensures selectedCar == old(selectedCar) && deleteTarget == old(deleteTarget) && error == old(error)
    {
      form := EditCar(form, input);
    }

    method CloseModal()
      modifies this
      ensures !openModal
      ensures cars == old(cars) && loading == old(loading) && selectedCar == old(selectedCar)
      ensures deleteTarget == old(deleteTarget) && form == old(form) && error == old(error)
    {
      openModal := false;
    }

    /** "Save": needs a model id and a showroom id; then the selected car
        takes every field of the form and keeps its id, or a new car is
        appended, and the modal closes. The form is not reset, and a
        success does not clear an earlier error. */
    method HandleSubmit(freshId: string)
      requires Valid() && freshId !in Ids(cars)
      modifies this
      ensures !CarComplete(old(form)) ==>
        error == Some("Model ID and Showroom ID are required") && cars == old(cars) &&
        selectedCar == old(selectedCar) && openModal == old(openModal)
      ensures CarComplete(old(form)) && old(selectedCar).Some? ==>
        cars == Replace(old(cars), old(selectedCar).value.id, old(form))
      ensures CarComplete(old(form)) && old(selectedCar).None? ==>
        cars == old(cars) + [Row(freshId, old(form))]
      ensures CarComplete(old(form)) ==> !openModal && selectedCar.None? && error == old(error)
      ensures form == old(form) && loading == old(loading) && deleteTarget == old(deleteTarget)
      ensures Valid()
    {
      if form.modelId == "" || form.showroomId == "" {
        error := Some("Model ID and Showroom ID are required");
        return;
      }
      if selectedCar.Some? {
        ReplaceKeepsIds(cars, selectedCar.value.id, form);
        cars := Replace(cars, selectedCar.value.id, form);
      } else {
        AppendFreshKeepsUnique(cars, Row(freshId, form));
        cars := cars + [Row(freshId, form)];
      }
      openModal := false;
      selectedCar := None;
    }

    method RequestDelete(car: Row<CarFields>)
      modifies this
      ensures deleteTarget == Some(car)
      ensures cars == old(cars) && loading == old(loading) && openModal == old(openModal)
      ensures selectedCar == old(selectedCar) && form == old(form) && error == old(error)
    {
      deleteTarget := Some(car);
    }

    method CancelDelete()
      modifies this
      ensures deleteTarget.None?
      ensures cars == old(cars) && loading == old(loading) && openModal == old(openModal)
      ensures selectedCar == old(selectedCar) && form == old(form) && error == old(error)
    {
      deleteTarget := None;
    }

    method ConfirmDelete()
      requires Valid()
      modifies this
      ensures old(deleteTarget).None? ==> cars == old(cars)
      ensures old(deleteTarget).Some? ==> cars == Remove(old(cars), old(deleteTarget).value.id)
      ensures deleteTarget.None?
      ensures loading == old(loading) && openModal == old(openModal)
      ensures selectedCar == old(selectedCar) && form == old(form) && error == old(error)
      ensures Valid()
    {
      if deleteTarget.None? {
        return;
      }
      RemoveKeepsUnique(cars, deleteTarget.value.id);
      cars := Remove(cars, deleteTarget.value.id);
      deleteTarget := None;
    }
  }

  // ============================================================ car images

  datatype Visibility = Public | Private

  /** Every field of an image but its id; the sequence number holds what
      `Number` made of its text box. */
  datatype ImageFields = ImageFields(
    carId: string, storageBaseKey: string, altText: string, mimeType: string,
    isPrimary: bool, sequenceNumber: NumberValue, visibility: Visibility)

  /** The blank image form. */
  const BlankImage: ImageFields := ImageFields("", "", "", "image/jpeg", false, Finite(1.0), Public)

  /** An image form the page accepts: a car and a storage key. */
  predicate ImageComplete(f: ImageFields)
  {
    f.carId != "" && f.storageBaseKey != ""
  }

  /** One input of the image form. */
  datatype ImageInput =
    | CarPick(carId: string) | StorageKeyInput(text: string) | AltTextInput(text: string)
    | MimeTypeInput(text: string) | SequenceNumberInput(text: string)
    | VisibilityPick(visibility: Visibility) | PrimaryCheck(checked: bool)

  /** `setForm({ ...form, <field>: <value> })` for the input. */
  function EditImage(f: ImageFields, input: ImageInput): (r: ImageFields)
    ensures input.SequenceNumberInput? ==> r.sequenceNumber == StringToNumber(input.text)
    ensures !input.CarPick? && !input.StorageKeyInput? ==> (ImageComplete(r) <==> ImageComplete(f))
  {
    match input
    case CarPick(c) => f.(carId := c)
    case StorageKeyInput(t) => f.(storageBaseKey := t)
    case AltTextInput(t) => f.(altText := t)
    case MimeTypeInput(t) => f.(mimeType := t)
    case SequenceNumberInput(t) => f.(sequenceNumber := StringToNumber(t))
    case VisibilityPick(v) => f.(visibility := v)
    case PrimaryCheck(b) => f.(isPrimary := b)
  }

  /** An empty or all-white-space sequence number is stored as 0, not as
      NaN and not as the blank form's 1. */
  lemma BlankSequenceNumber(f: ImageFields, t: string)
    requires IsBlank(t)
    ensures EditImage(f, SequenceNumberInput(t)).sequenceNumber == Finite(0.0)
  {
    BlankIffTrimEmpty(t);
  }

  /** The blank form lacks both required fields; picking a car and typing a
      non-empty key makes it acceptable, in either order. */
  lemma BlankImageNeedsBoth(carId: string, key: string)
    requires carId != "" && key != ""
    ensures !ImageComplete(BlankImage)
    ensures ImageComplete(EditImage(EditImage(BlankImage, CarPick(carId)), StorageKeyInput(key)))
    ensures ImageComplete(EditImage(EditImage(BlankImage, StorageKeyInput(key)), CarPick(carId)))
    ensures !ImageComplete(EditImage(BlankImage, CarPick(carId)))
    ensures !ImageComplete(EditImage(BlankImage, StorageKeyInput(key)))
  {
  }

  /** The car images page. Images cannot be deleted. */
  class CarImagesPage {
    var cars: seq<Row<string>>
    var images: seq<Row<ImageFields>>
    var loading: bool
    var openModal: bool
    var selectedImage: Option<Row<ImageFields>>
    var form: ImageFields
    var error: string

    ghost predicate Valid()
      reads this
    {
      UniqueIds(images)
    }

    constructor ()
      ensures cars == [] && images == [] && loading && !openModal
      ensures selectedImage.None? && form == BlankImage && error == ""
      ensures Valid()
    {
      cars := [];
      images := [];
      loading := true;
      openModal := false;
      selectedImage := None;
      form := ImageFields("", "", "", "image/jpeg", false, Finite(1.0), Public);
      error := "";
    }

    /** The car column: the car's VIN, or "-" for an unknown id. */
    function GetCarVin(id: string): (r: string)
      reads this
      ensures (forall k :: 0 <= k < |cars| ==> cars[k].id != id) ==> r == "-"
      ensures forall k :: 0 <= k < |cars| && cars[k].id == id && FirstWithId(cars, id, k) ==> r == cars[k].fields
    {
      NameById(cars, id)
    }

    /** The mock load on mount (not delayed on this page). */
    method FinishLoading()
      modifies this
      ensures cars == [Row("c1", "TOYOTA-001"), Row("c2", "HONDA-002")]
      ensures images == [Row("img1", ImageFields("c1", "/mock/car1.jpg", "Front view", "image/jpeg",
                                                 true, Finite(1.0), Public))]
      ensures !loading && openModal == old(openModal) && selectedImage == old(selectedImage)
      ensures form == old(form) && error == old(error)
      ensures Valid()
    {
      cars := [Row("c1", "TOYOTA-001"), Row("c2", "HONDA-002")];
      images := [Row("img1", ImageFields("c1", "/mock/car1.jpg", "Front view", "image/jpeg",
                                         true, Finite(1.0), Public))];
      loading := false;
    }

    method OpenCreate()
      modifies this
      ensures selectedImage.None? && form == BlankImage && error == "" && openModal
      ensures cars == old(cars) && images == old(images) && loading == old(loading)
    {
      selectedImage := None;
      form := ImageFields("", "", "", "image/jpeg", false, Finite(1.0), Public);
      error := "";
      openModal := true;
    }

    /** "Edit": the form holds the image's seven fields, no error. */
    method OpenEdit(img: Row<ImageFields>)
      modifies this
      ensures selectedImage == Some(img) && form == img.fields && error == "" && openModal
      ensures cars == old(cars) && images == old(images) && loading == old(loading)
    {
      selectedImage := Some(img);
      form := ImageFields(img.fields.carId, img.fields.storageBaseKey, img.fields.altText,
                          img.fields.mimeType, img.fields.isPrimary, img.fields.sequenceNumber,
                          img.fields.visibility);
      error := "";
      openModal := true;
    }

    /** One input of the form changes. */
    method ChangeForm(input: ImageInput)
      modifies this
      ensures form == EditImage(old(form), input)
      ensures cars == old(cars) && images == old(images) && loading == old(loading)
      ensures openModal == old(openModal) && selectedImage == old(selectedImage) && error == old(error)
    {
      form := EditImage(form, input);
    }

    method CloseModal()
      modifies this
      ensures !openModal
      ensures cars == old(cars) && images == old(images) && loading == old(loading)
      ensures selectedImage == old(selectedImage) && form == old(form) && error == old(error)
    {
      openModal := false;
    }

    /** "Save": needs a car and a storage key; then the selected image takes
        the form's fields and keeps its id, or a new image is appended. The
        list never gets shorter. */
    method HandleSubmit(freshId: string)
      requires Valid() && freshId !in Ids(images)
      modifies this
      ensures !ImageComplete(old(form)) ==>
        error == "Car and Image are required" && images == old(images) &&
        selectedImage == old(selectedImage) && openModal == old(openModal)
      ensures ImageComplete(old(form)) && old(selectedImage).Some? ==>
        images == Replace(old(images), old(selectedImage).value.id, old(form))
      ensures ImageComplete(old(form)) && old(selectedImage).None? ==>
        images == old(images) + [Row(freshId, old(form))]
      ensures ImageComplete(old(form)) ==> !openModal && selectedImage.None? && error == old(error)
      ensures |images| >= |old(images)|
      ensures cars == old(cars) && form == old(form) && loading == old(loading)
      ensures Valid()
    {
      if form.carId == "" || form.storageBaseKey == "" {
        error := "Car and Image are required";
        return;
      }
      if selectedImage.Some? {
        ReplaceKeepsIds(images, selectedImage.value.id, form);
        images := Replace(images, selectedImage.value.id, form);
      } else {
        AppendFreshKeepsUnique(images, Row(freshId, form));
        images := images + [Row(freshId, form)];
      }
      openModal := false;
      selectedImage := None;
    }
  }
}

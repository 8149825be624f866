/** The "sell your car" form: its values, the validation that fills the
    error map, per-field error clearing on edit, and the submit sequence. */
module SellForm {
  import opened Js

  /** The form's fields. */
  datatype FormField = OwnerName | Phone | Email | CarBrand | CarModel | Year
                     | Mileage | ExpectedPrice | Condition | Message

  datatype FormValues = FormValues(
    ownerName: string, phone: string, email: string, carBrand: string, carModel: string,
    year: string, mileage: string, expectedPrice: string, condition: string, message: string)

  /** Every field empty. */
  const InitialValues: FormValues := FormValues("", "", "", "", "", "", "", "", "", "")

  /** `values[field]`. */
  function ValueOf(v: FormValues, field: FormField): string
  {
    match field
    case OwnerName => v.ownerName
    case Phone => v.phone
    case Email => v.email
    case CarBrand => v.carBrand
    case CarModel => v.carModel
    case Year => v.year
    case Mileage => v.mileage
    case ExpectedPrice => v.expectedPrice
    case Condition => v.condition
    case Message => v.message
  }

  /** `{ ...values, [field]: s }`. */
  function WithValue(v: FormValues, field: FormField, s: string): (r: FormValues)
    ensures ValueOf(r, field) == s
    ensures forall g :: g != field ==> ValueOf(r, g) == ValueOf(v, g)
  {
    match field
    case OwnerName => v.(ownerName := s)
    case Phone => v.(phone := s)
    case Email => v.(email := s)
    case CarBrand => v.(carBrand := s)
    case CarModel => v.(carModel := s)
    case Year => v.(year := s)
    case Mileage => v.(mileage := s)
    case ExpectedPrice => v.(expectedPrice := s)
    case Condition => v.(condition := s)
    case Message => v.(message := s)
  }

  /** The fields that may carry an error. */
  const CheckedFields: set<FormField> := {OwnerName, Phone, CarBrand, CarModel, Year}

  /** The kinds of message: "<field> is required" and "<field> is invalid".
      The translated field label in front is not modelled. */
  datatype Problem = Required | Invalid

  /** A year the form accepts: `Number(year)` is a number from 1980 to the
      year after the current one. NaN and both infinities fail. */
  predicate YearAccepted(n: NumberValue, currentYear: int)
  {
    n.Finite? && 1980.0 <= n.r <= (currentYear + 1) as real
  }

  /** The year check: a non-blank year whose `Number` value is refused. */
  predicate YearRefused(year: string, currentYear: int)
  {
    !IsBlank(year) && !YearAccepted(StringToNumber(year), currentYear)
  }

  /** The error map a validation of `v` produces: the checks in the order
      the page runs them, each adding at most one entry. */
  function ValidationErrors(v: FormValues, currentYear: int): (e: map<FormField, Problem>)
    ensures e.Keys <= CheckedFields
    ensures OwnerName in e <==> IsBlank(v.ownerName)
    ensures Phone in e <==> IsBlank(v.phone)
    ensures CarBrand in e <==> IsBlank(v.carBrand)
    ensures CarModel in e <==> IsBlank(v.carModel)
    ensures Year in e <==> YearRefused(v.year, currentYear)
    ensures forall g :: g in e ==> e[g] == if g == Year then Invalid else Required
  {
    var e0: map<FormField, Problem> := map[];
    var e1 := if IsBlank(v.ownerName) then e0[OwnerName := Required] else e0;
    var e2 := if IsBlank(v.phone) then e1[Phone := Required] else e1;
    var e3 := if IsBlank(v.carBrand) then e2[CarBrand := Required] else e2;
    var e4 := if IsBlank(v.carModel) then e3[CarModel := Required] else e3;
    if YearRefused(v.year, currentYear) then e4[Year := Invalid] else e4
  }

  /** An empty form lacks exactly the four required fields; a blank year is
      not an error. */
  lemma EmptyFormErrors(currentYear: int)
    ensures ValidationErrors(InitialValues, currentYear).Keys == {OwnerName, Phone, CarBrand, CarModel}
  {
    var e := ValidationErrors(InitialValues, currentYear);
    assert Year !in e;
  }

  /** A year typed as plain decimal digits is refused exactly when it lies
      before 1980 or after next year. */
  lemma YearAsDigits(v: FormValues, year: nat, currentYear: int)
    requires v.year == NatToString(year)
    ensures Year in ValidationErrors(v, currentYear) <==> year < 1980 || year > currentYear + 1
  {
    NumberOfNatToString(year);
    assert IsDigitOf(v.year[0], 10) && IsDigitOf(v.year[|v.year| - 1], 10);
    TrimNoSpace(v.year);
  }

  /** Only the checked fields are looked at: changing any other field
      leaves the errors as they are. */
  lemma UncheckedFieldsIgnored(v: FormValues, field: FormField, s: string, currentYear: int)
    requires field !in CheckedFields
    ensures ValidationErrors(WithValue(v, field, s), currentYear) == ValidationErrors(v, currentYear)
  {
    var w := WithValue(v, field, s);
    assert ValueOf(w, OwnerName) == ValueOf(v, OwnerName) && ValueOf(w, Phone) == ValueOf(v, Phone);
    assert ValueOf(w, CarBrand) == ValueOf(v, CarBrand) && ValueOf(w, CarModel) == ValueOf(v, CarModel);
    assert ValueOf(w, Year) == ValueOf(v, Year);
  }

  /** The page's state. */
  class SellCarsPage {
    const currentYear: int
    var values: FormValues
    var errors: map<FormField, Problem>
    var isSubmitting: bool
    var isSubmitted: bool

    /** Between events no submission is in flight (the delayed completion
        of a submit is taken as part of the submit), and only checked fields
        carry errors. */
    ghost predicate Valid()
      reads this
    {
      !isSubmitting && errors.Keys <= CheckedFields
    }

    constructor (currentYear: int)
      ensures this.currentYear == currentYear
      ensures values == InitialValues && errors == map[]
      ensures !isSubmitting && !isSubmitted
      ensures Valid()
    {
      this.currentYear := currentYear;
      values := InitialValues;
      errors := map[];
      isSubmitting := false;
      isSubmitted := false;
    }

    /** `validate`: collects an error for each failed check, stores the map
        and reports whether it is empty. */
    method Validate() returns (ok: bool)
      modifies this
      ensures errors == ValidationErrors(values, currentYear)
      ensures ok <==> errors == map[]
      ensures values == old(values) && isSubmitting == old(isSubmitting) && isSubmitted == old(isSubmitted)
    {
      var newErrors: map<FormField, Problem> := map[];
      ghost var e0 := newErrors;
      if IsBlank(values.ownerName) {
        newErrors := newErrors[OwnerName := Required];
      }
      ghost var e1 := newErrors;
      assert e1 == if IsBlank(values.ownerName) then e0[OwnerName := Required] else e0;
      if IsBlank(values.phone) {
        newErrors := newErrors[Phone := Required];
      }
      ghost var e2 := newErrors;
      assert e2 == if IsBlank(values.phone) then e1[Phone := Required] else e1;
      if IsBlank(values.carBrand) {
        newErrors := newErrors[CarBrand := Required];
      }
      ghost var e3 := newErrors;
      assert e3 == if IsBlank(values.carBrand) then e2[CarBrand := Required] else e2;
      if IsBlank(values.carModel) {
        newErrors := newErrors[CarModel := Required];
      }
      ghost var e4 := newErrors;
      assert e4 == if IsBlank(values.carModel) then e3[CarModel := Required] else e3;
      if !IsBlank(values.year) {
        var yearNumber := StringToNumber(values.year);
        if !YearAccepted(yearNumber, currentYear) {
          newErrors := newErrors[Year := Invalid];
        }
      }
      assert newErrors == if YearRefused(values.year, currentYear) then e4[Year := Invalid] else e4;
      errors := newErrors;
      ok := |errors.Keys| == 0;
      NoKeysEmpty(errors);
    }

    /** `handleChange`: the field takes the new value and loses its error;
        every other value and error stays. */
    method HandleChange(field: FormField, value: string)
      modifies this
      ensures values == WithValue(old(values), field, value)
      ensures errors == old(errors) - {field}
      ensures isSubmitting == old(isSubmitting) && isSubmitted == old(isSubmitted)
      ensures old(Valid()) ==> Valid()
    {
      values := WithValue(values, field, value);
      if field in errors {
        var updated := errors;
        updated := updated - {field};
        errors := updated;
      }
    }

    /** `handleSubmit`, with the delayed completion run at once: a failed
        validation stops after storing the errors; a passing one marks the
        form as sent and empties it. */
    method HandleSubmit()
      requires Valid()
      modifies this
      ensures errors == ValidationErrors(old(values), currentYear)
      ensures errors != map[] ==> values == old(values) && !isSubmitted
      ensures errors == map[] ==> values == InitialValues && isSubmitted
      ensures Valid()
    {
      isSubmitted := false;
      var ok := Validate();
      if !ok {
        return;
      }
      isSubmitting := true;
      isSubmitting := false;
      isSubmitted := true;
      values := InitialValues;
    }
  }

  /** A map without keys is the empty map. */
  lemma NoKeysEmpty(m: map<FormField, Problem>)
    ensures |m.Keys| == 0 <==> m == map[]
  {
    if m != map[] {
      var g :| g in m;
    }
  }
}

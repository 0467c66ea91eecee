/**
 * The two-step input form: the validation rules of its schema and the
 * `formStep` field that the Next and Back buttons move between the name
 * step (0) and the birth-date step (1).
 */
module InputForm {
  import opened JsText

  datatype Field = FirstName | MiddleName | LastName | BirthDate

  datatype FormData = FormData(firstName: string, middleName: string, lastName: string, birthDate: string)

  /** The default values: every field empty. */
  const EmptyForm := FormData("", "", "", "")

  function Get(d: FormData, f: Field): string
  {
    match f
    case FirstName => d.firstName
    case MiddleName => d.middleName
    case LastName => d.lastName
    case BirthDate => d.birthDate
  }

  /** Typing `v` into field `f`. */
  function Set(d: FormData, f: Field, v: string): (r: FormData)
    ensures Get(r, f) == v
    ensures forall g :: g != f ==> Get(r, g) == Get(d, g)
  {
    match f
    case FirstName => d.(firstName := v)
    case MiddleName => d.(middleName := v)
    case LastName => d.(lastName := v)
    case BirthDate => d.(birthDate := v)
  }

  /** Every field but the middle name must have at least one character. */
  predicate Required(f: Field)
  {
    f != MiddleName
  }

  function Message(f: Field): string
  {
    match f
    case FirstName => "First name is required"
    case LastName => "Last name is required"
    case BirthDate => "Birth date is required"
    case MiddleName => ""
  }

  /** The schema: first name, last name and birth date have length at least 1. */
  predicate SchemaValid(d: FormData)
    ensures SchemaValid(d) <==> forall f :: Required(f) ==> Get(d, f) != ""
  {
    assert Get(d, FirstName) == d.firstName && Get(d, LastName) == d.lastName && Get(d, BirthDate) == d.birthDate;
    |d.firstName| >= 1 && |d.lastName| >= 1 && |d.birthDate| >= 1
  }

  datatype FieldError = FieldError(field: Field, message: string)

  function FieldsOf(errors: seq<FieldError>): (fs: seq<Field>)
    ensures |fs| == |errors| && forall i :: 0 <= i < |errors| ==> fs[i] == errors[i].field
  {
    seq(|errors|, i requires 0 <= i < |errors| => errors[i].field)
  }

  /** The errors the schema reports for `fields`, in their order. */
  function FieldErrors(d: FormData, fields: seq<Field>): (errors: seq<FieldError>)
    ensures forall i :: 0 <= i < |errors| ==>
      errors[i].field in fields && Required(errors[i].field) && Get(d, errors[i].field) == ""
      && errors[i].message == Message(errors[i].field)
    ensures forall f :: f in fields && Required(f) && Get(d, f) == "" ==> f in FieldsOf(errors)
  {
    if fields == [] then []
    else
      var f := fields[0];
      var rest := FieldErrors(d, fields[1..]);
      var here := if Required(f) && Get(d, f) == "" then [FieldError(f, Message(f))] else [];
      assert FieldsOf(here + rest) == FieldsOf(here) + FieldsOf(rest);
      assert forall g :: g in fields ==> g == f || g in fields[1..];
      assert here != [] ==> FieldsOf(here) == [f];
      assert forall g :: g in FieldsOf(here) || g in FieldsOf(rest) ==> g in FieldsOf(here + rest);
      here + rest
  }

  /** All schema errors of a submission: none exactly when it is valid. */
  function SchemaErrors(d: FormData): (errors: seq<FieldError>)
    ensures errors == [] <==> SchemaValid(d)
    ensures forall i :: 0 <= i < |errors| ==> Required(errors[i].field) && Get(d, errors[i].field) == ""
  {
    var errors := FieldErrors(d, [FirstName, MiddleName, LastName, BirthDate]);
    var all := [FirstName, MiddleName, LastName, BirthDate];
    var missing := if d.firstName == "" then FirstName else if d.lastName == "" then LastName else BirthDate;
    assert missing in all;
    assert !SchemaValid(d) ==> Required(missing) && Get(d, missing) == "" && missing in FieldsOf(errors);
    assert errors != [] ==> Required(errors[0].field) && Get(d, errors[0].field) == "";
    assert forall f :: Required(f) && Get(d, f) == "" ==> !SchemaValid(d);
    errors
  }

  /**
   * The test of `nextStep`: first and last name are not the empty string,
   * which is exactly when validating those two fields reports no error.
   */
  predicate CanAdvance(d: FormData)
    ensures CanAdvance(d) <==> FieldErrors(d, [FirstName, LastName]) == []
  {
    var errors := FieldErrors(d, [FirstName, LastName]);
    assert FirstName in [FirstName, LastName] && LastName in [FirstName, LastName];
    assert Get(d, FirstName) == d.firstName && Get(d, LastName) == d.lastName;
    assert d.firstName == "" ==> FirstName in FieldsOf(errors);
    assert d.lastName == "" ==> LastName in FieldsOf(errors);
    assert errors != [] ==> errors[0].field in [FirstName, LastName] && Get(d, errors[0].field) == "";
    d.firstName != "" && d.lastName != ""
  }

  /** A form valid for the schema could have left the first step, and the other way round given a date. */
  lemma SchemaValidIffAdvanceAndDate(d: FormData)
    ensures SchemaValid(d) <==> CanAdvance(d) && d.birthDate != ""
  {
  }

  /** Only the length counts: names made of spaces pass both checks. */
  lemma BlankNamesPass(d: FormData)
    requires |d.firstName| >= 1 && |d.lastName| >= 1 && |d.birthDate| >= 1
    requires forall i :: 0 <= i < |d.firstName| ==> d.firstName[i] == ' '
    requires forall i :: 0 <= i < |d.lastName| ==> d.lastName[i] == ' '
    ensures CanAdvance(d) && SchemaValid(d)
    ensures Trim(d.firstName) == [] && Trim(d.lastName) == []
  {
  }

  /** The form's state: its values and the step it shows. */
  class Form {
    var values: FormData
    var formStep: int

    ghost predicate Valid()
      reads this
    {
      formStep == 0 || formStep == 1
    }

    constructor ()
      ensures Valid()
      ensures values == EmptyForm && formStep == 0
    {
      values := EmptyForm;
      formStep := 0;
    }

    method Edit(f: Field, v: string)
      requires Valid()
      modifies this
      ensures Valid()
      ensures values == Set(old(values), f, v) && formStep == old(formStep)
    {
      values := Set(values, f, v);
    }

    /**
     * `nextStep`: moves to step 1 when both names are filled; otherwise stays
     * and shows the errors of the first and last name, which then exist.
     */
    method NextStep() returns (shown: seq<FieldError>)
      requires Valid()
      modifies this
      ensures Valid()
      ensures values == old(values)
      ensures CanAdvance(values) ==> formStep == 1 && shown == []
      ensures !CanAdvance(values) ==> formStep == old(formStep) && shown == FieldErrors(values, [FirstName, LastName])
      ensures shown == [] <==> CanAdvance(values)
    {
      var isValid := values.firstName != "" && values.lastName != "";
      if isValid {
        formStep := 1;
        shown := [];
      } else {
        shown := FieldErrors(values, [FirstName, LastName]);
        assert FirstName in [FirstName, LastName] && LastName in [FirstName, LastName];
        assert Get(values, FirstName) == "" || Get(values, LastName) == "";
      }
    }

    /** `prevStep`: back to the name step, whatever the current step. */
    method PrevStep()
      requires Valid()
      modifies this
      ensures Valid()
      ensures formStep == 0 && values == old(values)
    {
      formStep := 0;
    }

    /**
     * Pressing submit, which exists only on step 1: the values go to the
     * caller exactly when the schema accepts them, else the errors are shown.
     */
    method Submit() returns (data: Option<FormData>, errors: seq<FieldError>)
      requires Valid() && formStep == 1
      ensures data.Some? <==> SchemaValid(values)
      ensures data.Some? ==> data.value == values
      ensures errors == SchemaErrors(values)
    {
      errors := SchemaErrors(values);
      data := if errors == [] then Some(values) else None;
    }
  }
}

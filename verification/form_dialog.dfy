/** The dialog that renders a form from field definitions: the initial
    form it seeds, the change handler, validation of required fields and
    submission. */
module DynamicFormDialog {
  import opened Js
  import opened FormSchema

  /** A select field with at least one option. */
  predicate HasOptions(f: FieldSpec) {
    f.ftype == Some("select") && f.options.Some? && |f.options.value| > 0
  }

  /** The initial value of one field: its `defaultValue` when defined, even
      a falsy one; else, for a select with options, the first option's
      `value` (or the option itself when it has none); else "". */
  function InitialValue(f: FieldSpec): (r: Value)
    ensures f.defaultValue != Undefined ==> r == f.defaultValue
    ensures f.defaultValue == Undefined && HasOptions(f) ==>
      var first := f.options.value[0];
      r == (if Truthy(first) && Prop(first, "value") != Undefined then Prop(first, "value") else first)
    ensures f.defaultValue == Undefined && !HasOptions(f) ==> r == Str("")
  {
    if f.defaultValue != Undefined then f.defaultValue
    else if HasOptions(f) then
      var first := f.options.value[0];
      if Truthy(first) && Prop(first, "value") != Undefined then Prop(first, "value") else first
    else Str("")
  }

  /** The dialog's initial form. */
  function InitialForm(fields: seq<FieldSpec>): (form: Form)
    ensures form.Keys == Names(fields)
  {
    SeedForm(fields, InitialValue)
  }

  /** `validate`'s errors for a form. */
  function DialogErrors(fields: seq<FieldSpec>, form: Form): Errors {
    RequiredErrors(fields, form, Blank)
  }

  /** Every field name has a key in the initial form, holding the field's
      initial value when no later field reuses the name. */
  lemma InitialFormShape(fields: seq<FieldSpec>, i: int)
    requires 0 <= i < |fields| && LastWithName(fields, i)
    ensures InitialForm(fields).Keys == Names(fields)
    ensures InitialForm(fields)[fields[i].name] == InitialValue(fields[i])
  {
    SeedFormValue(fields, InitialValue, i);
  }

  /** Only required fields are flagged, and 0, false and null count as
      filled. */
  lemma OnlyBlankRequiredFlagged(fields: seq<FieldSpec>, form: Form, name: string)
    requires name in form && form[name] in {Num(0), Bool(false), Null}
    ensures name !in DialogErrors(fields, form)
    ensures forall i :: 0 <= i < |fields| && !fields[i].required && SoleWithName(fields, i) ==>
      fields[i].name !in DialogErrors(fields, form)
  {
    var flagged := FlaggedNames(fields, form, Blank);
    assert name !in flagged;
    forall i | 0 <= i < |fields| && !fields[i].required && SoleWithName(fields, i)
      ensures fields[i].name !in flagged
    {
    }
  }

  class FormDialog {
    const fields: seq<FieldSpec>
    var form: Form
    var errors: Errors

    /** Opening the dialog seeds the form and clears the errors. */
    constructor (fields: seq<FieldSpec>)
      ensures this.fields == fields
      ensures form == InitialForm(fields) && errors == map[]
    {
      this.fields := fields;
      form := InitialForm(fields);
      errors := map[];
    }

    /** Re-running the seeding effect when the dialog reopens. */
    method Reset()
      modifies this
      ensures form == InitialForm(fields) && errors == map[]
    {
      form := InitialForm(fields);
      errors := map[];
    }

    /** `handleChange`: only the named key changes. */
    method HandleChange(name: string, v: Value)
      modifies this
      ensures form == old(form)[name := v]
      ensures errors == old(errors)
    {
      form := form[name := v];
    }

    /** `validate`: records the errors of the current form and reports
        whether there are none. */
    method Validate() returns (ok: bool)
      modifies this
      ensures errors == DialogErrors(fields, form) && form == old(form)
      ensures ok <==> errors == map[]
    {
      var newErrors: Errors := map[];
      for i := 0 to |fields|
        invariant newErrors == RequiredErrors(fields[..i], form, Blank)
      {
        var f := fields[i];
        assert fields[..i + 1][..i] == fields[..i];
        if f.required && (Get(form, f.name) == Undefined || Get(form, f.name) == Str("")) {
          newErrors := newErrors[f.name := RequiredMessage(f)];
        }
      }
      assert fields[..|fields|] == fields;
      errors := newErrors;
      ok := |newErrors| == 0;
    }

    /** `handleSubmit`: the form goes to `onSubmit`, and the dialog closes,
        only when validation passes. */
    method HandleSubmit() returns (submitted: Option<Form>, close: bool)
      modifies this
      ensures form == old(form) && errors == DialogErrors(fields, form)
      ensures submitted.Some? <==> DialogErrors(fields, form) == map[]
      ensures submitted.Some? ==> submitted.value == form
      ensures close <==> submitted.Some?
    {
      var ok := Validate();
      if !ok {
        return None, false;
      }
      return Some(form), true;
    }
  }
}

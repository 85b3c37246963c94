/** Field definitions as the dynamic forms receive them, and the two
    computations every form built from them shares: seeding a form object
    from the fields, and collecting "<label> is required" errors. */
module FormSchema {
  import opened Js

  /** A field definition; absent properties are None or Undefined, and
      `required` is its truthiness. */
  datatype FieldSpec = FieldSpec(
    name: string,
    caption: Option<string>,
    ftype: Option<string>,
    required: bool,
    options: Option<seq<Value>>,
    defaultValue: Value)

  /** A form object: field name to value. */
  type Form = map<string, Value>

  /** An errors object: field name to message. */
  type Errors = map<string, string>

  function Names(fields: seq<FieldSpec>): set<string> {
    set i | 0 <= i < |fields| :: fields[i].name
  }

  /** No later field has the same name as field `i`. */
  predicate LastWithName(fields: seq<FieldSpec>, i: int)
    requires 0 <= i < |fields|
  {
    forall j :: i < j < |fields| ==> fields[j].name != fields[i].name
  }

  /** No other field has the name of field `i`. */
  predicate SoleWithName(fields: seq<FieldSpec>, i: int)
    requires 0 <= i < |fields|
  {
    forall j :: 0 <= j < |fields| && j != i ==> fields[j].name != fields[i].name
  }

  /** `fields.reduce((acc, f) => ({ ...acc, [f.name]: seed(f) }), {})`:
      one key per field name, a later field with the same name winning. */
  function SeedForm(fields: seq<FieldSpec>, seed: FieldSpec -> Value): (form: Form)
    ensures form.Keys == Names(fields)
  {
    if |fields| == 0 then map[]
    else
      var init := fields[..|fields| - 1];
      var f := fields[|fields| - 1];
      assert forall i :: 0 <= i < |init| ==> init[i] == fields[i];
      assert Names(fields) == Names(init) + {f.name};
      SeedForm(init, seed)[f.name := seed(f)]
  }

  /** A field's key holds its seed unless a later field reuses the name. */
  lemma {:induction false} SeedFormValue(fields: seq<FieldSpec>, seed: FieldSpec -> Value, i: int)
    requires 0 <= i < |fields| && LastWithName(fields, i)
    ensures SeedForm(fields, seed)[fields[i].name] == seed(fields[i])
  {
    var init := fields[..|fields| - 1];
    if i < |fields| - 1 {
      assert init[i] == fields[i];
      assert LastWithName(init, i);
      SeedFormValue(init, seed, i);
      assert fields[|fields| - 1].name != fields[i].name;
    }
  }

  /** `${f.label}` */
  function LabelText(caption: Option<string>): string {
    if caption.Some? then caption.value else "undefined"
  }

  function RequiredMessage(f: FieldSpec): string {
    LabelText(f.caption) + " is required"
  }

  /** Field `f` is required and its value counts as missing. */
  predicate Flagged(f: FieldSpec, form: Form, missing: Value -> bool) {
    f.required && missing(Get(form, f.name))
  }

  function FlaggedNames(fields: seq<FieldSpec>, form: Form, missing: Value -> bool): set<string> {
    set i | 0 <= i < |fields| && Flagged(fields[i], form, missing) :: fields[i].name
  }

  /** The errors object a validator builds by visiting the fields in order:
      exactly the flagged names, each with its field's message. */
  function RequiredErrors(fields: seq<FieldSpec>, form: Form, missing: Value -> bool): (errs: Errors)
    ensures errs.Keys == FlaggedNames(fields, form, missing)
    ensures forall i :: 0 <= i < |fields| && Flagged(fields[i], form, missing) && LastWithName(fields, i) ==>
      errs[fields[i].name] == RequiredMessage(fields[i])
  {
    if |fields| == 0 then map[]
    else
      var init := fields[..|fields| - 1];
      var f := fields[|fields| - 1];
      var before := RequiredErrors(init, form, missing);
      assert forall i :: 0 <= i < |init| ==> init[i] == fields[i];
      if Flagged(f, form, missing) then
        assert FlaggedNames(fields, form, missing) == FlaggedNames(init, form, missing) + {f.name};
        before[f.name := RequiredMessage(f)]
      else
        assert FlaggedNames(fields, form, missing) == FlaggedNames(init, form, missing);
        before
  }

  /** The dialog's notion of a missing value: undefined or "". */
  predicate Blank(v: Value) {
    v == Undefined || v == Str("")
  }

  /** The signup form's notion of a missing value: any falsy value. */
  predicate Falsy(v: Value) {
    !Truthy(v)
  }

  /** Every field the dialog's rule flags is flagged by the signup rule,
      and a required field holding 0 is flagged only by the latter. */
  lemma BlankStricterThanFalsy(fields: seq<FieldSpec>, form: Form, f: FieldSpec)
    ensures RequiredErrors(fields, form, Blank).Keys <= RequiredErrors(fields, form, Falsy).Keys
    ensures f.required ==>
      && RequiredErrors([f], map[f.name := Num(0)], Blank) == map[]
      && RequiredErrors([f], map[f.name := Num(0)], Falsy) == map[f.name := RequiredMessage(f)]
  {
    forall i | 0 <= i < |fields| && Flagged(fields[i], form, Blank)
      ensures Flagged(fields[i], form, Falsy)
    {
    }
    var one := map[f.name := Num(0)];
    assert [f][..0] == [];
    assert FlaggedNames([f], one, Blank) == {};
  }

  /** Validation passes iff no required field is missing. */
  lemma NoErrorsIff(fields: seq<FieldSpec>, form: Form, missing: Value -> bool)
    ensures RequiredErrors(fields, form, missing) == map[] <==>
      forall i :: 0 <= i < |fields| ==> !(fields[i].required && missing(Get(form, fields[i].name)))
  {
    var errs := RequiredErrors(fields, form, missing);
    if errs == map[] {
      forall i | 0 <= i < |fields| ensures !Flagged(fields[i], form, missing) {
        assert fields[i].name !in FlaggedNames(fields, form, missing);
      }
    } else {
      var k :| k in errs.Keys;
      assert k in FlaggedNames(fields, form, missing);
    }
  }

  /** Filling a field with a value that does not count as missing clears
      that field's error and no other. */
  lemma FillingClearsError(fields: seq<FieldSpec>, form: Form, missing: Value -> bool, name: string, v: Value)
    requires !missing(v)
    ensures RequiredErrors(fields, form[name := v], missing).Keys
         == RequiredErrors(fields, form, missing).Keys - {name}
  {
    var form' := form[name := v];
    forall i | 0 <= i < |fields|
      ensures Flagged(fields[i], form', missing) <==> Flagged(fields[i], form, missing) && fields[i].name != name
    {
    }
    assert FlaggedNames(fields, form', missing) == FlaggedNames(fields, form, missing) - {name};
  }
}

/**
 * The add/edit register dialog (WebServer/src/components/Devices/AddRegisterModal.jsx): the
 * form state, the field-by-field validation, the register record handed to `onSave` (the
 * address stays the string typed, the scale is parsed as a float), and the guard against a
 * second submit while one is running.
 */
module RegisterModal {
  import opened Wrappers
  import opened Text
  import opened Js
  import opened Forms

  datatype Field = Name | Address | Type | DataType | Scale | Unit

  /** `formData`. */
  datatype FormData = FormData(name: string, address: string, kind: string, dataType: string,
                               scale: string, unit: string)

  /** The form a new register starts from. */
  const DefaultForm := FormData("", "", "holding", "int16", "1", "")

  function FieldValue(form: FormData, f: Field): string {
    match f
    case Name => form.name
    case Address => form.address
    case Type => form.kind
    case DataType => form.dataType
    case Scale => form.scale
    case Unit => form.unit
  }

  /** `{...prev, [name]: value}`: the named field takes the value, every other keeps its own. */
  function WithField(form: FormData, f: Field, v: string): (r: FormData)
    ensures FieldValue(r, f) == v
    ensures forall g :: g != f ==> FieldValue(r, g) == FieldValue(form, g)
  {
    match f
    case Name => form.(name := v)
    case Address => form.(address := v)
    case Type => form.(kind := v)
    case DataType => form.(dataType := v)
    case Scale => form.(scale := v)
    case Unit => form.(unit := v)
  }

  function Value(form: FormData, f: Field): Val {
    Str(FieldValue(form, f))
  }

  /** `!String(formData[f] || '').trim()`. */
  predicate Blank(form: FormData, f: Field) {
    Text.Blank(FieldValue(form, f))
  }

  /** `validateForm`'s assignments, in order. */
  function Rules(c: Coercion, form: FormData): seq<Assignment<Field, Issue>> {
    [Rule(Name, Blank(form, Name), false),
     Rule(Address, Blank(form, Address), IsNaN(c, Value(form, Address)) || Below(c, Value(form, Address), 0.0)),
     Rule(Type, Blank(form, Type), false),
     Rule(DataType, Blank(form, DataType), false),
     Rule(Scale, Blank(form, Scale), IsNaN(c, Value(form, Scale))),
     Rule(Unit, Blank(form, Unit), false)]
  }

  /** `newErrors` as `validateForm` fills it. */
  function FormErrors(c: Coercion, form: FormData): map<Field, Issue> {
    Recorded(Rules(c, form))
  }

  /** What the dialog demands: every field filled, a numeric address of at least 0, a numeric scale. */
  predicate FormValid(c: Coercion, form: FormData) {
    !Blank(form, Name) && !Blank(form, Type) && !Blank(form, DataType) && !Blank(form, Unit)
    && !Blank(form, Address) && ToNumber(c, Value(form, Address)).Some?
    && ToNumber(c, Value(form, Address)).value >= 0.0
    && !Blank(form, Scale) && ToNumber(c, Value(form, Scale)).Some?
  }

  /** `validateForm` returns true exactly for a form meeting every demand of the dialog. */
  lemma FormAcceptIffValid(c: Coercion, form: FormData)
    ensures FormErrors(c, form) == map[] <==> FormValid(c, form)
  {
    var r := Rules(c, form);
    RecordedEmpty(r);
    if Unassigned(r) {
      assert r[0].value.None? && r[1].value.None? && r[2].value.None?;
      assert r[3].value.None? && r[4].value.None? && r[5].value.None?;
    } else {
      var i :| 0 <= i < |r| && r[i].value.Some?;
      assert i in {0, 1, 2, 3, 4, 5};
    }
  }

  /** The message each field gets: "required" when blank, "invalid" when it fails its check. */
  lemma FieldIssue(c: Coercion, form: FormData, i: int)
    requires 0 <= i < 6
    ensures var r := Rules(c, form)[i];
      (r.key in FormErrors(c, form) <==> r.value.Some?)
      && (r.value.Some? ==> FormErrors(c, form)[r.key] == r.value.value)
  {
    var r := Rules(c, form);
    forall j | 0 <= j < 6 && j != i
      ensures r[j].key != r[i].key
    {
      assert i in {0, 1, 2, 3, 4, 5} && j in {0, 1, 2, 3, 4, 5};
    }
    RecordedHas(r, r[i].key);
    if r[i].value.Some? {
      RecordedLast(r, i);
    }
  }

  /** `x || fallback`. */
  function Or(x: Val, fallback: Val): Val {
    if Truthy(x) then x else fallback
  }

  /** `registerData`, field by field; `id` is present only when a register is edited. */
  datatype RegisterRecord = RegisterRecord(
    id: Option<Val>,
    name: string, address: string, kind: string, dataType: string, scale: Val, unit: string,
    status: Val, lastValue: Val, lastUpdate: Val)

  /** `parseFloat(formData.scale)`, NaN when it does not parse. */
  function ParsedScale(c: Coercion, form: FormData): Val {
    var x := c.parseFloat(form.scale);
    if x.Some? then Num(x.value) else NaN
  }

  /**
   * `registerData`: the form's text fields as typed (the address included), the scale parsed,
   * and the edited register's id and truthy status, last value and last update kept; a new
   * register starts as 'success', '0' and 'Never'.
   */
  function RegisterData(c: Coercion, form: FormData, editRegister: Val): (d: RegisterRecord)
    ensures d.id.Some? <==> Truthy(editRegister)
    ensures Truthy(editRegister) ==> d.id.value == OptProp(editRegister, "id")
    ensures Truthy(OptProp(editRegister, "status")) ==> d.status == OptProp(editRegister, "status")
    ensures Truthy(OptProp(editRegister, "lastValue")) ==> d.lastValue == OptProp(editRegister, "lastValue")
    ensures Truthy(OptProp(editRegister, "lastUpdate")) ==> d.lastUpdate == OptProp(editRegister, "lastUpdate")
    ensures !Truthy(editRegister) ==>
      d.status == Str("success") && d.lastValue == Str("0") && d.lastUpdate == Str("Never")
    ensures !Truthy(OptProp(editRegister, "status")) ==> d.status == Str("success")
    ensures !Truthy(OptProp(editRegister, "lastValue")) ==> d.lastValue == Str("0")
    ensures !Truthy(OptProp(editRegister, "lastUpdate")) ==> d.lastUpdate == Str("Never")
    ensures && d.name == form.name && d.address == form.address && d.kind == form.kind
            && d.dataType == form.dataType && d.unit == form.unit
    ensures c.parseFloat(form.scale).Some? ==> d.scale == Num(c.parseFloat(form.scale).value)
    ensures c.parseFloat(form.scale).None? ==> d.scale == NaN
  {
    RegisterRecord(
      if Truthy(editRegister) then Some(OptProp(editRegister, "id")) else None,
      form.name, form.address, form.kind, form.dataType, ParsedScale(c, form), form.unit,
      Or(OptProp(editRegister, "status"), Str("success")),
      Or(OptProp(editRegister, "lastValue"), Str("0")),
      Or(OptProp(editRegister, "lastUpdate"), Str("Never")))
  }

  /** The dialog's state. */
  class AddRegisterDialog {
    var form: FormData
    var errors: map<Field, Issue>
    var submitting: bool

    /** A dialog opened for a new register. */
    constructor()
      ensures form == DefaultForm && errors == map[] && !submitting
    {
      form := DefaultForm;
      errors := map[];
      submitting := false;
    }

    /** `handleInputChange`: the named field takes the value; its error, if any, is cleared. */
    method HandleInputChange(name: Field, value: string)
      modifies this
      ensures form == WithField(old(form), name, value)
      ensures errors == if name in old(errors) && old(errors)[name] != Cleared
                        then old(errors)[name := Cleared] else old(errors)
      ensures submitting == old(submitting)
    {
      form := WithField(form, name, value);
      if name in errors && errors[name] != Cleared {
        errors := errors[name := Cleared];
      }
    }

    /** `validateForm`: records the errors and reports whether there were none. */
    method ValidateForm(c: Coercion) returns (valid: bool)
      modifies this
      ensures errors == FormErrors(c, form)
      ensures valid <==> FormValid(c, form)
      ensures form == old(form) && submitting == old(submitting)
    {
      var found := FormErrors(c, form);
      FormAcceptIffValid(c, form);
      errors := found;
      valid := found == map[];
    }

    /**
     * `handleSubmit`. `saved` is what `onSave` resolves to, None when it rejects. `sent` is the
     * record passed to `onSave`, and `closed` whether the dialog asked to be closed.
     */
    method HandleSubmit(c: Coercion, editRegister: Val, saved: Option<Val>)
      returns (sent: Option<RegisterRecord>, closed: bool)
      modifies this
      ensures old(submitting) ==>
        sent.None? && !closed && form == old(form) && errors == old(errors) && submitting
      ensures !old(submitting) ==>
        !submitting
        && (sent.Some? <==> FormValid(c, old(form)))
        && (sent.Some? ==> sent.value == RegisterData(c, old(form), editRegister))
        && (closed <==> sent.Some? && saved.Some? && saved.value != Bool(false))
        && form == (if closed && !Truthy(editRegister) then DefaultForm else old(form))
        && errors == (if closed then map[] else FormErrors(c, old(form)))
    {
      if submitting {
        return None, false;
      }
      var valid := ValidateForm(c);
      if !valid {
        return None, false;
      }
      submitting := true;
      sent := Some(RegisterData(c, form, editRegister));
      closed := saved.Some? && saved.value != Bool(false);
      if closed {
        if !Truthy(editRegister) {
          form := DefaultForm;
        }
        errors := map[];
      }
      submitting := false;
    }
  }
}

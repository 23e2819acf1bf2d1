/**
 * The plain register form (WebServer/src/components/configregister/ModbusRegisterForm.jsx): the
 * form starts from the register being edited or from a blank record, every edit sets one
 * field and clears that field's error, and the register is handed to `onSave` only when the
 * name and unit are filled, the address is at least 1 and the scale is positive.
 */
module RegisterForm {
  import opened Wrappers
  import opened Text
  import opened Js
  import opened Forms

  /** `initialFormState`. */
  const DefaultForm: Object := map[
    "description" := Str(""), "dataType" := Str("int16"), "type" := Str("Holding"),
    "scale" := Num(1.0), "name" := Str(""), "address" := Str(""), "unit" := Str("")]

  /** `v <= x` for a number x; a NaN comparison is false. */
  predicate AtMost(c: Coercion, v: Val, x: real) {
    var n := ToNumber(c, v); n.Some? && n.value <= x
  }

  /** `!s.trim()` on a string field; the caller has ruled out a non-string. */
  predicate BlankText(v: Val) {
    v.Str? && Text.Blank(v.s)
  }

  /** The four checks of `validateForm`, in order, each a "required" message. */
  function Rules(c: Coercion, form: Object): seq<Assignment<string, Issue>> {
    [Rule("name", BlankText(Get(form, "name")), false),
     Rule("address", !Truthy(Get(form, "address")) || Below(c, Get(form, "address"), 1.0), false),
     Rule("scale", !Truthy(Get(form, "scale")) || AtMost(c, Get(form, "scale"), 0.0), false),
     Rule("unit", BlankText(Get(form, "unit")), false)]
  }

  /**
   * `newErrors` as `validateForm` fills it, or None when `name.trim()` or `unit.trim()`
   * throws because the field is not a string.
   */
  function FormErrors(c: Coercion, form: Object): (r: Option<map<string, Issue>>)
    ensures r.None? <==> !Get(form, "name").Str? || !Get(form, "unit").Str?
  {
    if !Get(form, "name").Str? || !Get(form, "unit").Str? then None
    else Some(Recorded(Rules(c, form)))
  }

  /**
   * What the form demands: a non-blank name and unit, a truthy address that is not a number
   * below 1 and a truthy scale that is not a number at most 0. A non-numeric address or scale
   * is not below anything, so it passes.
   */
  predicate FormValid(c: Coercion, form: Object) {
    var name := Get(form, "name");
    var unit := Get(form, "unit");
    var address := Get(form, "address");
    var scale := Get(form, "scale");
    name.Str? && !Text.Blank(name.s) && unit.Str? && !Text.Blank(unit.s)
    && Truthy(address) && !Below(c, address, 1.0)
    && Truthy(scale) && !AtMost(c, scale, 0.0)
  }

  /**
   * Field by field: only the four checked fields can carry an error, each does exactly when
   * its check fails, and the message is the "required" one.
   */
  lemma ErrorsMeaning(c: Coercion, form: Object)
    requires FormErrors(c, form).Some?
    ensures var e := FormErrors(c, form).value;
      && e.Keys <= {"name", "address", "scale", "unit"}
      && ("name" in e <==> Text.Blank(Get(form, "name").s))
      && ("unit" in e <==> Text.Blank(Get(form, "unit").s))
      && ("address" in e <==>
            !Truthy(Get(form, "address")) || Below(c, Get(form, "address"), 1.0))
      && ("scale" in e <==>
            !Truthy(Get(form, "scale")) || AtMost(c, Get(form, "scale"), 0.0))
      && forall k :: k in e ==> e[k] == Required
  {
    var r := Rules(c, form);
    var e := Recorded(r);
    forall k | k in e
      ensures k in {"name", "address", "scale", "unit"} && e[k] == Required
    {
      RecordedHas(r, k);
      var i :| 0 <= i < |r| && r[i].key == k && r[i].value.Some?;
      assert i in {0, 1, 2, 3};
      RecordedLast(r, i);
    }
    RecordedHas(r, "name");
    RecordedHas(r, "address");
    RecordedHas(r, "scale");
    RecordedHas(r, "unit");
    assert r[0].key == "name" && r[1].key == "address" && r[2].key == "scale" && r[3].key == "unit";
    assert Assigns(r, "name") <==> r[0].value.Some? by {
      if Assigns(r, "name") {
        var i :| 0 <= i < |r| && r[i].key == "name" && r[i].value.Some?;
        assert i in {0, 1, 2, 3};
      }
    }
    assert Assigns(r, "address") <==> r[1].value.Some? by {
      if Assigns(r, "address") {
        var i :| 0 <= i < |r| && r[i].key == "address" && r[i].value.Some?;
        assert i in {0, 1, 2, 3};
      }
    }
    assert Assigns(r, "scale") <==> r[2].value.Some? by {
      if Assigns(r, "scale") {
        var i :| 0 <= i < |r| && r[i].key == "scale" && r[i].value.Some?;
        assert i in {0, 1, 2, 3};
      }
    }
    assert Assigns(r, "unit") <==> r[3].value.Some? by {
      if Assigns(r, "unit") {
        var i :| 0 <= i < |r| && r[i].key == "unit" && r[i].value.Some?;
        assert i in {0, 1, 2, 3};
      }
    }
  }

  /** `validateForm` returns true exactly for a form meeting every demand. */
  lemma FormAcceptIffValid(c: Coercion, form: Object)
    ensures FormErrors(c, form) == Some(map[]) <==> FormValid(c, form)
  {
    var r := Rules(c, form);
    RecordedEmpty(r);
    if Get(form, "name").Str? && Get(form, "unit").Str? {
      if Unassigned(r) {
        assert r[0].value.None? && r[1].value.None? && r[2].value.None? && r[3].value.None?;
      } else {
        var i :| 0 <= i < |r| && r[i].value.Some?;
        assert i in {0, 1, 2, 3};
      }
    }
  }

  /** The blank record is refused for its name, address and unit; its scale of 1 passes. */
  lemma DefaultFormErrors(c: Coercion)
    ensures FormErrors(c, DefaultForm) == Some(map["name" := Required, "address" := Required, "unit" := Required])
  {
    assert Get(DefaultForm, "name") == Str("") && Get(DefaultForm, "unit") == Str("");
    assert Get(DefaultForm, "address") == Str("") && Get(DefaultForm, "scale") == Num(1.0);
    ErrorsMeaning(c, DefaultForm);
    var e := FormErrors(c, DefaultForm).value;
    assert "scale" !in e;
    var m := map["name" := Required, "address" := Required, "unit" := Required];
    assert e.Keys == m.Keys;
    assert forall k | k in e :: e[k] == m[k];
    assert e == m;
  }

  /** What `handleSubmit` did. */
  datatype Submitted = Threw | Refused | Saved(data: Object)

  /** The form's state. */
  class RegisterFormView {
    var form: Object
    var errors: map<string, Issue>

    /** `useState(existingData || initialFormState)`: the register edited, or the blank record. */
    constructor(existingData: Option<Object>)
      ensures form == (if existingData.Some? then existingData.value else DefaultForm)
      ensures errors == map[]
    {
      form := if existingData.Some? then existingData.value else DefaultForm;
      errors := map[];
    }

    /** `handleChange`: one field takes the value typed; that field's error, if any, is cleared. */
    method HandleChange(name: string, value: string)
      modifies this
      ensures form == old(form)[name := Str(value)]
      ensures errors == if name in old(errors) && old(errors)[name] != Cleared
                        then old(errors)[name := Cleared] else old(errors)
    {
      form := form[name := Str(value)];
      if name in errors && errors[name] != Cleared {
        errors := errors[name := Cleared];
      }
    }

    /** `validateForm`: None when it throws, before any error was recorded. */
    method ValidateForm(c: Coercion) returns (valid: Option<bool>)
      modifies this
      ensures form == old(form)
      ensures valid.None? <==> FormErrors(c, form).None?
      ensures valid.None? ==> errors == old(errors)
      ensures valid.Some? ==> errors == FormErrors(c, form).value && (valid.value <==> FormValid(c, form))
    {
      var found := FormErrors(c, form);
      if found.None? {
        return None;
      }
      FormAcceptIffValid(c, form);
      errors := found.value;
      valid := Some(found.value == map[]);
    }

    /** `handleSubmit`: the form itself goes to `onSave`, and only when it is valid. */
    method HandleSubmit(c: Coercion) returns (outcome: Submitted)
      modifies this
      ensures form == old(form)
      ensures outcome == Threw <==> FormErrors(c, form).None?
      ensures outcome.Saved? <==> FormValid(c, form)
      ensures outcome.Saved? ==> outcome.data == form
      ensures FormErrors(c, form).Some? ==> errors == FormErrors(c, form).value
      ensures outcome == Threw ==> errors == old(errors)
    {
      var valid := ValidateForm(c);
      if valid.None? {
        return Threw;
      }
      outcome := if valid.value then Saved(form) else Refused;
    }
  }
}

/**
 * validateRegisterData: the checks a register must pass before the store saves it. Errors are
 * collected in order; None stands for the TypeError some inputs raise (a truthy non-string
 * name, or a listed register whose name cannot be lower-cased).
 */
module RegisterValidation {
  import opened Wrappers
  import opened Text
  import opened Js

  /** The messages validateRegisterData pushes, one constructor per message. */
  datatype RegisterError =
    | NameRequired
    | AddressInvalid
    | TypeRequired
    | DataTypeRequired
    | ScaleInvalid
    | UnitRequired
    | NameTaken
    | AddressTaken
    | OutOfRange(start: int, end: Option<int>)  // end is NaN (None) when the count does not parse

  /** `!a || isNaN(a) || a < 0`. */
  predicate BadAddress(c: Coercion, a: Val) {
    !Truthy(a) || IsNaN(c, a) || Below(c, a, 0.0)
  }

  /** `!s || isNaN(s)`. */
  predicate BadScale(c: Coercion, s: Val) {
    !Truthy(s) || IsNaN(c, s)
  }

  /** `(!current || register.id !== current.id)`: the register is not the one being edited. */
  predicate IsOther(register: Val, current: Val) {
    !Truthy(current) || !StrictEq(OptProp(register, "id"), OptProp(current, "id"))
  }

  /**
   * The nameExists callback: `register.name.toLowerCase() === name.toLowerCase() && IsOther`.
   * Reading a name that is not a string throws.
   */
  function NameClash(register: Val, name: Val, current: Val): Option<bool> {
    if Nullish(register) || !OptProp(register, "name").Str? || !name.Str? then None
    else Some(Lower(OptProp(register, "name").s) == Lower(name.s) && IsOther(register, current))
  }

  /** The addressExists callback: `register.address === parseInt(address) && IsOther`. */
  function AddressClash(c: Coercion, register: Val, address: Val, current: Val): Option<bool> {
    if Nullish(register) then None
    else Some(StrictEq(OptProp(register, "address"), IntVal(ParseInt(c, address))) && IsOther(register, current))
  }

  /** `registers || []`, which must then have a `some` method: only an array does. */
  function Existing(registers: Val): Option<seq<Val>> {
    if !Truthy(registers) then Some([])
    else if registers.Arr? then Some(registers.items)
    else None
  }

  /** The result of the two duplicate scans, or None if either throws. */
  function Duplicates(c: Coercion, data: Object, current: Val, registers: Val): Option<(bool, bool)> {
    var existing :- Existing(registers);
    var name := Get(data, "name");
    var address := Get(data, "address");
    var nameExists :- SomeOf(existing, v => NameClash(v, name, current));
    var addressExists :- SomeOf(existing, v => AddressClash(c, v, address, current));
    Some((nameExists, addressExists))
  }

  /** The range check runs: a truthy device that defines both startAddress and registers. */
  predicate RangeApplies(device: Val) {
    Truthy(device) && OptProp(device, "startAddress") != Undefined && OptProp(device, "registers") != Undefined
  }

  /**
   * The address lies in the device's range: when the range test runs and both the address and the
   * start parse, the address is at least the start, and at most start + registers - 1 when the
   * register count parses too. A NaN bound compares false, so a NaN start, address or count
   * never fails its side of the range test.
   */
  predicate WithinDeviceRange(c: Coercion, address: Val, device: Val) {
    var start := ParseInt(c, OptProp(device, "startAddress"));
    var count := ParseInt(c, OptProp(device, "registers"));
    var a := ParseInt(c, address);
    RangeApplies(device) && start.Some? && a.Some? ==>
      start.value <= a.value && (count.Some? ==> a.value <= start.value + count.value - 1)
  }

  /**
   * The device range check, with the bounds the message shows: the parsed start and
   * start + registers - 1, which is NaN (None) when the register count does not parse.
   */
  function RangeError(c: Coercion, address: Val, device: Val): (r: Option<RegisterError>)
    ensures r.None? <==> WithinDeviceRange(c, address, device)
    ensures r.Some? ==>
      && r.value.OutOfRange?
      && r.value.start == ParseInt(c, OptProp(device, "startAddress")).value
      && r.value.end == (var count := ParseInt(c, OptProp(device, "registers"));
                         if count.Some? then Some(r.value.start + count.value - 1) else None)
  {
    if RangeApplies(device) then
      var start := ParseInt(c, OptProp(device, "startAddress"));
      var count := ParseInt(c, OptProp(device, "registers"));
      var end := if start.Some? && count.Some? then Some(start.value + count.value - 1) else None;
      var a := ParseInt(c, address);
      if start.Some? && a.Some? && (a.value < start.value || (end.Some? && a.value > end.value))
      then Some(OutOfRange(start.value, end))
      else None
    else None
  }

  /**
   * A register count that does not parse (null, "abc") leaves the upper bound NaN, yet an
   * address below the start is still refused, with NaN as the range's end.
   */
  lemma NaNCountStillChecksStart(c: Coercion, address: Val, device: Val)
    requires RangeApplies(device)
    requires ParseInt(c, OptProp(device, "registers")).None?
    requires ParseInt(c, OptProp(device, "startAddress")).Some? && ParseInt(c, address).Some?
    requires ParseInt(c, address).value < ParseInt(c, OptProp(device, "startAddress")).value
    ensures RangeError(c, address, device) == Some(OutOfRange(ParseInt(c, OptProp(device, "startAddress")).value, None))
  {
  }

  /** Whether validation runs to the end without a TypeError. */
  predicate Completes(c: Coercion, data: Object, current: Val, registers: Val) {
    MissingOrBlank(Get(data, "name")).Some? && MissingOrBlank(Get(data, "type")).Some?
    && MissingOrBlank(Get(data, "dataType")).Some? && MissingOrBlank(Get(data, "unit")).Some?
    && Duplicates(c, data, current, registers).Some?
  }

  /**
   * What a valid register is, stated positively: non-blank string name, type, dataType and
   * unit, a truthy non-negative numeric address, a truthy numeric scale, no other register with
   * the same name (ignoring case) or address, and an address inside the device's range.
   */
  predicate Valid(c: Coercion, data: Object, current: Val, registers: Val, device: Val) {
    Get(data, "name").Str? && Trim(Get(data, "name").s) != ""
    && Get(data, "type").Str? && Trim(Get(data, "type").s) != ""
    && Get(data, "dataType").Str? && Trim(Get(data, "dataType").s) != ""
    && Get(data, "unit").Str? && Trim(Get(data, "unit").s) != ""
    && Truthy(Get(data, "address")) && !IsNaN(c, Get(data, "address")) && !Below(c, Get(data, "address"), 0.0)
    && Truthy(Get(data, "scale")) && !IsNaN(c, Get(data, "scale"))
    && Duplicates(c, data, current, registers) == Some((false, false))
    && WithinDeviceRange(c, Get(data, "address"), device)
  }

  /** The outcome of each check, in the order validateRegisterData performs them (true = fails). */
  datatype Checks = Checks(
    nameMissing: bool, addressBad: bool, typeMissing: bool, dataTypeMissing: bool,
    scaleBad: bool, unitMissing: bool, nameTaken: bool, addressTaken: bool,
    range: Option<RegisterError>)

  /** Runs every check; None when one of them throws a TypeError. */
  function Run(c: Coercion, data: Object, current: Val, registers: Val, device: Val): (r: Option<Checks>)
    ensures r.Some? ==> r.value.range.Some? ==> r.value.range.value.OutOfRange?
  {
    var name :- MissingOrBlank(Get(data, "name"));
    var kind :- MissingOrBlank(Get(data, "type"));
    var dataType :- MissingOrBlank(Get(data, "dataType"));
    var unit :- MissingOrBlank(Get(data, "unit"));
    var dup :- Duplicates(c, data, current, registers);
    Some(Checks(name, BadAddress(c, Get(data, "address")), kind, dataType,
                BadScale(c, Get(data, "scale")), unit, dup.0, dup.1,
                RangeError(c, Get(data, "address"), device)))
  }

  /** No error in `s` is a range error. */
  predicate NoRange(s: seq<RegisterError>) {
    forall e :: e in s ==> !e.OutOfRange?
  }

  /** Pushing a non-range error keeps NoRange. */
  lemma NoRangePush(s: seq<RegisterError>, fails: bool, e: RegisterError)
    requires NoRange(s) && !e.OutOfRange?
    ensures NoRange(s + When(fails, e))
  {
  }

  /** The errors the field and duplicate checks push, in push order. */
  function Flagged(ch: Checks): seq<RegisterError> {
    When(ch.nameMissing, NameRequired) + When(ch.addressBad, AddressInvalid)
    + When(ch.typeMissing, TypeRequired) + When(ch.dataTypeMissing, DataTypeRequired)
    + When(ch.scaleBad, ScaleInvalid) + When(ch.unitMissing, UnitRequired)
    + When(ch.nameTaken, NameTaken) + When(ch.addressTaken, AddressTaken)
  }

  /** The field and duplicate checks never push a range error. */
  lemma FlaggedHasNoRange(ch: Checks)
    ensures NoRange(Flagged(ch))
  {
    var r1 := When(ch.nameMissing, NameRequired) + When(ch.addressBad, AddressInvalid);
    NoRangePush(When(ch.nameMissing, NameRequired), ch.addressBad, AddressInvalid);
    var r2 := r1 + When(ch.typeMissing, TypeRequired);
    NoRangePush(r1, ch.typeMissing, TypeRequired);
    var r3 := r2 + When(ch.dataTypeMissing, DataTypeRequired);
    NoRangePush(r2, ch.dataTypeMissing, DataTypeRequired);
    var r4 := r3 + When(ch.scaleBad, ScaleInvalid);
    NoRangePush(r3, ch.scaleBad, ScaleInvalid);
    var r5 := r4 + When(ch.unitMissing, UnitRequired);
    NoRangePush(r4, ch.unitMissing, UnitRequired);
    var r6 := r5 + When(ch.nameTaken, NameTaken);
    NoRangePush(r5, ch.nameTaken, NameTaken);
    NoRangePush(r6, ch.addressTaken, AddressTaken);
  }

  /** The errors pushed for the given check outcomes, in push order. */
  function Listed(ch: Checks): seq<RegisterError> {
    Flagged(ch) + (if ch.range.Some? then [ch.range.value] else [])
  }

  /** An error is in a one-check push exactly when that check fails and it is that check's error. */
  lemma InWhen(fails: bool, e: RegisterError, x: RegisterError)
    ensures x in When(fails, e) <==> fails && x == e
  {
  }

  /** What Listed holds: the error of each failing check, and nothing else. */
  lemma ListedMember(ch: Checks, x: RegisterError)
    ensures x in Listed(ch) <==>
      (x == NameRequired && ch.nameMissing) || (x == AddressInvalid && ch.addressBad)
      || (x == TypeRequired && ch.typeMissing) || (x == DataTypeRequired && ch.dataTypeMissing)
      || (x == ScaleInvalid && ch.scaleBad) || (x == UnitRequired && ch.unitMissing)
      || (x == NameTaken && ch.nameTaken) || (x == AddressTaken && ch.addressTaken)
      || ch.range == Some(x)
  {
    InWhen(ch.nameMissing, NameRequired, x);
    InWhen(ch.addressBad, AddressInvalid, x);
    InWhen(ch.typeMissing, TypeRequired, x);
    InWhen(ch.dataTypeMissing, DataTypeRequired, x);
    InWhen(ch.scaleBad, ScaleInvalid, x);
    InWhen(ch.unitMissing, UnitRequired, x);
    InWhen(ch.nameTaken, NameTaken, x);
    InWhen(ch.addressTaken, AddressTaken, x);
  }

  /** The name, address, type and dataType checks each push their error exactly when they fail. */
  lemma ListedFieldFlags(ch: Checks)
    requires ch.range.Some? ==> ch.range.value.OutOfRange?
    ensures NameRequired in Listed(ch) <==> ch.nameMissing
    ensures AddressInvalid in Listed(ch) <==> ch.addressBad
    ensures TypeRequired in Listed(ch) <==> ch.typeMissing
    ensures DataTypeRequired in Listed(ch) <==> ch.dataTypeMissing
  {
    ListedMember(ch, NameRequired);
    ListedMember(ch, AddressInvalid);
    ListedMember(ch, TypeRequired);
    ListedMember(ch, DataTypeRequired);
  }

  /** The scale, unit and duplicate checks each push their error exactly when they fail. */
  lemma ListedOtherFlags(ch: Checks)
    requires ch.range.Some? ==> ch.range.value.OutOfRange?
    ensures ScaleInvalid in Listed(ch) <==> ch.scaleBad
    ensures UnitRequired in Listed(ch) <==> ch.unitMissing
    ensures NameTaken in Listed(ch) <==> ch.nameTaken
    ensures AddressTaken in Listed(ch) <==> ch.addressTaken
  {
    ListedMember(ch, ScaleInvalid);
    ListedMember(ch, UnitRequired);
    ListedMember(ch, NameTaken);
    ListedMember(ch, AddressTaken);
  }

  /** The range check pushes an OutOfRange error exactly when it fails. */
  lemma ListedRange(ch: Checks)
    requires ch.range.Some? ==> ch.range.value.OutOfRange?
    ensures (exists e :: e in Listed(ch) && e.OutOfRange?) <==> ch.range.Some?
  {
    if ch.range.Some? {
      assert ch.range.value in Listed(ch);
    }
  }

  /** No error is pushed exactly when no check fails. */
  lemma ListedEmpty(ch: Checks)
    ensures Listed(ch) == [] <==>
            !ch.nameMissing && !ch.addressBad && !ch.typeMissing && !ch.dataTypeMissing
            && !ch.scaleBad && !ch.unitMissing && !ch.nameTaken && !ch.addressTaken && ch.range.None?
  {
  }

  /**
   * The error list is empty exactly for a valid register, and a valid register never makes
   * validation throw.
   */
  lemma EmptyIffValid(c: Coercion, data: Object, current: Val, registers: Val, device: Val)
    ensures Valid(c, data, current, registers, device) ==> Run(c, data, current, registers, device).Some?
    ensures var r := Run(c, data, current, registers, device);
            r.Some? ==> (Listed(r.value) == [] <==> Valid(c, data, current, registers, device))
  {
    var r := Run(c, data, current, registers, device);
    if r.Some? {
      assert Completes(c, data, current, registers);
      RunOutcome(c, data, current, registers, device);
      ListedEmpty(r.value);
    }
  }

  /** The push sequence of validateRegisterData, starting from the empty array, gives Listed. */
  lemma ListedPushes(ch: Checks)
    ensures Listed(ch) == [] + When(ch.nameMissing, NameRequired) + When(ch.addressBad, AddressInvalid)
      + When(ch.typeMissing, TypeRequired) + When(ch.dataTypeMissing, DataTypeRequired)
      + When(ch.scaleBad, ScaleInvalid) + When(ch.unitMissing, UnitRequired)
      + When(ch.nameTaken, NameTaken) + When(ch.addressTaken, AddressTaken)
      + (if ch.range.Some? then [ch.range.value] else [])
  {
    assert [] + When(ch.nameMissing, NameRequired) == When(ch.nameMissing, NameRequired);
  }

  /** Run succeeds with the outcomes of the individual checks when none of them throws. */
  lemma RunOutcome(c: Coercion, data: Object, current: Val, registers: Val, device: Val)
    requires Completes(c, data, current, registers)
    ensures Run(c, data, current, registers, device) == Some(Checks(
      MissingOrBlank(Get(data, "name")).value, BadAddress(c, Get(data, "address")),
      MissingOrBlank(Get(data, "type")).value, MissingOrBlank(Get(data, "dataType")).value,
      BadScale(c, Get(data, "scale")), MissingOrBlank(Get(data, "unit")).value,
      Duplicates(c, data, current, registers).value.0, Duplicates(c, data, current, registers).value.1,
      RangeError(c, Get(data, "address"), device)))
  {
  }

  /**
   * The first six checks of validateRegisterData (name, address, type, dataType, scale, unit),
   * pushed in order onto the empty array; None when trimming a non-string throws.
   */
  method PushFieldChecks(c: Coercion, data: Object) returns (r: Option<seq<RegisterError>>)
    ensures r.None? <==>
      MissingOrBlank(Get(data, "name")).None? || MissingOrBlank(Get(data, "type")).None?
      || MissingOrBlank(Get(data, "dataType")).None? || MissingOrBlank(Get(data, "unit")).None?
    ensures r.Some? ==>
      r.value == [] + When(MissingOrBlank(Get(data, "name")).value, NameRequired)
        + When(BadAddress(c, Get(data, "address")), AddressInvalid)
        + When(MissingOrBlank(Get(data, "type")).value, TypeRequired)
        + When(MissingOrBlank(Get(data, "dataType")).value, DataTypeRequired)
        + When(BadScale(c, Get(data, "scale")), ScaleInvalid)
        + When(MissingOrBlank(Get(data, "unit")).value, UnitRequired)
  {
    var errors: seq<RegisterError> := [];
    var name := MissingOrBlank(Get(data, "name"));
    if name.None? {
      return None;
    }
    errors := errors + When(name.value, NameRequired);
    errors := errors + When(BadAddress(c, Get(data, "address")), AddressInvalid);
    var kind := MissingOrBlank(Get(data, "type"));
    if kind.None? {
      return None;
    }
    errors := errors + When(kind.value, TypeRequired);
    var dataType := MissingOrBlank(Get(data, "dataType"));
    if dataType.None? {
      return None;
    }
    errors := errors + When(dataType.value, DataTypeRequired);
    errors := errors + When(BadScale(c, Get(data, "scale")), ScaleInvalid);
    var unit := MissingOrBlank(Get(data, "unit"));
    if unit.None? {
      return None;
    }
    errors := errors + When(unit.value, UnitRequired);
    r := Some(errors);
  }

  /**
   * The last three checks of validateRegisterData (duplicate name, duplicate address, device
   * range), pushed after the six field pushes; with them the whole list is `Listed`.
   */
  method PushDuplicatesAndRange(c: Coercion, data: Object, current: Val, registers: Val, device: Val,
                                fields: seq<RegisterError>) returns (errors: seq<RegisterError>)
    requires Completes(c, data, current, registers)
    requires fields == [] + When(MissingOrBlank(Get(data, "name")).value, NameRequired)
        + When(BadAddress(c, Get(data, "address")), AddressInvalid)
        + When(MissingOrBlank(Get(data, "type")).value, TypeRequired)
        + When(MissingOrBlank(Get(data, "dataType")).value, DataTypeRequired)
        + When(BadScale(c, Get(data, "scale")), ScaleInvalid)
        + When(MissingOrBlank(Get(data, "unit")).value, UnitRequired)
    ensures Run(c, data, current, registers, device).Some?
    ensures errors == Listed(Run(c, data, current, registers, device).value)
  {
    var dup := Duplicates(c, data, current, registers).value;
    errors := fields + When(dup.0, NameTaken);
    errors := errors + When(dup.1, AddressTaken);
    var range := RangeError(c, Get(data, "address"), device);
    errors := errors + (if range.Some? then [range.value] else []);
    RunPushOrder(c, data, current, registers, device, fields);
  }

  /** The pushes of validateRegisterData, in their order, are the errors Listed for Run. */
  lemma RunPushOrder(c: Coercion, data: Object, current: Val, registers: Val, device: Val,
                     fields: seq<RegisterError>)
    requires Completes(c, data, current, registers)
    requires fields == [] + When(MissingOrBlank(Get(data, "name")).value, NameRequired)
        + When(BadAddress(c, Get(data, "address")), AddressInvalid)
        + When(MissingOrBlank(Get(data, "type")).value, TypeRequired)
        + When(MissingOrBlank(Get(data, "dataType")).value, DataTypeRequired)
        + When(BadScale(c, Get(data, "scale")), ScaleInvalid)
        + When(MissingOrBlank(Get(data, "unit")).value, UnitRequired)
    ensures Run(c, data, current, registers, device).Some?
    ensures var dup := Duplicates(c, data, current, registers).value;
            var range := RangeError(c, Get(data, "address"), device);
            fields + When(dup.0, NameTaken) + When(dup.1, AddressTaken) + (if range.Some? then [range.value] else [])
            == Listed(Run(c, data, current, registers, device).value)
  {
    RunOutcome(c, data, current, registers, device);
    PushOrder(Run(c, data, current, registers, device).value, fields);
  }

  /** The six field pushes followed by the duplicate and range pushes give Listed. */
  lemma PushOrder(ch: Checks, fields: seq<RegisterError>)
    requires fields == [] + When(ch.nameMissing, NameRequired) + When(ch.addressBad, AddressInvalid)
      + When(ch.typeMissing, TypeRequired) + When(ch.dataTypeMissing, DataTypeRequired)
      + When(ch.scaleBad, ScaleInvalid) + When(ch.unitMissing, UnitRequired)
    ensures fields + When(ch.nameTaken, NameTaken) + When(ch.addressTaken, AddressTaken)
      + (if ch.range.Some? then [ch.range.value] else []) == Listed(ch)
  {
    ListedPushes(ch);
  }

  /** validateRegisterData(registerData, currentEditRegister, registers, device). */
  method ValidateRegisterData(c: Coercion, data: Object, current: Val, registers: Val, device: Val)
    returns (r: Option<seq<RegisterError>>)
    ensures var ch := Run(c, data, current, registers, device);
            r == if ch.Some? then Some(Listed(ch.value)) else None
  {
    var fields := PushFieldChecks(c, data);
    if fields.None? {
      return None;
    }
    if Duplicates(c, data, current, registers).None? {
      return None;
    }
    var errors := PushDuplicatesAndRange(c, data, current, registers, device, fields.value);
    r := Some(errors);
  }

  /** A register may keep its own name and address while it is being edited. */
  lemma EditedRegisterIsNoClash(c: Coercion, register: Val, data: Object)
    requires register.Obj? && OptProp(register, "name").Str? && Get(data, "name").Str?
    requires OptProp(register, "id").Num?
    ensures NameClash(register, Get(data, "name"), register) == Some(false)
    ensures AddressClash(c, register, Get(data, "address"), register) == Some(false)
  {
  }
}

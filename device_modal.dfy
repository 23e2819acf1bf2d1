/**
 * The add/edit device dialog (WebServer/src/components/Devices/AddDeviceModal.jsx): the form
 * state, the field-by-field validation that records one error per field, the shaping of the
 * device record handed to `onSave`, and the guard against a second submit while one is running.
 * Every form value is a string, as the inputs deliver them.
 */
module DeviceModal {
  import opened Wrappers
  import opened Text
  import opened Js
  import DeviceValidation
  import opened Forms

  /** The inputs of the dialog, one per form field. */
  datatype Field =
    | Name | Type | Protocol | Ip | Port | SerialPort | BaudRate | Parity | DataBits | StopBits
    | ModbusId | StartAddress | Registers | Description

  /** `formData`. */
  datatype FormData = FormData(
    name: string, kind: string, protocol: string, ip: string, port: string,
    serialPort: string, baudRate: string, parity: string, dataBits: string, stopBits: string,
    modbusId: string, startAddress: string, registers: string, description: string)

  /** The form a new device starts from. */
  const DefaultForm := FormData("", "CT Meter", "TCP", "", "502", "", "9600", "None", "8", "1",
                                "", "0", "", "")

  function FieldValue(form: FormData, f: Field): string {
    match f
    case Name => form.name
    case Type => form.kind
    case Protocol => form.protocol
    case Ip => form.ip
    case Port => form.port
    case SerialPort => form.serialPort
    case BaudRate => form.baudRate
    case Parity => form.parity
    case DataBits => form.dataBits
    case StopBits => form.stopBits
    case ModbusId => form.modbusId
    case StartAddress => form.startAddress
    case Registers => form.registers
    case Description => form.description
  }

  /** `{...prev, [name]: value}`: the named field takes the value, every other keeps its own. */
  function WithField(form: FormData, f: Field, v: string): (r: FormData)
    ensures FieldValue(r, f) == v
    ensures forall g :: g != f ==> FieldValue(r, g) == FieldValue(form, g)
  {
    match f
    case Name => form.(name := v)
    case Type => form.(kind := v)
    case Protocol => form.(protocol := v)
    case Ip => form.(ip := v)
    case Port => form.(port := v)
    case SerialPort => form.(serialPort := v)
    case BaudRate => form.(baudRate := v)
    case Parity => form.(parity := v)
    case DataBits => form.(dataBits := v)
    case StopBits => form.(stopBits := v)
    case ModbusId => form.(modbusId := v)
    case StartAddress => form.(startAddress := v)
    case Registers => form.(registers := v)
    case Description => form.(description := v)
  }

  /** A field's value as a JavaScript string. */
  function Value(form: FormData, f: Field): Val {
    Str(FieldValue(form, f))
  }

  /** `!String(formData[f] || '').trim()`: the field trims to "" (see Text.BlankIffTrimsEmpty). */
  predicate Blank(form: FormData, f: Field) {
    Text.Blank(FieldValue(form, f))
  }

  predicate IsTcp(form: FormData) {
    form.protocol == "TCP"
  }

  predicate IsRtu(form: FormData) {
    form.protocol == "RTU"
  }

  /*
   * The range checks reuse the device page's predicates. Those also test `!v`, which adds
   * nothing here: a field that gets that far is a non-blank string, hence truthy.
   */

  function CommonRules(c: Coercion, form: FormData): seq<Assignment<Field, Issue>> {
    [Rule(Name, Blank(form, Name), false),
     Rule(Type, Blank(form, Type), false),
     Rule(Protocol, Blank(form, Protocol), false)]
  }

  function TcpRules(c: Coercion, form: FormData): seq<Assignment<Field, Issue>> {
    [Rule(Ip, Blank(form, Ip), !DeviceValidation.DottedQuad(form.ip)),
     Rule(Port, Blank(form, Port), DeviceValidation.OutOfBounds(c, Value(form, Port), 1.0, 65535.0))]
  }

  function RtuRules(c: Coercion, form: FormData): seq<Assignment<Field, Issue>> {
    [Rule(SerialPort, Blank(form, SerialPort), false),
     Rule(BaudRate, Blank(form, BaudRate), DeviceValidation.BadBaud(c, Value(form, BaudRate))),
     Rule(Parity, Blank(form, Parity), false),
     Rule(DataBits, Blank(form, DataBits), DeviceValidation.BadChoice(c, Value(form, DataBits), {7, 8})),
     Rule(StopBits, Blank(form, StopBits), DeviceValidation.BadChoice(c, Value(form, StopBits), {1, 2}))]
  }

  function ProtocolRules(c: Coercion, form: FormData): seq<Assignment<Field, Issue>> {
    if IsTcp(form) then TcpRules(c, form) else if IsRtu(form) then RtuRules(c, form) else []
  }

  /** The start address rule is `isNaN(s) || s < 0`: the number 0 passes. */
  function TrailingRules(c: Coercion, form: FormData): seq<Assignment<Field, Issue>> {
    [Rule(ModbusId, Blank(form, ModbusId), DeviceValidation.OutOfBounds(c, Value(form, ModbusId), 1.0, 247.0)),
     Rule(StartAddress, Blank(form, StartAddress),
          DeviceValidation.BadStart(DeviceValidation.Intended, c, Value(form, StartAddress))),
     Rule(Registers, Blank(form, Registers), DeviceValidation.BadCount(c, Value(form, Registers))),
     Rule(Description, Blank(form, Description), false)]
  }

  /** `newErrors` as `validateForm` fills it, field by field. */
  function FormErrors(c: Coercion, form: FormData): map<Field, Issue> {
    Recorded(CommonRules(c, form) + ProtocolRules(c, form) + TrailingRules(c, form))
  }

  /** A positive reading of what the dialog demands of a device. */
  predicate FormValid(c: Coercion, form: FormData) {
    !Blank(form, Name) && !Blank(form, Type) && !Blank(form, Protocol)
    && (IsTcp(form) ==>
          !Blank(form, Ip) && DeviceValidation.DottedQuad(form.ip)
          && !Blank(form, Port) && ToNumber(c, Value(form, Port)).Some?
          && 1.0 <= ToNumber(c, Value(form, Port)).value <= 65535.0)
    && (IsRtu(form) ==>
          !Blank(form, SerialPort) && !Blank(form, Parity)
          && !Blank(form, BaudRate) && ToNumber(c, Value(form, BaudRate)).Some?
          && ToNumber(c, Value(form, BaudRate)).value > 0.0
          && !Blank(form, DataBits) && ToNumber(c, Value(form, DataBits)).Some?
          && ParseInt(c, Value(form, DataBits)) in {Some(7), Some(8)}
          && !Blank(form, StopBits) && ToNumber(c, Value(form, StopBits)).Some?
          && ParseInt(c, Value(form, StopBits)) in {Some(1), Some(2)})
    && !Blank(form, ModbusId) && ToNumber(c, Value(form, ModbusId)).Some?
    && 1.0 <= ToNumber(c, Value(form, ModbusId)).value <= 247.0
    && !Blank(form, StartAddress) && ToNumber(c, Value(form, StartAddress)).Some?
    && ToNumber(c, Value(form, StartAddress)).value >= 0.0
    && !Blank(form, Registers) && ToNumber(c, Value(form, Registers)).Some?
    && ToNumber(c, Value(form, Registers)).value >= 1.0
    && !Blank(form, Description)
  }

  lemma CommonPass(c: Coercion, form: FormData)
    ensures Unassigned(CommonRules(c, form)) <==>
            !Blank(form, Name) && !Blank(form, Type) && !Blank(form, Protocol)
  {
    var r := CommonRules(c, form);
    if Unassigned(r) {
      assert r[0].value.None? && r[1].value.None? && r[2].value.None?;
    } else {
      var i :| 0 <= i < |r| && r[i].value.Some?;
      assert i in {0, 1, 2};
    }
  }

  lemma TcpPass(c: Coercion, form: FormData)
    ensures Unassigned(TcpRules(c, form)) <==>
            !Blank(form, Ip) && DeviceValidation.DottedQuad(form.ip)
            && !Blank(form, Port) && ToNumber(c, Value(form, Port)).Some?
            && 1.0 <= ToNumber(c, Value(form, Port)).value <= 65535.0
  {
    var r := TcpRules(c, form);
    if Unassigned(r) {
      assert r[0].value.None? && r[1].value.None?;
    } else {
      var i :| 0 <= i < |r| && r[i].value.Some?;
      assert i in {0, 1};
    }
  }

  lemma RtuPass(c: Coercion, form: FormData)
    ensures Unassigned(RtuRules(c, form)) <==>
            !Blank(form, SerialPort) && !Blank(form, Parity)
            && !Blank(form, BaudRate) && ToNumber(c, Value(form, BaudRate)).Some?
            && ToNumber(c, Value(form, BaudRate)).value > 0.0
            && !Blank(form, DataBits) && ToNumber(c, Value(form, DataBits)).Some?
            && ParseInt(c, Value(form, DataBits)) in {Some(7), Some(8)}
            && !Blank(form, StopBits) && ToNumber(c, Value(form, StopBits)).Some?
            && ParseInt(c, Value(form, StopBits)) in {Some(1), Some(2)}
  {
    var r := RtuRules(c, form);
    if Unassigned(r) {
      assert r[0].value.None? && r[1].value.None? && r[2].value.None?;
      assert r[3].value.None? && r[4].value.None?;
    } else {
      var i :| 0 <= i < |r| && r[i].value.Some?;
      assert i in {0, 1, 2, 3, 4};
    }
  }

  lemma TrailingPass(c: Coercion, form: FormData)
    ensures Unassigned(TrailingRules(c, form)) <==>
            !Blank(form, ModbusId) && ToNumber(c, Value(form, ModbusId)).Some?
            && 1.0 <= ToNumber(c, Value(form, ModbusId)).value <= 247.0
            && !Blank(form, StartAddress) && ToNumber(c, Value(form, StartAddress)).Some?
            && ToNumber(c, Value(form, StartAddress)).value >= 0.0
            && !Blank(form, Registers) && ToNumber(c, Value(form, Registers)).Some?
            && ToNumber(c, Value(form, Registers)).value >= 1.0
            && !Blank(form, Description)
  {
    var r := TrailingRules(c, form);
    assert Unassigned(r) <==> r[0].value.None? && r[1].value.None? && r[2].value.None? && r[3].value.None? by {
      if !Unassigned(r) {
        var i :| 0 <= i < |r| && r[i].value.Some?;
        assert i in {0, 1, 2, 3};
      }
    }
    assert r[0].value.None? <==>
      !Blank(form, ModbusId) && ToNumber(c, Value(form, ModbusId)).Some?
      && 1.0 <= ToNumber(c, Value(form, ModbusId)).value <= 247.0;
    assert r[1].value.None? <==>
      !Blank(form, StartAddress) && ToNumber(c, Value(form, StartAddress)).Some?
      && ToNumber(c, Value(form, StartAddress)).value >= 0.0;
    assert r[2].value.None? <==>
      !Blank(form, Registers) && ToNumber(c, Value(form, Registers)).Some?
      && ToNumber(c, Value(form, Registers)).value >= 1.0;
  }

  /** `validateForm` returns true exactly for a form meeting every demand of the dialog. */
  lemma FormAcceptIffValid(c: Coercion, form: FormData)
    ensures FormErrors(c, form) == map[] <==> FormValid(c, form)
  {
    var a, b, d := CommonRules(c, form), ProtocolRules(c, form), TrailingRules(c, form);
    RecordedEmpty(a + b + d);
    UnassignedParts(a, b, d);
    CommonPass(c, form);
    TcpPass(c, form);
    RtuPass(c, form);
    TrailingPass(c, form);
  }

  /** The fields each part of the validation can report. */
  lemma PartFields(c: Coercion, form: FormData, f: Field)
    ensures Assigns(CommonRules(c, form), f) ==> f in {Name, Type, Protocol}
    ensures Assigns(TcpRules(c, form), f) ==> f in {Ip, Port}
    ensures Assigns(RtuRules(c, form), f) ==> f in {SerialPort, BaudRate, Parity, DataBits, StopBits}
    ensures Assigns(TrailingRules(c, form), f) ==> f in {ModbusId, StartAddress, Registers, Description}
  {
    var a, t, r, d := CommonRules(c, form), TcpRules(c, form), RtuRules(c, form), TrailingRules(c, form);
    forall i | 0 <= i < |a| ensures a[i].key in {Name, Type, Protocol} {
      assert i in {0, 1, 2};
    }
    forall i | 0 <= i < |t| ensures t[i].key in {Ip, Port} {
      assert i in {0, 1};
    }
    forall i | 0 <= i < |r| ensures r[i].key in {SerialPort, BaudRate, Parity, DataBits, StopBits} {
      assert i in {0, 1, 2, 3, 4};
    }
    forall i | 0 <= i < |d| ensures d[i].key in {ModbusId, StartAddress, Registers, Description} {
      assert i in {0, 1, 2, 3};
    }
  }

  /** The connection fields of the other protocol are never reported. */
  lemma ProtocolFieldsOnlyForProtocol(c: Coercion, form: FormData, f: Field)
    requires f in FormErrors(c, form)
    ensures f in {Ip, Port} ==> IsTcp(form)
    ensures f in {SerialPort, BaudRate, Parity, DataBits, StopBits} ==> IsRtu(form)
  {
    AssignedInParts(CommonRules(c, form), ProtocolRules(c, form), TrailingRules(c, form), f);
    PartFields(c, form, f);
  }

  /** The dialog accepts the start address "0" it offers by default. */
  lemma ZeroStartPasses(c: Coercion, form: FormData)
    requires form.startAddress == "0" && c.number("0") == Some(0.0)
    ensures StartAddress !in FormErrors(c, form)
  {
    AssignedInParts(CommonRules(c, form), ProtocolRules(c, form), TrailingRules(c, form), StartAddress);
    PartFields(c, form, StartAddress);
    var d := TrailingRules(c, form);
    assert d[1].value.None?;
    forall i | 0 <= i < |d| && d[i].key == StartAddress
      ensures d[i].value.None?
    {
      assert i in {0, 1, 2, 3};
    }
  }

  // ---------------------------------------------------------------------------------------
  // The record sent to onSave

  /** `parseInt(formData[f])`, as a number value (NaN when it does not parse). */
  function Parsed(c: Coercion, form: FormData, f: Field): Val {
    IntVal(ParseInt(c, Value(form, f)))
  }

  /** `x || fallback`. */
  function Or(x: Val, fallback: Val): Val {
    if Truthy(x) then x else fallback
  }

  /** `deviceData`, field by field; `id` is present only when a device is edited. */
  datatype DeviceRecord = DeviceRecord(
    id: Option<Val>,
    name: string, kind: string, protocol: string, ip: string, serialPort: string, parity: string,
    description: string,
    port: Val, baudRate: Val, dataBits: Val, stopBits: Val,
    modbusId: Val, startAddress: Val, registers: Val,
    status: Val, lastRead: Val)

  /**
   * `deviceData`: the form's fields, the edited device's id, the numeric fields parsed, the
   * connection fields of the other protocol left undefined, and the status and last reading
   * kept from the edited device. A TCP device goes out without serial settings and an RTU
   * device without a port; an id is present exactly when a device is being edited.
   */
  function DeviceData(c: Coercion, form: FormData, editDevice: Val): (d: DeviceRecord)
    ensures IsTcp(form) ==>
      && d.port == Parsed(c, form, Port)
      && d.baudRate == Undefined && d.dataBits == Undefined && d.stopBits == Undefined
    ensures IsRtu(form) ==>
      && d.port == Undefined && d.baudRate == Parsed(c, form, BaudRate)
      && d.dataBits == Parsed(c, form, DataBits) && d.stopBits == Parsed(c, form, StopBits)
    ensures !IsTcp(form) && !IsRtu(form) ==>
      d.port == Undefined && d.baudRate == Undefined && d.dataBits == Undefined && d.stopBits == Undefined
    ensures d.modbusId == Parsed(c, form, ModbusId) && d.startAddress == Parsed(c, form, StartAddress)
            && d.registers == Parsed(c, form, Registers)
    ensures d.id.Some? <==> Truthy(editDevice)
    ensures Truthy(editDevice) ==> d.id.value == OptProp(editDevice, "id")
    ensures d.status == (if Truthy(OptProp(editDevice, "status")) then OptProp(editDevice, "status")
                         else Str("Disconnected"))
    ensures d.lastRead == (if Truthy(OptProp(editDevice, "lastRead")) then OptProp(editDevice, "lastRead")
                           else Str("Never"))
    ensures && d.name == form.name && d.kind == form.kind && d.protocol == form.protocol
            && d.ip == form.ip && d.serialPort == form.serialPort && d.parity == form.parity
            && d.description == form.description
  {
    var tcp := IsTcp(form);
    var rtu := IsRtu(form);
    DeviceRecord(
      if Truthy(editDevice) then Some(OptProp(editDevice, "id")) else None,
      form.name, form.kind, form.protocol, form.ip, form.serialPort, form.parity, form.description,
      if tcp then Parsed(c, form, Port) else Undefined,
      if rtu then Parsed(c, form, BaudRate) else Undefined,
      if rtu then Parsed(c, form, DataBits) else Undefined,
      if rtu then Parsed(c, form, StopBits) else Undefined,
      Parsed(c, form, ModbusId), Parsed(c, form, StartAddress), Parsed(c, form, Registers),
      Or(OptProp(editDevice, "status"), Str("Disconnected")),
      Or(OptProp(editDevice, "lastRead"), Str("Never")))
  }

  /** The keys every record carries; `id` joins them when a device is edited. */
  const RecordKeys: set<string> := {
    "name", "type", "protocol", "ip", "serialPort", "parity", "description",
    "port", "baudRate", "dataBits", "stopBits", "modbusId", "startAddress", "registers",
    "status", "lastRead"}

  /** The value the record puts under key `k`. */
  function FieldOf(r: DeviceRecord, k: string): Val {
    if k == "id" then r.id.GetOr(Undefined)
    else if k == "name" then Str(r.name)
    else if k == "type" then Str(r.kind)
    else if k == "protocol" then Str(r.protocol)
    else if k == "ip" then Str(r.ip)
    else if k == "serialPort" then Str(r.serialPort)
    else if k == "parity" then Str(r.parity)
    else if k == "description" then Str(r.description)
    else if k == "port" then r.port
    else if k == "baudRate" then r.baudRate
    else if k == "dataBits" then r.dataBits
    else if k == "stopBits" then r.stopBits
    else if k == "modbusId" then r.modbusId
    else if k == "startAddress" then r.startAddress
    else if k == "registers" then r.registers
    else if k == "status" then r.status
    else r.lastRead
  }

  /**
   * The record as the plain object `onSave` receives: the sixteen keys of every record, and
   * `id` exactly when the record has one, holding it. The lemmas below give every other key.
   */
  function ToObject(r: DeviceRecord): (o: Object)
    ensures o.Keys == RecordKeys + (if r.id.Some? then {"id"} else {})
    ensures "id" in o <==> r.id.Some?
    ensures r.id.Some? ==> o["id"] == r.id.value
  {
    IdNotRecordKey();
    map k | k in RecordKeys + (if r.id.Some? then {"id"} else {}) :: FieldOf(r, k)
  }

  /** `id` is not among the keys every record carries. */
  lemma IdNotRecordKey()
    ensures "id" !in RecordKeys
  {
    assert "id"[1] == 'd';
  }

  /** The text fields reach the object as strings. */
  lemma ToObjectText(r: DeviceRecord)
    ensures var o := ToObject(r);
      && o["name"] == Str(r.name) && o["type"] == Str(r.kind) && o["protocol"] == Str(r.protocol)
      && o["ip"] == Str(r.ip) && o["serialPort"] == Str(r.serialPort)
      && o["parity"] == Str(r.parity) && o["description"] == Str(r.description)
  {
  }

  /** The connection and addressing fields reach the object as they are. */
  lemma ToObjectSettings(r: DeviceRecord)
    ensures var o := ToObject(r);
      && o["port"] == r.port && o["baudRate"] == r.baudRate && o["dataBits"] == r.dataBits
      && o["stopBits"] == r.stopBits && o["modbusId"] == r.modbusId
      && o["startAddress"] == r.startAddress && o["registers"] == r.registers
  {
  }

  /** The status and the last reading reach the object as they are. */
  lemma ToObjectState(r: DeviceRecord)
    ensures var o := ToObject(r);
      o["status"] == r.status && o["lastRead"] == r.lastRead
  {
  }

  /**
   * The dialog's default start address reaches the device page as the number 0, which the
   * page's validator as written rejects and the intended one accepts.
   */
  lemma DefaultStartReachesPageAsZero(c: Coercion, form: FormData, editDevice: Val)
    requires form.startAddress == "0" && c.number("0") == Some(0.0) && c.parseInt("0") == Some(0)
    ensures StartAddress !in FormErrors(c, form)
    ensures Get(ToObject(DeviceData(c, form, editDevice)), "startAddress") == Num(0.0)
    ensures DeviceValidation.BadStart(DeviceValidation.AsWritten, c, Num(0.0))
    ensures !DeviceValidation.BadStart(DeviceValidation.Intended, c, Num(0.0))
  {
    ZeroStartPasses(c, form);
    ZeroStartRecord(c, form, editDevice);
  }

  /** A start address of "0" goes out in the record as the number 0. */
  lemma ZeroStartRecord(c: Coercion, form: FormData, editDevice: Val)
    requires form.startAddress == "0" && c.parseInt("0") == Some(0)
    ensures Get(ToObject(DeviceData(c, form, editDevice)), "startAddress") == Num(0.0)
  {
    var d := DeviceData(c, form, editDevice);
    assert Value(form, StartAddress) == Str("0");
    assert Parsed(c, form, StartAddress) == Num(0.0);
    ToObjectSettings(d);
    assert Get(ToObject(d), "startAddress") == d.startAddress;
  }

  // ---------------------------------------------------------------------------------------
  // The dialog's state

  class AddDeviceDialog {
    var form: FormData
    var errors: map<Field, Issue>
    var submitting: bool

    /** A dialog opened for a new device. */
    constructor()
      ensures form == DefaultForm && errors == map[] && !submitting
    {
      form := DefaultForm;
      errors := map[];
      submitting := false;
    }

    /** `handleInputChange`: the named field takes the value; its error, if any, is cleared. */
    method HandleInputChange(name: Field, value: string)
      modifies this
      ensures form == WithField(old(form), name, value)
      ensures errors == if name in old(errors) && old(errors)[name] != Cleared
                        then old(errors)[name := Cleared] else old(errors)
      ensures submitting == old(submitting)
    {
      form := WithField(form, name, value);
      if name in errors && errors[name] != Cleared {
        errors := errors[name := Cleared];
      }
    }

    /** `validateForm`: records the errors and reports whether there were none. */
    method ValidateForm(c: Coercion) returns (valid: bool)
      modifies this
      ensures errors == FormErrors(c, form)
      ensures valid <==> FormValid(c, form)
      ensures form == old(form) && submitting == old(submitting)
    {
      var found := FormErrors(c, form);
      FormAcceptIffValid(c, form);
      errors := found;
      valid := found == map[];
    }

    /**
     * `handleSubmit`. `saved` is what `onSave` resolves to, None when it rejects. `sent` is the
     * record passed to `onSave`, and `closed` whether the dialog asked to be closed.
     */
    method HandleSubmit(c: Coercion, editDevice: Val, saved: Option<Val>)
      returns (sent: Option<DeviceRecord>, closed: bool)
      modifies this
      ensures old(submitting) ==>
        sent.None? && !closed && form == old(form) && errors == old(errors) && submitting
      ensures !old(submitting) ==>
        !submitting
        && (sent.Some? <==> FormValid(c, old(form)))
        && (sent.Some? ==> sent.value == DeviceData(c, old(form), editDevice))
        && (closed <==> sent.Some? && saved.Some? && saved.value != Bool(false))
        && form == (if closed && !Truthy(editDevice) then DefaultForm else old(form))
        && errors == (if closed then map[] else FormErrors(c, old(form)))
    {
      if submitting {
        return None, false;
      }
      var valid := ValidateForm(c);
      if !valid {
        return None, false;
      }
      submitting := true;
      sent := Some(DeviceData(c, form, editDevice));
      closed := saved.Some? && saved.value != Bool(false);
      if closed {
        if !Truthy(editDevice) {
          form := DefaultForm;
        }
        errors := map[];
      }
      submitting := false;
    }
  }
}

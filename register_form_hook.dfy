/**
 * The register-form hook (WebServer/src/hooks/device/useModbusRegisterForm.js): the Modbus
 * defaults a device type suggests, the checks a register must pass for the device it belongs
 * to, and the record `onSubmit` sends to the device context.
 */
module RegisterFormHook {
  import opened Wrappers
  import opened Js

  /** The three numbers the form is seeded with. */
  datatype Defaults = Defaults(modbusId: int, startAddress: int, registers: int)

  /** `deviceTypeDefaults`. */
  const TypeDefaults: map<string, Defaults> := map[
    "inverter" := Defaults(1, 40001, 20),
    "battery" := Defaults(2, 30001, 15),
    "meter" := Defaults(3, 30000, 10),
    "sensor" := Defaults(4, 40000, 5),
    "other" := Defaults(1, 0, 10)]

  /** The row used for a device of unknown type. */
  const OtherDefaults := Defaults(1, 0, 10)

  /**
   * `getDeviceSpecificDefaults`: no device gives {1, 0, 10}; a device whose `deviceType` is
   * a key of the table gets that row; any other device gets the 'other' row.
   */
  function DeviceSpecificDefaults(device: Val): (r: Defaults)
    ensures !Truthy(device) ==> r == Defaults(1, 0, 10)
    ensures Truthy(device) && OptProp(device, "deviceType").Str?
            && OptProp(device, "deviceType").s in TypeDefaults ==>
              r == TypeDefaults[OptProp(device, "deviceType").s]
    ensures Truthy(device) && !(OptProp(device, "deviceType").Str?
            && OptProp(device, "deviceType").s in TypeDefaults) ==>
              r == TypeDefaults["other"]
  {
    if !Truthy(device) then Defaults(1, 0, 10)
    else
      var kind := OptProp(device, "deviceType");
      if kind.Str? && kind.s in TypeDefaults then TypeDefaults[kind.s] else OtherDefaults
  }

  /** Having no device and having a device of an unknown type suggest the same numbers. */
  lemma NoDeviceIsOther(device: Val)
    requires !OptProp(device, "deviceType").Str? || OptProp(device, "deviceType").s !in TypeDefaults
    ensures DeviceSpecificDefaults(device) == DeviceSpecificDefaults(Undefined)
  {
  }

  /** The messages `validateRegisterForDevice` can give. */
  datatype DeviceError = DeviceNotFound | StartAddressRange | ModbusIdRange | TooManyRegisters

  /** `{valid, errors}`. */
  datatype Verdict = Verdict(valid: bool, errors: seq<DeviceError>)

  predicate IsTcp(device: Val) {
    StrictEq(OptProp(device, "protocol"), Str("TCP"))
  }

  predicate IsRtu(device: Val) {
    StrictEq(OptProp(device, "protocol"), Str("RTU"))
  }

  predicate IsInverter(device: Val) {
    StrictEq(OptProp(device, "deviceType"), Str("inverter"))
  }

  /** `v < lo || v > hi`; a value that is not a number is in no range and outside none. */
  predicate Outside(c: Coercion, v: Val, lo: real, hi: real) {
    Below(c, v, lo) || Above(c, v, hi)
  }

  /** The checks of a present device, in order. */
  function DeviceChecks(c: Coercion, device: Val, data: Object): seq<Check<DeviceError>> {
    [Check(IsTcp(device) && Outside(c, Get(data, "startAddress"), 0.0, 65535.0), StartAddressRange),
     Check(!IsTcp(device) && IsRtu(device) && Outside(c, Get(data, "modbusId"), 1.0, 247.0), ModbusIdRange),
     Check(IsInverter(device) && Above(c, Get(data, "registers"), 50.0), TooManyRegisters)]
  }

  /** `validateRegisterForDevice(data)` for the hook's current device. */
  function ValidateRegisterForDevice(c: Coercion, device: Val, data: Object): (r: Verdict)
    ensures r.valid <==> r.errors == []
    ensures |r.errors| <= 3
  {
    if !Truthy(device) then Verdict(false, [DeviceNotFound])
    else
      var errors := Pushes(DeviceChecks(c, device, data));
      Verdict(errors == [], errors)
  }

  /** Without a device the register is refused with exactly one message. */
  lemma NoDeviceRefused(c: Coercion, device: Val, data: Object)
    requires !Truthy(device)
    ensures ValidateRegisterForDevice(c, device, data) == Verdict(false, [DeviceNotFound])
  {
  }

  /** The three checks of a present device push their messages in order. */
  lemma DeviceChecksPush(c: Coercion, device: Val, data: Object)
    ensures var ch := DeviceChecks(c, device, data);
      Pushes(ch) == When(ch[0].fails, ch[0].error) + When(ch[1].fails, ch[1].error) + When(ch[2].fails, ch[2].error)
  {
    var ch := DeviceChecks(c, device, data);
    var w0, w1, w2 := When(ch[0].fails, ch[0].error), When(ch[1].fails, ch[1].error), When(ch[2].fails, ch[2].error);
    assert ch[1..][1..][1..] == [];
    assert Pushes(ch[1..][1..]) == w2;
    assert Pushes(ch[1..]) == w1 + w2;
    assert Pushes(ch) == w0 + (w1 + w2);
  }

  /**
   * Each message appears exactly when its rule is broken: the start address range for a TCP
   * device, the slave id range for an RTU device, the register count for an inverter.
   */
  lemma DeviceRules(c: Coercion, device: Val, data: Object)
    requires Truthy(device)
    ensures var e := ValidateRegisterForDevice(c, device, data).errors;
      && DeviceNotFound !in e
      && (StartAddressRange in e <==> IsTcp(device) && Outside(c, Get(data, "startAddress"), 0.0, 65535.0))
      && (ModbusIdRange in e <==> IsRtu(device) && Outside(c, Get(data, "modbusId"), 1.0, 247.0))
      && (TooManyRegisters in e <==> IsInverter(device) && Above(c, Get(data, "registers"), 50.0))
  {
    DeviceChecksPush(c, device, data);
  }

  /** The register is accepted exactly when its device exists and no rule is broken. */
  lemma ValidIffRulesHold(c: Coercion, device: Val, data: Object)
    ensures ValidateRegisterForDevice(c, device, data).valid <==>
      Truthy(device)
      && !(IsTcp(device) && Outside(c, Get(data, "startAddress"), 0.0, 65535.0))
      && !(IsRtu(device) && Outside(c, Get(data, "modbusId"), 1.0, 247.0))
      && !(IsInverter(device) && Above(c, Get(data, "registers"), 50.0))
  {
    if Truthy(device) {
      DeviceChecksPush(c, device, data);
    }
  }

  /** The form values the defaults produce. */
  function DefaultData(d: Defaults): Object {
    map["modbusId" := Num(d.modbusId as real), "startAddress" := Num(d.startAddress as real),
        "registers" := Num(d.registers as real)]
  }

  /** The numbers suggested for a device always pass that device's checks. */
  lemma DefaultsPass(c: Coercion, device: Val)
    requires Truthy(device)
    ensures ValidateRegisterForDevice(c, device, DefaultData(DeviceSpecificDefaults(device))).valid
  {
    var d := DeviceSpecificDefaults(device);
    var data := DefaultData(d);
    assert d in TypeDefaults.Values;
    assert 0 <= d.startAddress <= 65535 && 1 <= d.modbusId <= 247;
    assert IsInverter(device) ==> d == TypeDefaults["inverter"];
    assert ToNumber(c, Get(data, "startAddress")) == Some(d.startAddress as real);
    assert ToNumber(c, Get(data, "modbusId")) == Some(d.modbusId as real);
    assert ToNumber(c, Get(data, "registers")) == Some(d.registers as real);
    ValidIffRulesHold(c, device, data);
  }

  datatype Action = Add | Edit

  /**
   * The properties `onSubmit` sets after spreading the form data: the device's name, type and
   * protocol, how to reach it, and the two timestamps. The clock is read once for each:
   * `createdNow` is used only when the edited register has no creation time, `updatedNow`
   * always. `text` is the string conversion of a template literal.
   */
  function Metadata(editRegister: Val, deviceId: Val, device: Val, createdNow: string, updatedNow: string,
                    text: Val -> string): (m: Object)
    ensures m.Keys == MetadataKeys
    ensures m["deviceId"] == deviceId && m["updatedAt"] == Str(updatedNow)
    ensures m["createdAt"] ==
      if Truthy(OptProp(editRegister, "createdAt")) then OptProp(editRegister, "createdAt") else Str(createdNow)
    ensures m["deviceName"] == OptProp(device, "deviceName") && m["deviceType"] == OptProp(device, "deviceType")
      && m["protocol"] == OptProp(device, "protocol")
    ensures IsTcp(device) ==>
      m["connectionInfo"] == Str(text(OptProp(device, "ipAddress")) + ":" + text(OptProp(device, "port")))
    ensures !IsTcp(device) && Truthy(OptProp(device, "serialPort")) ==> m["connectionInfo"] == OptProp(device, "serialPort")
    ensures !IsTcp(device) && !Truthy(OptProp(device, "serialPort")) ==> m["connectionInfo"] == Str("Unknown")
    ensures Truthy(m["connectionInfo"])
  {
    var created := OptProp(editRegister, "createdAt");
    var info :=
      if IsTcp(device) then Str(text(OptProp(device, "ipAddress")) + ":" + text(OptProp(device, "port")))
      else if Truthy(OptProp(device, "serialPort")) then OptProp(device, "serialPort")
      else Str("Unknown");
    map["deviceName" := OptProp(device, "deviceName"), "deviceType" := OptProp(device, "deviceType"),
        "protocol" := OptProp(device, "protocol"), "connectionInfo" := info,
        "updatedAt" := Str(updatedNow), "deviceId" := deviceId,
        "createdAt" := if Truthy(created) then created else Str(createdNow)]
  }

  /**
   * `registerData` as `onSubmit` builds it: the id first (`freshId` stands for `uuidv4()`),
   * then the form data, then the metadata; a later property wins.
   */
  function RegisterData(editRegister: Val, freshId: Val, data: Object, deviceId: Val,
                        device: Val, createdNow: string, updatedNow: string, text: Val -> string): (r: Object)
    ensures Get(r, "id") ==
      if "id" in data then data["id"]
      else if Truthy(OptProp(editRegister, "id")) then OptProp(editRegister, "id") else freshId
    ensures Get(r, "createdAt") ==
      if Truthy(OptProp(editRegister, "createdAt")) then OptProp(editRegister, "createdAt") else Str(createdNow)
    ensures Get(r, "updatedAt") == Str(updatedNow) && Get(r, "deviceId") == deviceId
    ensures forall k :: k in data && k !in MetadataKeys ==> k in r && r[k] == data[k]
    ensures r.Keys == data.Keys + MetadataKeys + {"id"}
    ensures forall k :: k in MetadataKeys ==> r[k] == Metadata(editRegister, deviceId, device, createdNow, updatedNow, text)[k]
  {
    var id := OptProp(editRegister, "id");
    var metadata := Metadata(editRegister, deviceId, device, createdNow, updatedNow, text);
    assert "id" !in MetadataKeys;
    Spread(Spread(map["id" := if Truthy(id) then id else freshId], data), metadata)
  }

  /** The properties `onSubmit` sets after spreading the form data. */
  const MetadataKeys: set<string> :=
    {"deviceName", "deviceType", "protocol", "connectionInfo", "createdAt", "updatedAt", "deviceId"}

  /** What `onSubmit` does: the record and action it sends, and whether it closes and resets. */
  datatype Submission = Submission(record: Object, action: Action, closes: bool)

  /** `onSubmit`; `result` is what `updateDeviceModbusRegisters` resolves to. */
  function OnSubmit(editRegister: Val, freshId: Val, data: Object, deviceId: Val, device: Val,
                    createdNow: string, updatedNow: string, text: Val -> string, result: Val): (r: Submission)
    ensures r.action == Edit <==> Truthy(editRegister)
    ensures r.closes <==> Truthy(result) && !StrictEq(OptProp(result, "success"), Bool(false))
  {
    Submission(RegisterData(editRegister, freshId, data, deviceId, device, createdNow, updatedNow, text),
               if Truthy(editRegister) then Edit else Add,
               Truthy(result) && OptProp(result, "success") != Bool(false))
  }

  /**
   * Editing keeps the register's identity and creation time: when the form data carries no
   * id, an edited register with an id and a creation time is sent with both unchanged, as an
   * edit.
   */
  lemma EditKeepsIdentity(editRegister: Val, freshId: Val, data: Object, deviceId: Val,
                          device: Val, createdNow: string, updatedNow: string, text: Val -> string, result: Val)
    requires "id" !in data
    requires Truthy(OptProp(editRegister, "id")) && Truthy(OptProp(editRegister, "createdAt"))
    ensures var s := OnSubmit(editRegister, freshId, data, deviceId, device, createdNow, updatedNow, text, result);
      && s.action == Edit
      && Get(s.record, "id") == OptProp(editRegister, "id")
      && Get(s.record, "createdAt") == OptProp(editRegister, "createdAt")
  {
  }

  /** A new register gets the fresh id and the first clock reading as its creation time, as an addition. */
  lemma AddStampsFresh(freshId: Val, data: Object, deviceId: Val, device: Val, createdNow: string, updatedNow: string,
                       text: Val -> string, result: Val)
    requires "id" !in data
    ensures var s := OnSubmit(Null, freshId, data, deviceId, device, createdNow, updatedNow, text, result);
      && s.action == Add
      && Get(s.record, "id") == freshId
      && Get(s.record, "createdAt") == Str(createdNow)
  {
  }
}

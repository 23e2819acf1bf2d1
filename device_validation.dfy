/**
 * validateDeviceData and the validation gate of handleSaveDevice on the device page: every
 * field a device needs, the modbus id range 1..247, the uniqueness of name, modbus id, TCP
 * endpoint and serial port among the stored devices, and the protocol-specific fields.
 * None stands for the TypeError some inputs raise (a truthy non-string where a string is
 * trimmed, a stored device that is null, or a name that cannot be lower-cased).
 */
module DeviceValidation {
  import opened Wrappers
  import opened Text
  import opened Js
  import RegisterValidation
  import EmsData

  /** The messages validateDeviceData pushes, one constructor per message. */
  datatype DeviceError =
    | NameRequired
    | TypeRequired
    | ProtocolRequired
    | ModbusIdInvalid
    | StartAddressInvalid
    | RegistersInvalid
    | DescriptionRequired
    | NameTaken
    | ModbusIdTaken
    | IpRequired
    | IpInvalid
    | PortInvalid
    | EndpointTaken
    | SerialPortRequired
    | BaudRateInvalid
    | ParityRequired
    | DataBitsInvalid
    | StopBitsInvalid
    | SerialPortTaken

  /** `!v || isNaN(v) || v < lo || v > hi`. */
  predicate OutOfBounds(c: Coercion, v: Val, lo: real, hi: real) {
    !Truthy(v) || IsNaN(c, v) || Below(c, v, lo) || Above(c, v, hi)
  }

  /**
   * The start address check. As written it is `!s || isNaN(s) || s < 0`, which also rejects
   * the number 0 that the device form sends by default; the intended check rejects only a
   * missing or empty value, a non-number and a negative number.
   */
  datatype StartRule = AsWritten | Intended

  predicate BadStart(rule: StartRule, c: Coercion, s: Val) {
    match rule
    case AsWritten => !Truthy(s) || IsNaN(c, s) || Below(c, s, 0.0)
    case Intended => Nullish(s) || s == Str("") || IsNaN(c, s) || Below(c, s, 0.0)
  }

  /** `!r || isNaN(r) || r < 1`. */
  predicate BadCount(c: Coercion, r: Val) {
    !Truthy(r) || IsNaN(c, r) || Below(c, r, 1.0)
  }

  /** `!b || isNaN(b) || b <= 0`. */
  predicate BadBaud(c: Coercion, b: Val) {
    !Truthy(b) || IsNaN(c, b) || (ToNumber(c, b).Some? && ToNumber(c, b).value <= 0.0)
  }

  /** `!d || isNaN(d) || ![...allowed].includes(parseInt(d))`. */
  predicate BadChoice(c: Coercion, d: Val, allowed: set<int>) {
    !Truthy(d) || IsNaN(c, d) || !(ParseInt(c, d).Some? && ParseInt(c, d).value in allowed)
  }

  predicate IsDigit(ch: char) {
    '0' <= ch <= '9'
  }

  /** The pattern `^(\d{1,3}\.){3}\d{1,3}$`: four groups of one to three digits joined by dots. */
  predicate DottedQuad(s: string) {
    Quad(s, 0, 0)
  }

  /** The pattern's scan of `s`, with `dots` groups closed and `digits` digits into the current one. */
  predicate Quad(s: string, dots: nat, digits: nat)
    decreases |s|
  {
    if s == [] then dots == 3 && digits >= 1
    else if IsDigit(s[0]) then digits < 3 && Quad(s[1..], dots, digits + 1)
    else if s[0] == '.' then dots < 3 && digits >= 1 && Quad(s[1..], dots + 1, 0)
    else false
  }

  /** What is left to scan is as long as the groups still to come need, and no longer. */
  lemma {:induction false} QuadLength(s: string, dots: nat, digits: nat)
    requires Quad(s, dots, digits) && dots <= 3 && digits <= 3
    ensures |s| >= 2 * (3 - dots) + (if digits == 0 then 1 else 0)
    ensures |s| <= 4 * (3 - dots) + (3 - digits)
    decreases |s|
  {
    if s != [] {
      if IsDigit(s[0]) {
        QuadLength(s[1..], dots, digits + 1);
      } else {
        QuadLength(s[1..], dots + 1, 0);
      }
    }
  }

  /** A dotted quad is between 7 ("0.0.0.0") and 15 ("255.255.255.255") characters long. */
  lemma DottedQuadLength(s: string)
    requires DottedQuad(s)
    ensures 7 <= |s| <= 15
  {
    QuadLength(s, 0, 0);
  }

  /** The modbusIdExists callback: `device.modbusId === parseInt(modbusId) && IsOther`. */
  function IdClash(c: Coercion, device: Val, modbusId: Val, current: Val): Option<bool> {
    if Nullish(device) then None
    else Some(StrictEq(OptProp(device, "modbusId"), IntVal(ParseInt(c, modbusId)))
              && RegisterValidation.IsOther(device, current))
  }

  /** The tcpExists callback: same protocol 'TCP', same ip, same parsed port, and not the edited device. */
  function EndpointClash(c: Coercion, device: Val, ip: Val, port: Val, current: Val): Option<bool> {
    if Nullish(device) then None
    else Some(StrictEq(OptProp(device, "protocol"), Str("TCP")) && StrictEq(OptProp(device, "ip"), ip)
              && StrictEq(OptProp(device, "port"), IntVal(ParseInt(c, port)))
              && RegisterValidation.IsOther(device, current))
  }

  /** The rtuExists callback: same protocol 'RTU', same serial port, and not the edited device. */
  function SerialClash(device: Val, serialPort: Val, current: Val): Option<bool> {
    if Nullish(device) then None
    else Some(StrictEq(OptProp(device, "protocol"), Str("RTU")) && StrictEq(OptProp(device, "serialPort"), serialPort)
              && RegisterValidation.IsOther(device, current))
  }

  /** The callbacks as function values, one per scan. */
  function NameTest(name: Val, current: Val): Val -> Option<bool> {
    v => RegisterValidation.NameClash(v, name, current)
  }

  function IdTest(c: Coercion, modbusId: Val, current: Val): Val -> Option<bool> {
    v => IdClash(c, v, modbusId, current)
  }

  function EndpointTest(c: Coercion, ip: Val, port: Val, current: Val): Val -> Option<bool> {
    v => EndpointClash(c, v, ip, port, current)
  }

  function SerialTest(serialPort: Val, current: Val): Val -> Option<bool> {
    v => SerialClash(v, serialPort, current)
  }

  predicate Filled(v: Val) {
    v.Str? && Trim(v.s) != ""
  }

  /** The checks every device goes through, in push order: required fields and numeric ranges. */
  function FieldChecks(rule: StartRule, c: Coercion, data: Object): seq<Check<DeviceError>> {
    [Check(BlankInput(Get(data, "name")), NameRequired),
     Check(BlankInput(Get(data, "type")), TypeRequired),
     Check(BlankInput(Get(data, "protocol")), ProtocolRequired),
     Check(OutOfBounds(c, Get(data, "modbusId"), 1.0, 247.0), ModbusIdInvalid),
     Check(BadStart(rule, c, Get(data, "startAddress")), StartAddressInvalid),
     Check(BadCount(c, Get(data, "registers")), RegistersInvalid),
     Check(BlankInput(Get(data, "description")), DescriptionRequired)]
  }

  /** The field checks; trimming a truthy non-string name, type, protocol or description throws. */
  function FieldErrors(rule: StartRule, c: Coercion, data: Object): Option<seq<DeviceError>> {
    if MissingOrBlank(Get(data, "name")).None? || MissingOrBlank(Get(data, "type")).None?
       || MissingOrBlank(Get(data, "protocol")).None? || MissingOrBlank(Get(data, "description")).None?
    then None
    else Some(Pushes(FieldChecks(rule, c, data)))
  }

  /** The two scans over the stored devices: a clashing name (ignoring case) or modbus id. */
  function ClashErrors(c: Coercion, data: Object, current: Val, devices: seq<Val>): Option<seq<DeviceError>> {
    var nameExists :- SomeOf(devices, NameTest(Get(data, "name"), current));
    var idExists :- SomeOf(devices, IdTest(c, Get(data, "modbusId"), current));
    Some(Pushes([Check(nameExists, NameTaken), Check(idExists, ModbusIdTaken)]))
  }

  /** The checks of a TCP device: an ip in dotted form, a port in 1..65535, a free endpoint. */
  function TcpChecks(c: Coercion, data: Object, taken: bool): seq<Check<DeviceError>> {
    var ip := Get(data, "ip");
    [Check(BlankInput(ip), IpRequired),
     Check(Filled(ip) && !DottedQuad(ip.s), IpInvalid),
     Check(OutOfBounds(c, Get(data, "port"), 1.0, 65535.0), PortInvalid),
     Check(taken, EndpointTaken)]
  }

  function TcpErrors(c: Coercion, data: Object, current: Val, devices: seq<Val>): Option<seq<DeviceError>> {
    if MissingOrBlank(Get(data, "ip")).None? then None
    else
      var tcpExists :- SomeOf(devices, EndpointTest(c, Get(data, "ip"), Get(data, "port"), current));
      Some(Pushes(TcpChecks(c, data, tcpExists)))
  }

  /** The checks of an RTU device: serial port, baud rate, parity, data and stop bits, a free port. */
  function RtuChecks(c: Coercion, data: Object, taken: bool): seq<Check<DeviceError>> {
    [Check(BlankInput(Get(data, "serialPort")), SerialPortRequired),
     Check(BadBaud(c, Get(data, "baudRate")), BaudRateInvalid),
     Check(BlankInput(Get(data, "parity")), ParityRequired),
     Check(BadChoice(c, Get(data, "dataBits"), {7, 8}), DataBitsInvalid),
     Check(BadChoice(c, Get(data, "stopBits"), {1, 2}), StopBitsInvalid),
     Check(taken, SerialPortTaken)]
  }

  function RtuErrors(c: Coercion, data: Object, current: Val, devices: seq<Val>): Option<seq<DeviceError>> {
    if MissingOrBlank(Get(data, "serialPort")).None? || MissingOrBlank(Get(data, "parity")).None? then None
    else
      var rtuExists :- SomeOf(devices, SerialTest(Get(data, "serialPort"), current));
      Some(Pushes(RtuChecks(c, data, rtuExists)))
  }

  /** The protocol-specific checks: TCP, RTU, or none for any other protocol. */
  function ProtocolErrors(c: Coercion, data: Object, current: Val, devices: seq<Val>): Option<seq<DeviceError>> {
    if StrictEq(Get(data, "protocol"), Str("TCP")) then TcpErrors(c, data, current, devices)
    else if StrictEq(Get(data, "protocol"), Str("RTU")) then RtuErrors(c, data, current, devices)
    else Some([])
  }

  /** validateDeviceData(deviceData, currentEditDevice) against the stored devices, under a start rule. */
  function ValidateWith(rule: StartRule, c: Coercion, data: Object, current: Val, devices: seq<Val>)
    : Option<seq<DeviceError>>
  {
    var fields :- FieldErrors(rule, c, data);
    var clashes :- ClashErrors(c, data, current, devices);
    var protocol :- ProtocolErrors(c, data, current, devices);
    Some(fields + clashes + protocol)
  }

  /** validateDeviceData as the device page writes it. */
  function ValidateDeviceDataAsWritten(c: Coercion, data: Object, current: Val, devices: seq<Val>)
    : (r: Option<seq<DeviceError>>)
    ensures r == Some([]) <==> Valid(AsWritten, c, data, current, devices)
  {
    AcceptIffValid(AsWritten, c, data, current, devices);
    ValidateWith(AsWritten, c, data, current, devices)
  }

  /** validateDeviceData with the start address check it evidently means. */
  function ValidateDeviceData(c: Coercion, data: Object, current: Val, devices: seq<Val>)
    : (r: Option<seq<DeviceError>>)
    ensures r == Some([]) <==> Valid(Intended, c, data, current, devices)
  {
    AcceptIffValid(Intended, c, data, current, devices);
    ValidateWith(Intended, c, data, current, devices)
  }

  /** What the field checks demand, stated positively. */
  predicate FieldsValid(rule: StartRule, c: Coercion, data: Object) {
    Filled(Get(data, "name")) && Filled(Get(data, "type")) && Filled(Get(data, "protocol"))
    && Filled(Get(data, "description"))
    && Truthy(Get(data, "modbusId")) && ToNumber(c, Get(data, "modbusId")).Some?
    && 1.0 <= ToNumber(c, Get(data, "modbusId")).value <= 247.0
    && !BadStart(rule, c, Get(data, "startAddress"))
    && Truthy(Get(data, "registers")) && ToNumber(c, Get(data, "registers")).Some?
    && ToNumber(c, Get(data, "registers")).value >= 1.0
  }

  /** No stored device other than the edited one has the same name (ignoring case) or modbus id. */
  predicate Unclashed(c: Coercion, data: Object, current: Val, devices: seq<Val>) {
    forall j :: 0 <= j < |devices| ==>
      RegisterValidation.NameClash(devices[j], Get(data, "name"), current) == Some(false)
      && IdClash(c, devices[j], Get(data, "modbusId"), current) == Some(false)
  }

  /** What the TCP checks demand. */
  predicate TcpValid(c: Coercion, data: Object, current: Val, devices: seq<Val>) {
    Filled(Get(data, "ip")) && DottedQuad(Get(data, "ip").s)
    && Truthy(Get(data, "port")) && ToNumber(c, Get(data, "port")).Some?
    && 1.0 <= ToNumber(c, Get(data, "port")).value <= 65535.0
    && forall j :: 0 <= j < |devices| ==>
         EndpointClash(c, devices[j], Get(data, "ip"), Get(data, "port"), current) == Some(false)
  }

  /** What the RTU checks demand: valid serial settings on a port no other device uses. */
  predicate RtuValid(c: Coercion, data: Object, current: Val, devices: seq<Val>) {
    SerialSettingsValid(c, data) && SerialPortFree(data, current, devices)
  }

  /** A named port and parity, a positive baud rate, 7 or 8 data bits and 1 or 2 stop bits. */
  predicate SerialSettingsValid(c: Coercion, data: Object) {
    Filled(Get(data, "serialPort")) && Filled(Get(data, "parity"))
    && Truthy(Get(data, "baudRate")) && ToNumber(c, Get(data, "baudRate")).Some?
    && ToNumber(c, Get(data, "baudRate")).value > 0.0
    && !BadChoice(c, Get(data, "dataBits"), {7, 8}) && !BadChoice(c, Get(data, "stopBits"), {1, 2})
  }

  /** No stored device other than the edited one is an RTU device on the same serial port. */
  predicate SerialPortFree(data: Object, current: Val, devices: seq<Val>) {
    forall j :: 0 <= j < |devices| ==>
      SerialClash(devices[j], Get(data, "serialPort"), current) == Some(false)
  }

  /** A device the validator accepts. */
  predicate Valid(rule: StartRule, c: Coercion, data: Object, current: Val, devices: seq<Val>) {
    FieldsValid(rule, c, data) && Unclashed(c, data, current, devices)
    && (StrictEq(Get(data, "protocol"), Str("TCP")) ==> TcpValid(c, data, current, devices))
    && (StrictEq(Get(data, "protocol"), Str("RTU")) ==> RtuValid(c, data, current, devices))
  }

  /** No field check fails exactly when each field passes its own check. */
  lemma FieldChecksPass(rule: StartRule, c: Coercion, data: Object)
    ensures Pushes(FieldChecks(rule, c, data)) == [] <==>
            !BlankInput(Get(data, "name")) && !BlankInput(Get(data, "type")) && !BlankInput(Get(data, "protocol"))
            && !OutOfBounds(c, Get(data, "modbusId"), 1.0, 247.0) && !BadStart(rule, c, Get(data, "startAddress"))
            && !BadCount(c, Get(data, "registers")) && !BlankInput(Get(data, "description"))
  {
    var checks := FieldChecks(rule, c, data);
    PushesEmpty(checks);
    if forall i :: 0 <= i < |checks| ==> !checks[i].fails {
      assert !checks[0].fails && !checks[1].fails && !checks[2].fails && !checks[3].fails;
      assert !checks[4].fails && !checks[5].fails && !checks[6].fails;
    } else {
      var i :| 0 <= i < |checks| && checks[i].fails;
      assert i in {0, 1, 2, 3, 4, 5, 6};
    }
  }

  lemma FieldsAcceptIffValid(rule: StartRule, c: Coercion, data: Object)
    ensures FieldErrors(rule, c, data) == Some([]) <==> FieldsValid(rule, c, data)
  {
    FieldChecksPass(rule, c, data);
  }

  lemma ClashesAcceptIffUnclashed(c: Coercion, data: Object, current: Val, devices: seq<Val>)
    ensures ClashErrors(c, data, current, devices) == Some([]) <==> Unclashed(c, data, current, devices)
  {
    var byName := SomeOf(devices, NameTest(Get(data, "name"), current));
    var byId := SomeOf(devices, IdTest(c, Get(data, "modbusId"), current));
    if byName.Some? && byId.Some? {
      PushesEmpty([Check(byName.value, NameTaken), Check(byId.value, ModbusIdTaken)]);
    }
  }

  /** No TCP check fails exactly when the ip, the port and the endpoint pass. */
  lemma TcpChecksPass(c: Coercion, data: Object, taken: bool)
    ensures Pushes(TcpChecks(c, data, taken)) == [] <==>
            !BlankInput(Get(data, "ip")) && !(Filled(Get(data, "ip")) && !DottedQuad(Get(data, "ip").s))
            && !OutOfBounds(c, Get(data, "port"), 1.0, 65535.0) && !taken
  {
    var checks := TcpChecks(c, data, taken);
    PushesEmpty(checks);
    if forall i :: 0 <= i < |checks| ==> !checks[i].fails {
      assert !checks[0].fails && !checks[1].fails && !checks[2].fails && !checks[3].fails;
    } else {
      var i :| 0 <= i < |checks| && checks[i].fails;
      assert i in {0, 1, 2, 3};
    }
  }

  lemma TcpAcceptIffValid(c: Coercion, data: Object, current: Val, devices: seq<Val>)
    ensures TcpErrors(c, data, current, devices) == Some([]) <==> TcpValid(c, data, current, devices)
  {
    var taken := SomeOf(devices, EndpointTest(c, Get(data, "ip"), Get(data, "port"), current));
    if MissingOrBlank(Get(data, "ip")).Some? && taken.Some? {
      TcpChecksPass(c, data, taken.value);
    }
  }

  /** Six RTU checks push nothing exactly when none of them fails. */
  lemma RtuPushesEmpty(portBlank: bool, baudBad: bool, parityBlank: bool, dataBitsBad: bool,
                       stopBitsBad: bool, taken: bool)
    ensures Pushes([Check(portBlank, SerialPortRequired), Check(baudBad, BaudRateInvalid),
                    Check(parityBlank, ParityRequired), Check(dataBitsBad, DataBitsInvalid),
                    Check(stopBitsBad, StopBitsInvalid), Check(taken, SerialPortTaken)]) == [] <==>
            !portBlank && !baudBad && !parityBlank && !dataBitsBad && !stopBitsBad && !taken
  {
    var checks := [Check(portBlank, SerialPortRequired), Check(baudBad, BaudRateInvalid),
                   Check(parityBlank, ParityRequired), Check(dataBitsBad, DataBitsInvalid),
                   Check(stopBitsBad, StopBitsInvalid), Check(taken, SerialPortTaken)];
    PushesEmpty(checks);
    if forall i :: 0 <= i < |checks| ==> !checks[i].fails {
      assert !checks[0].fails && !checks[1].fails && !checks[2].fails;
      assert !checks[3].fails && !checks[4].fails && !checks[5].fails;
    } else {
      var i :| 0 <= i < |checks| && checks[i].fails;
      assert i in {0, 1, 2, 3, 4, 5};
    }
  }

  /** No RTU check fails exactly when every serial setting passes and the port is free. */
  lemma RtuChecksPass(c: Coercion, data: Object, taken: bool)
    ensures Pushes(RtuChecks(c, data, taken)) == [] <==>
            !BlankInput(Get(data, "serialPort")) && !BadBaud(c, Get(data, "baudRate"))
            && !BlankInput(Get(data, "parity")) && !BadChoice(c, Get(data, "dataBits"), {7, 8})
            && !BadChoice(c, Get(data, "stopBits"), {1, 2}) && !taken
  {
    RtuPushesEmpty(BlankInput(Get(data, "serialPort")), BadBaud(c, Get(data, "baudRate")),
                   BlankInput(Get(data, "parity")), BadChoice(c, Get(data, "dataBits"), {7, 8}),
                   BadChoice(c, Get(data, "stopBits"), {1, 2}), taken);
  }

  /** The serial-port scan finds nothing exactly when no stored device clashes with the port. */
  lemma SerialFree(data: Object, current: Val, devices: seq<Val>)
    ensures SomeOf(devices, SerialTest(Get(data, "serialPort"), current)) == Some(false) <==>
            SerialPortFree(data, current, devices)
  {
    var port := Get(data, "serialPort");
    assert forall j :: 0 <= j < |devices| ==>
      SerialTest(port, current)(devices[j]) == SerialClash(devices[j], port, current);
  }

  lemma RtuAcceptIffValid(c: Coercion, data: Object, current: Val, devices: seq<Val>)
    ensures RtuErrors(c, data, current, devices) == Some([]) <==> RtuValid(c, data, current, devices)
  {
    var port := Get(data, "serialPort");
    var parity := Get(data, "parity");
    var taken := SomeOf(devices, SerialTest(port, current));
    SerialFree(data, current, devices);
    if MissingOrBlank(port).None? || MissingOrBlank(parity).None? {
      assert !Filled(port) || !Filled(parity);
    } else if taken.None? {
      assert RtuErrors(c, data, current, devices).None?;
    } else {
      assert RtuErrors(c, data, current, devices) == Some(Pushes(RtuChecks(c, data, taken.value)));
      RtuPassIffValid(c, data, current, devices, taken.value);
    }
  }

  /** When the RTU checks run to the end, they push nothing exactly for a valid RTU device. */
  lemma RtuPassIffValid(c: Coercion, data: Object, current: Val, devices: seq<Val>, taken: bool)
    requires MissingOrBlank(Get(data, "serialPort")).Some? && MissingOrBlank(Get(data, "parity")).Some?
    requires SomeOf(devices, SerialTest(Get(data, "serialPort"), current)) == Some(taken)
    ensures Pushes(RtuChecks(c, data, taken)) == [] <==> RtuValid(c, data, current, devices)
  {
    var port := Get(data, "serialPort");
    var parity := Get(data, "parity");
    SerialFree(data, current, devices);
    RtuChecksPass(c, data, taken);
    BaudPass(c, Get(data, "baudRate"));
    FilledIffNotBlank(port);
    FilledIffNotBlank(parity);
    assert SerialSettingsValid(c, data) <==>
      !BlankInput(port) && !BadBaud(c, Get(data, "baudRate")) && !BlankInput(parity)
      && !BadChoice(c, Get(data, "dataBits"), {7, 8}) && !BadChoice(c, Get(data, "stopBits"), {1, 2});
  }

  /** For a value that does not make `trim` throw, a non-blank input is a filled-in string. */
  lemma FilledIffNotBlank(v: Val)
    requires MissingOrBlank(v).Some?
    ensures !BlankInput(v) <==> Filled(v)
  {
  }

  /** The baud-rate check passes exactly for a truthy value that reads as a positive number. */
  lemma BaudPass(c: Coercion, b: Val)
    ensures !BadBaud(c, b) <==> Truthy(b) && ToNumber(c, b).Some? && ToNumber(c, b).value > 0.0
  {
  }

  /** The whole list is empty exactly when no part of it throws and every part is empty. */
  lemma AcceptIffPartsAccept(rule: StartRule, c: Coercion, data: Object, current: Val, devices: seq<Val>)
    ensures ValidateWith(rule, c, data, current, devices) == Some([]) <==>
            FieldErrors(rule, c, data) == Some([]) && ClashErrors(c, data, current, devices) == Some([])
            && ProtocolErrors(c, data, current, devices) == Some([])
  {
    var f := FieldErrors(rule, c, data);
    var d := ClashErrors(c, data, current, devices);
    var p := ProtocolErrors(c, data, current, devices);
    if f.Some? && d.Some? && p.Some? {
      assert |f.value + d.value + p.value| == |f.value| + |d.value| + |p.value|;
    }
  }

  /** The validator returns no errors exactly for a valid device (and never throws on one). */
  lemma AcceptIffValid(rule: StartRule, c: Coercion, data: Object, current: Val, devices: seq<Val>)
    ensures ValidateWith(rule, c, data, current, devices) == Some([]) <==> Valid(rule, c, data, current, devices)
  {
    AcceptIffPartsAccept(rule, c, data, current, devices);
    FieldsAcceptIffValid(rule, c, data);
    ClashesAcceptIffUnclashed(c, data, current, devices);
    ProtocolAcceptIffValid(c, data, current, devices);
  }

  /** The protocol checks accept exactly a device valid for the protocol it names. */
  lemma ProtocolAcceptIffValid(c: Coercion, data: Object, current: Val, devices: seq<Val>)
    ensures ProtocolErrors(c, data, current, devices) == Some([]) <==>
            (StrictEq(Get(data, "protocol"), Str("TCP")) ==> TcpValid(c, data, current, devices))
            && (StrictEq(Get(data, "protocol"), Str("RTU")) ==> RtuValid(c, data, current, devices))
  {
    TcpAcceptIffValid(c, data, current, devices);
    RtuAcceptIffValid(c, data, current, devices);
    if StrictEq(Get(data, "protocol"), Str("TCP")) {
      assert "TCP"[0] != "RTU"[0];
      assert !StrictEq(Get(data, "protocol"), Str("RTU"));
    }
  }

  /** The two start rules disagree exactly on the values that read as zero while being falsy. */
  lemma StartRulesDiffer(c: Coercion, s: Val)
    ensures BadStart(AsWritten, c, s) != BadStart(Intended, c, s) <==> s == Num(0.0) || s == Bool(false)
  {
  }

  /** The messages the field checks, the two scans and the protocol checks push. */
  predicate IsFieldError(e: DeviceError) {
    e.NameRequired? || e.TypeRequired? || e.ProtocolRequired? || e.ModbusIdInvalid?
    || e.StartAddressInvalid? || e.RegistersInvalid? || e.DescriptionRequired?
  }

  predicate IsClashError(e: DeviceError) {
    e.NameTaken? || e.ModbusIdTaken?
  }

  predicate IsProtocolError(e: DeviceError) {
    !IsFieldError(e) && !IsClashError(e)
  }

  lemma FieldErrorKinds(rule: StartRule, c: Coercion, data: Object)
    requires FieldErrors(rule, c, data).Some?
    ensures forall e :: e in FieldErrors(rule, c, data).value ==> IsFieldError(e)
  {
    var checks := FieldChecks(rule, c, data);
    forall e | e in FieldErrors(rule, c, data).value
      ensures IsFieldError(e)
    {
      PushesHas(checks, e);
      var i :| 0 <= i < |checks| && checks[i].fails && checks[i].error == e;
      assert i in {0, 1, 2, 3, 4, 5, 6};
    }
  }

  lemma ClashErrorKinds(c: Coercion, data: Object, current: Val, devices: seq<Val>)
    requires ClashErrors(c, data, current, devices).Some?
    ensures forall e :: e in ClashErrors(c, data, current, devices).value ==> IsClashError(e)
  {
    var byName := SomeOf(devices, NameTest(Get(data, "name"), current));
    var byId := SomeOf(devices, IdTest(c, Get(data, "modbusId"), current));
    forall e | e in ClashErrors(c, data, current, devices).value
      ensures IsClashError(e)
    {
      var checks := [Check(byName.value, NameTaken), Check(byId.value, ModbusIdTaken)];
      PushesHas(checks, e);
      var i :| 0 <= i < |checks| && checks[i].fails && checks[i].error == e;
      assert i in {0, 1};
    }
  }

  /** Whatever the TCP checks find, they push only TCP messages. */
  lemma TcpPushKinds(ipBlank: bool, ipBad: bool, portBad: bool, taken: bool, e: DeviceError)
    requires e in Pushes([Check(ipBlank, IpRequired), Check(ipBad, IpInvalid),
                          Check(portBad, PortInvalid), Check(taken, EndpointTaken)])
    ensures IsProtocolError(e)
  {
    var checks := [Check(ipBlank, IpRequired), Check(ipBad, IpInvalid),
                   Check(portBad, PortInvalid), Check(taken, EndpointTaken)];
    PushesHas(checks, e);
    var i :| 0 <= i < |checks| && checks[i].fails && checks[i].error == e;
    assert i in {0, 1, 2, 3};
  }

  lemma TcpErrorKinds(c: Coercion, data: Object, taken: bool, e: DeviceError)
    requires e in Pushes(TcpChecks(c, data, taken))
    ensures IsProtocolError(e)
  {
    var ip := Get(data, "ip");
    TcpPushKinds(BlankInput(ip), Filled(ip) && !DottedQuad(ip.s),
                 OutOfBounds(c, Get(data, "port"), 1.0, 65535.0), taken, e);
  }

  /** Whatever the RTU checks find, they push only RTU messages. */
  lemma RtuPushKinds(portBlank: bool, baudBad: bool, parityBlank: bool, dataBitsBad: bool,
                     stopBitsBad: bool, taken: bool, e: DeviceError)
    requires e in Pushes([Check(portBlank, SerialPortRequired), Check(baudBad, BaudRateInvalid),
                          Check(parityBlank, ParityRequired), Check(dataBitsBad, DataBitsInvalid),
                          Check(stopBitsBad, StopBitsInvalid), Check(taken, SerialPortTaken)])
    ensures IsProtocolError(e)
  {
    var checks := [Check(portBlank, SerialPortRequired), Check(baudBad, BaudRateInvalid),
                   Check(parityBlank, ParityRequired), Check(dataBitsBad, DataBitsInvalid),
                   Check(stopBitsBad, StopBitsInvalid), Check(taken, SerialPortTaken)];
    PushesHas(checks, e);
    var i :| 0 <= i < |checks| && checks[i].fails && checks[i].error == e;
    assert i in {0, 1, 2, 3, 4, 5};
  }

  lemma RtuErrorKinds(c: Coercion, data: Object, taken: bool, e: DeviceError)
    requires e in Pushes(RtuChecks(c, data, taken))
    ensures IsProtocolError(e)
  {
    RtuPushKinds(BlankInput(Get(data, "serialPort")), BadBaud(c, Get(data, "baudRate")),
                 BlankInput(Get(data, "parity")), BadChoice(c, Get(data, "dataBits"), {7, 8}),
                 BadChoice(c, Get(data, "stopBits"), {1, 2}), taken, e);
  }

  lemma ProtocolErrorKinds(c: Coercion, data: Object, current: Val, devices: seq<Val>)
    requires ProtocolErrors(c, data, current, devices).Some?
    ensures forall e :: e in ProtocolErrors(c, data, current, devices).value ==> IsProtocolError(e)
  {
    if StrictEq(Get(data, "protocol"), Str("TCP")) {
      var taken := SomeOf(devices, EndpointTest(c, Get(data, "ip"), Get(data, "port"), current));
      forall e | e in ProtocolErrors(c, data, current, devices).value
        ensures IsProtocolError(e)
      {
        TcpErrorKinds(c, data, taken.value, e);
      }
    } else if StrictEq(Get(data, "protocol"), Str("RTU")) {
      var taken := SomeOf(devices, SerialTest(Get(data, "serialPort"), current));
      forall e | e in ProtocolErrors(c, data, current, devices).value
        ensures IsProtocolError(e)
      {
        RtuErrorKinds(c, data, taken.value, e);
      }
    }
  }

  /** The validator's list is the field list, then the scan list, then the protocol list. */
  lemma ValidateParts(rule: StartRule, c: Coercion, data: Object, current: Val, devices: seq<Val>)
    requires ValidateWith(rule, c, data, current, devices).Some?
    ensures FieldErrors(rule, c, data).Some? && ClashErrors(c, data, current, devices).Some?
            && ProtocolErrors(c, data, current, devices).Some?
    ensures ValidateWith(rule, c, data, current, devices).value
            == FieldErrors(rule, c, data).value + ClashErrors(c, data, current, devices).value
               + ProtocolErrors(c, data, current, devices).value
  {
  }

  /** The field list names the modbus id exactly when it is not a number in 1..247. */
  lemma ModbusIdFlag(rule: StartRule, c: Coercion, data: Object)
    ensures ModbusIdInvalid in Pushes(FieldChecks(rule, c, data)) <==> OutOfBounds(c, Get(data, "modbusId"), 1.0, 247.0)
  {
    var checks := FieldChecks(rule, c, data);
    PushesHas(checks, ModbusIdInvalid);
    assert checks[3].error == ModbusIdInvalid;
    if ModbusIdInvalid in Pushes(checks) {
      var i :| 0 <= i < |checks| && checks[i].fails && checks[i].error == ModbusIdInvalid;
      assert i == 3;
    }
  }

  /** The field list names the start address exactly when the start rule rejects it. */
  lemma StartFlag(rule: StartRule, c: Coercion, data: Object)
    ensures StartAddressInvalid in Pushes(FieldChecks(rule, c, data)) <==> BadStart(rule, c, Get(data, "startAddress"))
  {
    var checks := FieldChecks(rule, c, data);
    PushesHas(checks, StartAddressInvalid);
    assert checks[4].error == StartAddressInvalid;
    if StartAddressInvalid in Pushes(checks) {
      var i :| 0 <= i < |checks| && checks[i].fails && checks[i].error == StartAddressInvalid;
      assert i == 4;
    }
  }

  /** The field list names the register count exactly when it is not a number of at least 1. */
  lemma CountFlag(rule: StartRule, c: Coercion, data: Object)
    ensures RegistersInvalid in Pushes(FieldChecks(rule, c, data)) <==> BadCount(c, Get(data, "registers"))
  {
    var checks := FieldChecks(rule, c, data);
    PushesHas(checks, RegistersInvalid);
    assert checks[5].error == RegistersInvalid;
    if RegistersInvalid in Pushes(checks) {
      var i :| 0 <= i < |checks| && checks[i].fails && checks[i].error == RegistersInvalid;
      assert i == 5;
    }
  }

  /** The two start rules give the same field checks except at the start address. */
  lemma FieldChecksDifferAtStart(c: Coercion, data: Object)
    ensures FieldChecks(AsWritten, c, data)
            == FieldChecks(Intended, c, data)[4 := Check(BadStart(AsWritten, c, Get(data, "startAddress")), StartAddressInvalid)]
  {
  }

  /** With every other field check passing, the as-written field checks report only a zero start. */
  lemma FieldsZeroStart(c: Coercion, data: Object)
    requires FieldErrors(Intended, c, data) == Some([])
    requires Get(data, "startAddress") == Num(0.0)
    ensures FieldErrors(AsWritten, c, data) == Some([StartAddressInvalid])
  {
    var intended := FieldChecks(Intended, c, data);
    assert Pushes(intended) == [];
    FieldChecksDifferAtStart(c, data);
    PushesOneChanged(intended, 4, Check(BadStart(AsWritten, c, Num(0.0)), StartAddressInvalid));
  }

  /**
   * The as-written validator turns away a device the intended one accepts whenever its start
   * address is the number 0, with the single message that the start address must be at least 0.
   */
  lemma ZeroStartRejectedAsWritten(c: Coercion, data: Object, current: Val, devices: seq<Val>)
    requires ValidateDeviceData(c, data, current, devices) == Some([])
    requires Get(data, "startAddress") == Num(0.0)
    ensures ValidateDeviceDataAsWritten(c, data, current, devices) == Some([StartAddressInvalid])
  {
    assert ValidateWith(Intended, c, data, current, devices) == Some([]);
    ZeroStartWith(c, data, current, devices);
  }

  /** The rule-parameterised form of the above. */
  lemma ZeroStartWith(c: Coercion, data: Object, current: Val, devices: seq<Val>)
    requires ValidateWith(Intended, c, data, current, devices) == Some([])
    requires Get(data, "startAddress") == Num(0.0)
    ensures ValidateWith(AsWritten, c, data, current, devices) == Some([StartAddressInvalid])
  {
    AcceptIffPartsAccept(Intended, c, data, current, devices);
    FieldsZeroStart(c, data);
    assert [StartAddressInvalid] + [] + [] == [StartAddressInvalid];
  }

  /** Where a field message appears in the list, the field failed its check, and conversely. */
  lemma FieldMessagesIffFailed(rule: StartRule, c: Coercion, data: Object, current: Val, devices: seq<Val>)
    requires ValidateWith(rule, c, data, current, devices).Some?
    ensures var errors := ValidateWith(rule, c, data, current, devices).value;
            (ModbusIdInvalid in errors <==> OutOfBounds(c, Get(data, "modbusId"), 1.0, 247.0))
            && (StartAddressInvalid in errors <==> BadStart(rule, c, Get(data, "startAddress")))
            && (RegistersInvalid in errors <==> BadCount(c, Get(data, "registers")))
  {
    ValidateParts(rule, c, data, current, devices);
    ClashErrorKinds(c, data, current, devices);
    ProtocolErrorKinds(c, data, current, devices);
    ModbusIdFlag(rule, c, data);
    StartFlag(rule, c, data);
    CountFlag(rule, c, data);
    var f := FieldErrors(rule, c, data).value;
    var d := ClashErrors(c, data, current, devices).value;
    var p := ProtocolErrors(c, data, current, devices).value;
    assert f == Pushes(FieldChecks(rule, c, data));
    OnlyFieldsListed(f, d, p);
  }

  /** A field message in the joined list comes from the field list. */
  lemma OnlyFieldsListed(f: seq<DeviceError>, d: seq<DeviceError>, p: seq<DeviceError>)
    requires forall e :: e in d ==> IsClashError(e)
    requires forall e :: e in p ==> IsProtocolError(e)
    ensures forall e :: IsFieldError(e) ==> (e in f + d + p <==> e in f)
  {
  }

  /** The TCP list names the port exactly when it is not a number in 1..65535. */
  lemma TcpPortFlag(c: Coercion, data: Object, current: Val, devices: seq<Val>)
    requires TcpErrors(c, data, current, devices).Some?
    ensures PortInvalid in TcpErrors(c, data, current, devices).value
            <==> OutOfBounds(c, Get(data, "port"), 1.0, 65535.0)
  {
    var taken := SomeOf(devices, EndpointTest(c, Get(data, "ip"), Get(data, "port"), current));
    var checks := TcpChecks(c, data, taken.value);
    PushesHas(checks, PortInvalid);
    assert checks[2].error == PortInvalid;
    if PortInvalid in Pushes(checks) {
      var i :| 0 <= i < |checks| && checks[i].fails && checks[i].error == PortInvalid;
      assert i in {0, 1, 2, 3};
    }
  }

  /** The port message appears exactly when the port fails, once the protocol list is the TCP list. */
  lemma PortMessageFromTcpList(rule: StartRule, c: Coercion, data: Object, current: Val, devices: seq<Val>)
    requires ValidateWith(rule, c, data, current, devices).Some?
    requires ProtocolErrors(c, data, current, devices) == TcpErrors(c, data, current, devices)
    ensures PortInvalid in ValidateWith(rule, c, data, current, devices).value
            <==> OutOfBounds(c, Get(data, "port"), 1.0, 65535.0)
  {
    var errors := ValidateWith(rule, c, data, current, devices).value;
    assert FieldErrors(rule, c, data).Some? && ClashErrors(c, data, current, devices).Some?
           && ProtocolErrors(c, data, current, devices).Some? by {
      ValidateParts(rule, c, data, current, devices);
    }
    var f := FieldErrors(rule, c, data).value;
    var d := ClashErrors(c, data, current, devices).value;
    var p := ProtocolErrors(c, data, current, devices).value;
    assert errors == f + d + p by {
      ValidateParts(rule, c, data, current, devices);
    }
    assert forall e :: e in f ==> IsFieldError(e) by {
      FieldErrorKinds(rule, c, data);
    }
    assert forall e :: e in d ==> IsClashError(e) by {
      ClashErrorKinds(c, data, current, devices);
    }
    assert PortInvalid in p <==> OutOfBounds(c, Get(data, "port"), 1.0, 65535.0) by {
      TcpPortFlag(c, data, current, devices);
    }
    PortListed(f, d, p);
  }

  /** For a TCP device, the port message appears exactly when the port is not a number in 1..65535. */
  lemma PortMessageIffOutOfBounds(rule: StartRule, c: Coercion, data: Object, current: Val, devices: seq<Val>)
    requires ValidateWith(rule, c, data, current, devices).Some?
    requires Get(data, "protocol") == Str("TCP")
    ensures PortInvalid in ValidateWith(rule, c, data, current, devices).value
            <==> OutOfBounds(c, Get(data, "port"), 1.0, 65535.0)
  {
    PortMessageFromTcpList(rule, c, data, current, devices);
  }

  /** The port message in the joined list comes from the protocol list. */
  lemma PortListed(f: seq<DeviceError>, d: seq<DeviceError>, p: seq<DeviceError>)
    requires forall e :: e in f ==> IsFieldError(e)
    requires forall e :: e in d ==> IsClashError(e)
    ensures PortInvalid in f + d + p <==> PortInvalid in p
  {
  }

  /** A device never clashes with itself while it is the one being edited. */
  lemma EditedDeviceNeverClashes(c: Coercion, device: Val, data: Object)
    requires device.Obj? && OptProp(device, "id").Num?
    ensures IdClash(c, device, Get(data, "modbusId"), device) == Some(false)
    ensures EndpointClash(c, device, Get(data, "ip"), Get(data, "port"), device) == Some(false)
    ensures SerialClash(device, Get(data, "serialPort"), device) == Some(false)
  {
  }

  /**
   * The storing half of handleSaveDevice, once the device has passed validation: the device
   * being edited is updated through its id and saving succeeds when the store found it; with
   * no device being edited a new one is added.
   */
  method SaveValidated(m: EmsData.EmsDataManager, c: Coercion, data: Object, editing: Val, now: real, stamp: string)
    returns (saved: bool)
    modifies m
    ensures Truthy(editing) ==>
              var u := EmsData.Update(old(m.devices), EmsData.IdNumber(c, OptProp(editing, "id")), data, stamp);
              m.devices == u.0 && m.registers == old(m.registers) && (saved <==> u.1.Obj?)
    ensures !Truthy(editing) ==>
              saved && m.devices == old(m.devices) + [EmsData.Stored(Obj(EmsData.NewDevice(data, now, stamp)))]
              && m.registers == old(m.registers)
  {
    if Truthy(editing) {
      var updated := m.UpdateDevice(c, OptProp(editing, "id"), data, stamp);
      saved := Truthy(updated);
    } else {
      var added := m.AddDevice(data, now, stamp);
      saved := Truthy(added);
    }
  }

  /**
   * handleSaveDevice(deviceData): the validator runs first against the stored devices; a
   * non-empty error list, or a TypeError caught by the surrounding try/catch, returns false and
   * stores nothing. Otherwise the device is stored as SaveValidated says.
   */
  method HandleSaveDevice(m: EmsData.EmsDataManager, c: Coercion, data: Object, editing: Val, now: real, stamp: string)
    returns (saved: bool)
    modifies m
    ensures ValidateDeviceData(c, data, editing, old(m.devices)) != Some([]) ==>
              !saved && m.devices == old(m.devices) && m.registers == old(m.registers)
    ensures ValidateDeviceData(c, data, editing, old(m.devices)) == Some([]) && Truthy(editing) ==>
              var u := EmsData.Update(old(m.devices), EmsData.IdNumber(c, OptProp(editing, "id")), data, stamp);
              m.devices == u.0 && m.registers == old(m.registers) && (saved <==> u.1.Obj?)
    ensures ValidateDeviceData(c, data, editing, old(m.devices)) == Some([]) && !Truthy(editing) ==>
              saved && m.devices == old(m.devices) + [EmsData.Stored(Obj(EmsData.NewDevice(data, now, stamp)))]
              && m.registers == old(m.registers)
  {
    var accepted := ValidateDeviceData(c, data, editing, m.devices) == Some([]);
    if !accepted {
      return false;
    }
    saved := SaveValidated(m, c, data, editing, now, stamp);
  }
}

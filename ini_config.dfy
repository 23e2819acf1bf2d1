/**
 * The INI configuration manager shared by the API and the gateway (ConfigManager in
 * gatewayApi/src/config/config.py and gatewayEMS/src/config/config.py; the gateway copy
 * lacks the two MAIN_MODBUS list methods). The configparser object is a map of named
 * sections plus the DEFAULT section; writing the file is an outcome given to each call.
 */
module IniConfig {
  import opened Wrappers
  import opened Text
  import opened PyValue

  type Section = map<string, string>

  /** A configparser's content: the DEFAULT section and the named sections. */
  datatype Ini = Ini(defaults: Section, sections: map<string, Section>)

  const DefaultSection := "DEFAULT"
  const DevicePrefix := "DEVICE_"
  const ModbusSection := "MAIN_MODBUS"
  const DevicesKey := "devices"

  /** `has_section`: named sections only, never DEFAULT. */
  predicate HasSection(ini: Ini, name: string) {
    name in ini.sections
  }

  /** `name in config`: a named section, or DEFAULT. */
  predicate Contains(ini: Ini, name: string) {
    name in ini.sections || name == DefaultSection
  }

  /** `optionxform`: option names are stored lower-cased. */
  function OptionName(key: string): string {
    Lower(key)
  }

  /**
   * `config.get(section, key, fallback=fallback)`: the section's value, else DEFAULT's,
   * else the fallback; a missing section also gives the fallback.
   */
  function Get(ini: Ini, section: string, key: string, fallback: Option<string>): (r: Option<string>)
    ensures !Contains(ini, section) ==> r == fallback
    ensures HasSection(ini, section) && OptionName(key) in ini.sections[section] ==> r == Some(ini.sections[section][OptionName(key)])
    ensures Contains(ini, section) && (section !in ini.sections || OptionName(key) !in ini.sections[section]) ==>
      r == (if OptionName(key) in ini.defaults then Some(ini.defaults[OptionName(key)]) else fallback)
  {
    if !Contains(ini, section) then fallback
    else
      var name := OptionName(key);
      if section in ini.sections && name in ini.sections[section] then Some(ini.sections[section][name])
      else if name in ini.defaults then Some(ini.defaults[name])
      else fallback
  }

  /** `dict(config[section])` for a section that `in` accepts: its options over DEFAULT's. */
  function SectionDict(ini: Ini, section: string): (r: Section)
    ensures !Contains(ini, section) ==> r == map[]
    ensures !HasSection(ini, section) && section == DefaultSection ==> r == ini.defaults
    ensures HasSection(ini, section) ==> r.Keys == ini.defaults.Keys + ini.sections[section].Keys
    ensures HasSection(ini, section) ==> forall k :: k in ini.sections[section] ==> r[k] == ini.sections[section][k]
    ensures HasSection(ini, section) ==>
      forall k :: k in ini.defaults && k !in ini.sections[section] ==> r[k] == ini.defaults[k]
  {
    if section in ini.sections then ini.defaults + ini.sections[section]
    else if section == DefaultSection then ini.defaults
    else map[]
  }

  /**
   * The dictionary and `get` agree: for a section `in` accepts, an option is in the dictionary
   * exactly when `get` without fallback finds it, and with the value `get` returns.
   */
  lemma SectionDictAgreesWithGet(ini: Ini, section: string, key: string)
    requires Contains(ini, section)
    ensures var r := SectionDict(ini, section);
      (OptionName(key) in r <==> Get(ini, section, key, None).Some?)
      && (OptionName(key) in r ==> r[OptionName(key)] == Get(ini, section, key, None).value)
  {
  }

  /** `config.set(section, key, str(value))` for each pair in order: later pairs win. */
  function SetAll(section: Section, data: seq<(string, PyVal)>, floatRepr: real -> string): Section
    decreases |data|
  {
    if data == [] then section
    else
      var n := |data| - 1;
      SetAll(section, data[..n], floatRepr)[OptionName(data[n].0) := Str(data[n].1, floatRepr)]
  }

  /** The value of the last pair whose key maps to `option`, if any. */
  function LastValue(data: seq<(string, PyVal)>, option: string): (r: Option<PyVal>)
    ensures r.None? <==> forall i :: 0 <= i < |data| ==> OptionName(data[i].0) != option
    ensures r.Some? ==> exists i :: 0 <= i < |data| && OptionName(data[i].0) == option && data[i].1 == r.value
    decreases |data|
  {
    if data == [] then None
    else
      var n := |data| - 1;
      if OptionName(data[n].0) == option then Some(data[n].1) else LastValue(data[..n], option)
  }

  /**
   * What the device section holds after its pairs are set: every given option (lower-cased)
   * maps to str() of its last value; every other option keeps its old value or stays absent.
   */
  lemma {:induction false} SetAllEffect(section: Section, data: seq<(string, PyVal)>, option: string,
                                       floatRepr: real -> string)
    ensures var r := SetAll(section, data, floatRepr);
      match LastValue(data, option)
      case Some(v) => option in r && r[option] == Str(v, floatRepr)
      case None => (option in r <==> option in section) && (option in section ==> r[option] == section[option])
    decreases |data|
  {
    if data != [] {
      SetAllEffect(section, data[..|data| - 1], option, floatRepr);
    }
  }

  /** The section a device is stored under. */
  function DeviceSection(deviceName: string): string {
    DevicePrefix + deviceName
  }

  /** `[d.strip() for d in devices.split(',') if d.strip()]`. */
  function ParseList(devices: string): (r: seq<string>)
    ensures forall k :: 0 <= k < |r| ==> Clean(r[k])
  {
    SplitPiecesLackSeparator(devices, ',');
    KeepTrimmedClean(Split(devices, ','));
    KeepTrimmed(Split(devices, ','))
  }

  /** An entry as the list parser leaves it: non-empty, no surrounding whitespace, no comma. */
  predicate Clean(x: string) {
    x != "" && !IsSpace(x[0]) && !IsSpace(x[|x| - 1]) && ',' !in x
  }

  /** The trimmed pieces that are not blank, in order. */
  function KeepTrimmed(parts: seq<string>): seq<string>
    decreases |parts|
  {
    if parts == [] then []
    else
      var t := Trim(parts[0]);
      (if t != "" then [t] else []) + KeepTrimmed(parts[1..])
  }

  lemma {:induction false} KeepTrimmedClean(parts: seq<string>)
    requires forall k :: 0 <= k < |parts| ==> ',' !in parts[k]
    ensures forall k :: 0 <= k < |KeepTrimmed(parts)| ==> Clean(KeepTrimmed(parts)[k])
    decreases |parts|
  {
    if parts != [] {
      KeepTrimmedClean(parts[1..]);
      var t := Trim(parts[0]);
      assert ',' !in t;
    }
  }

  lemma {:induction false} KeepClean(xs: seq<string>)
    requires forall k :: 0 <= k < |xs| ==> Clean(xs[k])
    ensures KeepTrimmed(xs) == xs
    decreases |xs|
  {
    if xs != [] {
      TrimOfTrimmed(xs[0]);
      KeepClean(xs[1..]);
    }
  }

  /** `','.join(device_list)` read back by the parser gives the same list. */
  lemma ParseJoin(xs: seq<string>)
    requires forall k :: 0 <= k < |xs| ==> Clean(xs[k])
    ensures ParseList(Join(xs, ',')) == xs
  {
    if xs == [] {
      assert Trim("") == "";
    } else {
      SplitJoin(xs, ',');
      KeepClean(xs);
    }
  }

  /** The list with `name` appended unless already present. */
  function AddToList(list: seq<string>, name: string): (r: seq<string>)
    ensures name in r
    ensures name in list ==> r == list
    ensures name !in list ==> r == list + [name]
  {
    if name in list then list else list + [name]
  }

  /** `list.index(name)`: the position of the first occurrence. */
  function FirstIndex(list: seq<string>, name: string): (i: nat)
    requires name in list
    ensures i < |list| && list[i] == name && name !in list[..i]
  {
    if list[0] == name then 0
    else
      var j := FirstIndex(list[1..], name);
      assert list[..j + 1] == [list[0]] + list[1..][..j];
      j + 1
  }

  /**
   * `list.remove(name)` when present: the first occurrence goes and the rest keep their order;
   * an absent name changes nothing.
   */
  function RemoveFirst(list: seq<string>, name: string): (r: seq<string>)
    ensures name !in list ==> r == list
    ensures name in list ==> |r| == |list| - 1 && multiset(r) == multiset(list) - multiset{name}
    ensures name in list ==> r == list[..FirstIndex(list, name)] + list[FirstIndex(list, name) + 1..]
    decreases |list|
  {
    if list == [] then []
    else if list[0] == name then
      assert list == [list[0]] + list[1..];
      assert FirstIndex(list, name) == 0 && list[..0] == [];
      list[1..]
    else
      var rest := RemoveFirst(list[1..], name);
      if name in list[1..] then
        RemoveFirstStep(list, name, rest);
        [list[0]] + rest
      else
        assert list == [list[0]] + list[1..];
        [list[0]] + rest
  }

  /** The step of RemoveFirst past a first entry that is not `name`. */
  lemma RemoveFirstStep(list: seq<string>, name: string, rest: seq<string>)
    requires list != [] && list[0] != name && name in list[1..]
    requires multiset(rest) == multiset(list[1..]) - multiset{name}
    requires rest == list[1..][..FirstIndex(list[1..], name)] + list[1..][FirstIndex(list[1..], name) + 1..]
    ensures multiset([list[0]] + rest) == multiset(list) - multiset{name}
    ensures [list[0]] + rest == list[..FirstIndex(list, name)] + list[FirstIndex(list, name) + 1..]
  {
    assert list == [list[0]] + list[1..];
    RemoveFirstOrderStep(list, name, rest);
  }

  lemma RemoveFirstOrderStep(list: seq<string>, name: string, rest: seq<string>)
    requires list != [] && list[0] != name && name in list[1..]
    requires rest == list[1..][..FirstIndex(list[1..], name)] + list[1..][FirstIndex(list[1..], name) + 1..]
    ensures [list[0]] + rest == list[..FirstIndex(list, name)] + list[FirstIndex(list, name) + 1..]
  {
    var j := FirstIndex(list[1..], name);
    assert FirstIndex(list, name) == j + 1;
    assert list[..j + 1] == [list[0]] + list[1..][..j];
    assert list[j + 2..] == list[1..][j + 1..];
  }

  /** Removing what was just appended restores the list. */
  lemma {:induction false} RemoveAfterAdd(list: seq<string>, name: string)
    requires name !in list
    ensures RemoveFirst(AddToList(list, name), name) == list
    decreases |list|
  {
    var added := list + [name];
    assert AddToList(list, name) == added;
    if list == [] {
      assert added[1..] == [];
    } else {
      var tail := list[1..];
      assert added[0] == list[0] != name;
      assert added[1..] == tail + [name];
      RemoveAfterAdd(tail, name);
      assert RemoveFirst(added, name) == [list[0]] + RemoveFirst(tail + [name], name);
      assert list == [list[0]] + tail;
    }
  }

  lemma CleanAppend(list: seq<string>, x: string)
    requires forall k :: 0 <= k < |list| ==> Clean(list[k])
    requires Clean(x)
    ensures forall k :: 0 <= k < |list + [x]| ==> Clean((list + [x])[k])
  {
  }

  /** A device name whose section name survives a round trip through the comma list. */
  predicate ListableName(deviceName: string) {
    ',' !in deviceName && (deviceName == "" || !IsSpace(deviceName[|deviceName| - 1]))
  }

  lemma ListableIsClean(deviceName: string)
    requires ListableName(deviceName)
    ensures Clean(DeviceSection(deviceName))
  {
    var s := DeviceSection(deviceName);
    assert s[0] == 'D';
    if deviceName != "" {
      assert s[|s| - 1] == deviceName[|deviceName| - 1];
    }
    assert forall k :: 0 <= k < |s| ==> s[k] != ',' by {
      forall k | 0 <= k < |s| ensures s[k] != ',' {
        if k >= |DevicePrefix| {
          assert s[k] == deviceName[k - |DevicePrefix|];
        }
      }
    }
  }

  lemma DevicesKeyIsLowerCase()
    ensures OptionName(DevicesKey) == DevicesKey
  {
    LowerOfLowerCase(DevicesKey);
  }

  /**
   * `config.get('MAIN_MODBUS', 'devices', fallback='')`: the section's option, else
   * DEFAULT's, else "" (DevicesValueIsGet ties it to Get).
   */
  function DevicesValue(ini: Ini): string {
    if ModbusSection in ini.sections && DevicesKey in ini.sections[ModbusSection] then ini.sections[ModbusSection][DevicesKey]
    else if ModbusSection in ini.sections && DevicesKey in ini.defaults then ini.defaults[DevicesKey]
    else ""
  }

  lemma DevicesValueIsGet(ini: Ini)
    requires HasSection(ini, ModbusSection)
    ensures Get(ini, ModbusSection, DevicesKey, Some("")) == Some(DevicesValue(ini))
  {
    DevicesKeyIsLowerCase();
  }

  /** The entries of the MAIN_MODBUS device list as the list methods read them. */
  function ModbusList(ini: Ini): seq<string>
  {
    ParseList(DevicesValue(ini))
  }

  /** The stored list reads back as written. */
  lemma ModbusListAfterSet(ini: Ini, list: seq<string>)
    requires HasSection(ini, ModbusSection)
    requires forall k :: 0 <= k < |list| ==> Clean(list[k])
    ensures ModbusList(SetModbusList(ini, list)) == list
  {
    var v := DevicesValue(SetModbusList(ini, list));
    assert v == Join(list, ',');
    ParseJoin(list);
  }

  /** `add_section('MAIN_MODBUS')` when it is missing. */
  function WithModbusSection(ini: Ini): (r: Ini)
    ensures HasSection(r, ModbusSection)
  {
    if HasSection(ini, ModbusSection) then ini else ini.(sections := ini.sections[ModbusSection := map[]])
  }

  /** `config.set('MAIN_MODBUS', 'devices', ','.join(list))`. */
  function SetModbusList(ini: Ini, list: seq<string>): Ini
    requires HasSection(ini, ModbusSection)
  {
    ini.(sections := ini.sections[ModbusSection := ini.sections[ModbusSection][DevicesKey := Join(list, ',')]])
  }

  /** The configuration after `add_device_in_Modbus_list` (the file write aside). */
  function AddToModbusList(ini: Ini, deviceName: string): Ini
  {
    var prepared := WithModbusSection(ini);
    var list := ModbusList(prepared);
    if DeviceSection(deviceName) in list then prepared
    else SetModbusList(prepared, AddToList(list, DeviceSection(deviceName)))
  }

  /**
   * Adding a device to the MAIN_MODBUS list puts its section name in the list, and adding
   * it a second time leaves the configuration as the first call left it. The name must not
   * hold a comma or end in whitespace: such a name is split or trimmed on the way back, is
   * not found, and is appended again on every call.
   */
  lemma AddToModbusListIdempotent(ini: Ini, deviceName: string)
    requires ListableName(deviceName)
    ensures var once := AddToModbusList(ini, deviceName);
      DeviceSection(deviceName) in ModbusList(once) && AddToModbusList(once, deviceName) == once
  {
    var prepared := WithModbusSection(ini);
    var list := ModbusList(prepared);
    var name := DeviceSection(deviceName);
    var once := AddToModbusList(ini, deviceName);
    if name in list {
      assert once == prepared;
      assert WithModbusSection(once) == once;
    } else {
      assert once == SetModbusList(prepared, list + [name]);
      ListableIsClean(deviceName);
      CleanAppend(list, name);
      ModbusListAfterSet(prepared, list + [name]);
      assert ModbusList(once) == list + [name];
      assert WithModbusSection(once) == once;
      assert name in ModbusList(once);
    }
  }

  /** Erasing a device just added to a list that lacked it restores the list. */
  lemma EraseAfterAdd(ini: Ini, deviceName: string)
    requires ListableName(deviceName)
    requires DeviceSection(deviceName) !in ModbusList(WithModbusSection(ini))
    ensures RemoveFirst(ModbusList(AddToModbusList(ini, deviceName)), DeviceSection(deviceName)) == ModbusList(WithModbusSection(ini))
  {
    var prepared := WithModbusSection(ini);
    var list := ModbusList(prepared);
    var name := DeviceSection(deviceName);
    RemoveAfterAdd(list, name);
    assert AddToModbusList(ini, deviceName) == SetModbusList(prepared, list + [name]);
    ListableIsClean(deviceName);
    CleanAppend(list, name);
    ModbusListAfterSet(prepared, list + [name]);
  }

  /** The configuration manager: the parsed configuration it updates in place. */
  class ConfigManager {
    var config: Ini

    constructor (config: Ini)
      ensures this.config == config
    {
      this.config := config;
    }

    /** `get_value`. */
    function GetValue(section: string, key: string, fallback: Option<string>): (r: Option<string>)
      reads this
      ensures r == Get(config, section, key, fallback)
    {
      Get(config, section, key, fallback)
    }

    /** `get_section_dict`. */
    function GetSectionDict(section: string): (r: Section)
      reads this
      ensures r == SectionDict(config, section)
    {
      SectionDict(config, section)
    }

    /** `device_exists`: `has_section` on the name exactly as given, no prefix added. */
    predicate DeviceExists(deviceName: string)
      reads this
    {
      HasSection(config, deviceName)
    }

    /**
     * `add_device_section`: creates DEVICE_<name> if absent and sets each pair in order; the
     * result is whether the file write succeeded (the in-memory change stays either way).
     */
    method AddDeviceSection(deviceName: string, deviceData: seq<(string, PyVal)>, floatRepr: real -> string,
                            saveOk: bool) returns (ok: bool)
      modifies this
      ensures var name := DeviceSection(deviceName);
        var old_ := if name in old(config.sections) then old(config.sections)[name] else map[];
        config == old(config).(sections := old(config.sections)[name := SetAll(old_, deviceData, floatRepr)])
      ensures ok == saveOk
    {
      var name := DeviceSection(deviceName);
      if !HasSection(config, name) {
        config := config.(sections := config.sections[name := map[]]);
      }
      ghost var start := config.sections[name];
      var i := 0;
      while i < |deviceData|
        invariant 0 <= i <= |deviceData|
        invariant name in config.sections
        invariant config == old(config).(sections := old(config.sections)[name := SetAll(start, deviceData[..i], floatRepr)])
      {
        assert deviceData[..i + 1][..i] == deviceData[..i];
        var (key, value) := deviceData[i];
        config := config.(sections := config.sections[name := config.sections[name][OptionName(key) := Str(value, floatRepr)]]);
        i := i + 1;
      }
      assert deviceData[..i] == deviceData;
      ok := saveOk;
    }

    /** `remove_device_section`: removes the section named exactly as given, if it exists. */
    method RemoveDeviceSection(deviceName: string, saveOk: bool) returns (ok: bool)
      modifies this
      ensures old(HasSection(config, deviceName)) ==> config == old(config).(sections := old(config.sections) - {deviceName}) && ok == saveOk
      ensures !old(HasSection(config, deviceName)) ==> config == old(config) && !ok
    {
      if HasSection(config, deviceName) {
        config := config.(sections := config.sections - {deviceName});
        ok := saveOk;
      } else {
        ok := false;
      }
    }

    /** `add_device_in_Modbus_list`: the file is written only when the list changed. */
    method AddDeviceInModbusList(deviceName: string, saveOk: bool) returns (ok: bool)
      modifies this
      ensures config == AddToModbusList(old(config), deviceName)
      ensures ok == (saveOk || DeviceSection(deviceName) in ModbusList(WithModbusSection(old(config))))
    {
      var name := DeviceSection(deviceName);
      if !HasSection(config, ModbusSection) {
        config := config.(sections := config.sections[ModbusSection := map[]]);
      }
      var list := ModbusList(config);
      if name !in list {
        list := list + [name];
        config := SetModbusList(config, list);
        ok := saveOk;
      } else {
        ok := true;
      }
    }

    /**
     * `erase_device_in_Modbus_list`: False without a MAIN_MODBUS section; otherwise removes
     * the first occurrence if present and returns True (or the write's failure).
     */
    method EraseDeviceInModbusList(deviceName: string, saveOk: bool) returns (ok: bool)
      modifies this
      ensures !old(HasSection(config, ModbusSection)) ==> config == old(config) && !ok
      ensures old(HasSection(config, ModbusSection)) ==>
        var list := ModbusList(old(config));
        var name := DeviceSection(deviceName);
        if name in list then config == SetModbusList(old(config), RemoveFirst(list, name)) && ok == saveOk
        else config == old(config) && ok
    {
      if !HasSection(config, ModbusSection) {
        return false;
      }
      var name := DeviceSection(deviceName);
      var list := ModbusList(config);
      if name in list {
        config := SetModbusList(config, RemoveFirst(list, name));
        ok := saveOk;
      } else {
        ok := true;
      }
    }
  }
}

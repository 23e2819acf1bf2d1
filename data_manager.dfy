/**
 * The browser-side device and register store (EMSDataManager). The two stored lists are
 * sequences of JavaScript values; generated ids (`Date.now()`) and ISO timestamps are
 * parameters. Storing a list goes through JSON, which the model reflects at the top level of
 * each entry (see Stored).
 */
module EmsData {
  import opened Wrappers
  import opened Js

  /** The value `parseInt(id)` as the comparisons use it: a number, or NaN. */
  function IdNumber(c: Coercion, id: Val): (r: Val)
    ensures r.Num? || r.NaN?
  {
    IntVal(ParseInt(c, id))
  }

  /** parseInt of a parseInt result gives it back, so passing an already parsed id is harmless. */
  lemma IdNumberIdempotent(c: Coercion, id: Val)
    ensures IdNumber(c, IdNumber(c, id)) == IdNumber(c, id)
  {
    var p := ParseInt(c, id);
    if p.Some? {
      var x := p.value as real;
      assert x >= 0.0 ==> x.Floor == p.value;
      assert x < 0.0 ==> (-x).Floor == -p.value;
    }
  }

  /** Only an object carries a property equal to a number, so whatever such a search finds is an object. */
  lemma MatchedByNumberIsObject(v: Val, key: string, c: Coercion, id: Val)
    requires Matches(v, key, IdNumber(c, id))
    ensures v.Obj? && key in v.fields && v.fields[key] == IdNumber(c, id) && IdNumber(c, id).Num?
  {
  }

  /**
   * An entry after `JSON.stringify` and `JSON.parse`: undefined and NaN become null in an
   * array, and an object drops its undefined properties and turns NaN properties into null.
   */
  function Stored(v: Val): (r: Val)
    ensures !r.Undefined? && !r.NaN?
    ensures r.Obj? <==> v.Obj?
    ensures v.Obj? ==> r.fields.Keys == set k | k in v.fields && !v.fields[k].Undefined?
    ensures v.Obj? ==> forall k :: k in r.fields ==> !r.fields[k].Undefined? && !r.fields[k].NaN?
    ensures v.Obj? ==> forall k :: k in r.fields && !v.fields[k].NaN? ==> r.fields[k] == v.fields[k]
  {
    match v
    case Undefined => Null
    case NaN => Null
    case Obj(fs) => Obj(map k | k in fs && !fs[k].Undefined? :: if fs[k].NaN? then Null else fs[k])
    case _ => v
  }

  /** Saving an entry that was read back from storage stores it unchanged. */
  lemma StoredIdempotent(v: Val)
    ensures Stored(Stored(v)) == Stored(v)
  {
    if v.Obj? {
      var once := Stored(v).fields;
      assert Stored(Stored(v)).fields == once;
    }
  }

  /** A whole list after saving it. */
  function StoredAll(xs: seq<Val>): (r: seq<Val>)
    ensures |r| == |xs|
    ensures forall i :: 0 <= i < |xs| ==> r[i] == Stored(xs[i])
  {
    seq(|xs|, i requires 0 <= i < |xs| => Stored(xs[i]))
  }

  /**
   * `{id: now, ...device, status: 'Disconnected', lastRead: 'Never', createdAt: stamp}`.
   */
  function NewDevice(device: Object, now: real, stamp: string): (r: Object)
    ensures r.Keys == device.Keys + {"id", "status", "lastRead", "createdAt"}
    ensures r["status"] == Str("Disconnected") && r["lastRead"] == Str("Never")
    ensures r["createdAt"] == Str(stamp)
    ensures r["id"] == if "id" in device then device["id"] else Num(now)
    ensures forall k :: k in device && k !in {"status", "lastRead", "createdAt"} ==> r[k] == device[k]
  {
    Spread(Spread(map["id" := Num(now)], device),
           map["status" := Str("Disconnected"), "lastRead" := Str("Never"), "createdAt" := Str(stamp)])
  }

  /**
   * `{id: now, deviceId: parseInt(deviceId), ...register, status: 'success', lastValue: '0',
   * lastUpdate: 'Never', createdAt: stamp}`.
   */
  function NewRegister(c: Coercion, deviceId: Val, register: Object, now: real, stamp: string): (r: Object)
    ensures r.Keys == register.Keys + {"id", "deviceId"} + RegisterStampKeys
    ensures r["status"] == Str("success") && r["lastValue"] == Str("0")
    ensures r["lastUpdate"] == Str("Never") && r["createdAt"] == Str(stamp)
    ensures r["id"] == if "id" in register then register["id"] else Num(now)
    ensures r["deviceId"] == if "deviceId" in register then register["deviceId"] else IdNumber(c, deviceId)
    ensures forall k :: k in register && k !in RegisterStampKeys ==> r[k] == register[k]
  {
    var head := map["id" := Num(now), "deviceId" := IdNumber(c, deviceId)];
    assert "id" !in RegisterStampKeys && "deviceId" !in RegisterStampKeys;
    Spread(Spread(head, register), RegisterStamp(stamp))
  }

  /** The properties addRegister sets after spreading the register. */
  const RegisterStampKeys: set<string> := {"status", "lastValue", "lastUpdate", "createdAt"}

  function RegisterStamp(stamp: string): (m: Object)
    ensures m.Keys == RegisterStampKeys
    ensures m["status"] == Str("success") && m["lastValue"] == Str("0")
    ensures m["lastUpdate"] == Str("Never") && m["createdAt"] == Str(stamp)
  {
    map["status" := Str("success"), "lastValue" := Str("0"), "lastUpdate" := Str("Never"),
        "createdAt" := Str(stamp)]
  }

  /** `{...entry, ...updates, updatedAt: stamp}`. */
  function Merge(entry: Object, updates: Object, stamp: string): (r: Object)
    ensures r.Keys == entry.Keys + updates.Keys + {"updatedAt"}
    ensures r["updatedAt"] == Str(stamp)
    ensures forall k :: k in updates && k != "updatedAt" ==> r[k] == updates[k]
    ensures forall k :: k in entry && k !in updates && k != "updatedAt" ==> r[k] == entry[k]
  {
    Spread(Spread(entry, updates), map["updatedAt" := Str(stamp)])
  }

  /**
   * The body of updateDevice/updateRegister on a list: the entry whose id is `target` is merged
   * with `updates` and stored; the result is the merged entry, or null when no entry has that id
   * (or a nullish entry before it makes the search throw).
   */
  function Update(xs: seq<Val>, target: Val, updates: Object, stamp: string): (r: (seq<Val>, Val))
    ensures |r.0| == |xs|
    ensures r.1 == Null || r.1.Obj?
    ensures var s := Find(xs, "id", target);
            s.FoundAt? && xs[s.index].Obj? ==>
              r.1 == Obj(Merge(xs[s.index].fields, updates, stamp)) && r.0[s.index] == Stored(r.1)
              && forall j :: 0 <= j < |xs| && j != s.index ==> r.0[j] == xs[j]
    ensures var s := Find(xs, "id", target);
            !(s.FoundAt? && xs[s.index].Obj?) ==> r.0 == xs && r.1 == Null
  {
    var s := Find(xs, "id", target);
    if s.FoundAt? && xs[s.index].Obj? then
      var merged := Obj(Merge(xs[s.index].fields, updates, stamp));
      (xs[s.index := Stored(merged)], merged)
    else (xs, Null)
  }

  /** An id that no entry carries leaves the list as it was and yields null. */
  lemma UpdateUnknownId(xs: seq<Val>, c: Coercion, id: Val, updates: Object, stamp: string)
    requires forall j :: 0 <= j < |xs| ==> !Matches(xs[j], "id", IdNumber(c, id))
    ensures Update(xs, IdNumber(c, id), updates, stamp) == (xs, Null)
  {
    var s := Find(xs, "id", IdNumber(c, id));
    assert !s.FoundAt?;
  }

  /** `{registers: n, activeRegisters: n}`. */
  function CountUpdate(n: nat): Object {
    map["registers" := Num(n as real), "activeRegisters" := Num(n as real)]
  }

  /** getRegistersByDevice: the registers whose deviceId is parseInt(deviceId); [] if it throws. */
  function RegistersOf(c: Coercion, registers: seq<Val>, deviceId: Val): (r: seq<Val>)
    ensures |r| <= |registers|
    ensures forall v :: v in r ==> v in registers && Matches(v, "deviceId", IdNumber(c, deviceId))
    ensures (forall j :: 0 <= j < |registers| ==> !Nullish(registers[j])) ==>
              forall v :: v in registers && Matches(v, "deviceId", IdNumber(c, deviceId)) ==> v in r
    ensures (forall j :: 0 <= j < |registers| ==> !Nullish(registers[j])) ==>
              |r| == CountWhere(registers, Matching("deviceId", IdNumber(c, deviceId), true))
    ensures (forall j :: 0 <= j < |registers| ==> !Nullish(registers[j])) ==>
              Selected(registers, Matching("deviceId", IdNumber(c, deviceId), true), r)
    ensures (exists j :: 0 <= j < |registers| && Nullish(registers[j])) ==> r == []
  {
    var f := Filter(registers, "deviceId", IdNumber(c, deviceId), true);
    if f.Some? then f.value else []
  }

  /**
   * getDeviceById: the first device whose id is parseInt(deviceId), or null when none matches
   * or a nullish entry before the first match makes `find` throw.
   */
  function DeviceById(c: Coercion, devices: seq<Val>, deviceId: Val): (r: Val)
    ensures r.Null? || r in devices
    ensures r.Null? || r.Obj?
    ensures r.Obj? ==> Matches(r, "id", IdNumber(c, deviceId))
    ensures r.Obj? ==> exists j :: 0 <= j < |devices| && devices[j] == r
                                   && Matches(r, "id", IdNumber(c, deviceId))
                                   && ClearBefore(devices, "id", IdNumber(c, deviceId), j)
    ensures r.Null? <==> !exists j :: 0 <= j < |devices| && Matches(devices[j], "id", IdNumber(c, deviceId))
                                      && ClearBefore(devices, "id", IdNumber(c, deviceId), j)
    ensures (exists j :: 0 <= j < |devices| && Matches(devices[j], "id", IdNumber(c, deviceId)) &&
                         (forall i :: 0 <= i <= j ==> !Nullish(devices[i]))) ==> r.Obj?
  {
    var s := Find(devices, "id", IdNumber(c, deviceId));
    if s.FoundAt? then
      MatchedByNumberIsObject(devices[s.index], "id", c, deviceId);
      devices[s.index]
    else Null
  }

  /** The numbers getStats reports. */
  datatype Stats = Stats(totalDevices: nat, connectedDevices: nat, totalRegisters: nat, activeRegisters: nat)

  /**
   * getStats: list lengths and the counts of Connected devices and success registers; all
   * zero when a nullish entry makes a filter throw.
   */
  function StatsOf(devices: seq<Val>, registers: seq<Val>): (r: Stats)
    ensures r.connectedDevices <= r.totalDevices && r.activeRegisters <= r.totalRegisters
    ensures r.totalDevices == |devices| || r == Stats(0, 0, 0, 0)
    ensures r.totalRegisters == |registers| || r == Stats(0, 0, 0, 0)
    ensures (forall j :: 0 <= j < |devices| ==> Matches(devices[j], "status", Str("Connected")))
            && (forall j :: 0 <= j < |registers| ==> !Nullish(registers[j]))
            ==> r.connectedDevices == |devices|
    ensures (exists j :: 0 <= j < |devices| && Nullish(devices[j]))
            || (exists j :: 0 <= j < |registers| && Nullish(registers[j]))
            ==> r == Stats(0, 0, 0, 0)
    ensures (forall j :: 0 <= j < |devices| ==> !Nullish(devices[j]))
            && (forall j :: 0 <= j < |registers| ==> !Nullish(registers[j]))
            ==> r == Stats(|devices|, CountWhere(devices, Matching("status", Str("Connected"), true)),
                           |registers|, CountWhere(registers, Matching("status", Str("success"), true)))
  {
    var connected := Filter(devices, "status", Str("Connected"), true);
    var active := Filter(registers, "status", Str("success"), true);
    if connected.None? || active.None? then Stats(0, 0, 0, 0)
    else if forall j :: 0 <= j < |devices| ==> Matches(devices[j], "status", Str("Connected")) then
      AllKept(devices, "status", Str("Connected"), connected.value);
      Stats(|devices|, |connected.value|, |registers|, |active.value|)
    else
      Stats(|devices|, |connected.value|, |registers|, |active.value|)
  }

  /** A filter that keeps every entry keeps them all, in order. */
  lemma AllKept(xs: seq<Val>, key: string, target: Val, kept: seq<Val>)
    requires Filter(xs, key, target, true) == Some(kept)
    requires forall j :: 0 <= j < |xs| ==> Matches(xs[j], key, target)
    ensures kept == xs
  {
    var p := Matching(key, target, true);
    SelectedAll(xs, p);
    SelectedUnique(xs, p, kept, xs);
  }

  /** The store: the two lists kept under ems_devices and ems_registers. */
  class EmsDataManager {
    var devices: seq<Val>
    var registers: seq<Val>

    /** A fresh store on empty storage: initializeData leaves both lists empty. */
    constructor ()
      ensures devices == [] && registers == []
    {
      devices := [];
      registers := [];
    }

    /** addDevice: appends the new device, whatever the input says about status and lastRead. */
    method AddDevice(device: Object, now: real, stamp: string) returns (r: Val)
      modifies this
      ensures r == Obj(NewDevice(device, now, stamp))
      ensures devices == old(devices) + [Stored(r)] && registers == old(registers)
    {
      r := Obj(NewDevice(device, now, stamp));
      devices := devices + [Stored(r)];
    }

    /** updateDevice: merges `updates` into the device whose id is parseInt(deviceId). */
    method UpdateDevice(c: Coercion, deviceId: Val, updates: Object, stamp: string) returns (r: Val)
      modifies this
      ensures (devices, r) == Update(old(devices), IdNumber(c, deviceId), updates, stamp)
      ensures registers == old(registers)
    {
      var s := Find(devices, "id", IdNumber(c, deviceId));
      if s.FoundAt? && devices[s.index].Obj? {
        r := Obj(Merge(devices[s.index].fields, updates, stamp));
        devices := devices[s.index := Stored(r)];
      } else {
        r := Null;
      }
    }

    /** updateRegister: the same merge on the register whose id is parseInt(registerId). */
    method UpdateRegister(c: Coercion, registerId: Val, updates: Object, stamp: string) returns (r: Val)
      modifies this
      ensures (registers, r) == Update(old(registers), IdNumber(c, registerId), updates, stamp)
      ensures devices == old(devices)
    {
      var s := Find(registers, "id", IdNumber(c, registerId));
      if s.FoundAt? && registers[s.index].Obj? {
        r := Obj(Merge(registers[s.index].fields, updates, stamp));
        registers := registers[s.index := Stored(r)];
      } else {
        r := Null;
      }
    }

    /** deleteRegistersByDevice: drops the registers whose deviceId is parseInt(deviceId). */
    method DeleteRegistersByDevice(c: Coercion, deviceId: Val)
      modifies this
      ensures var f := Filter(old(registers), "deviceId", IdNumber(c, deviceId), false);
              registers == if f.Some? then f.value else old(registers)
      ensures devices == old(devices)
    {
      var f := Filter(registers, "deviceId", IdNumber(c, deviceId), false);
      if f.Some? {
        registers := f.value;
      }
    }

    /**
     * deleteDevice: drops every device whose id is deviceId (compared as given, not parsed)
     * and every register whose deviceId is parseInt(deviceId); false only if the device
     * filter throws, in which case nothing changes.
     */
    method DeleteDevice(c: Coercion, deviceId: Val) returns (ok: bool)
      modifies this
      ensures var f := Filter(old(devices), "id", deviceId, false);
              var g := Filter(old(registers), "deviceId", IdNumber(c, deviceId), false);
              if f.Some? then
                ok && devices == f.value && registers == (if g.Some? then g.value else old(registers))
              else
                !ok && devices == old(devices) && registers == old(registers)
    {
      var f := Filter(devices, "id", deviceId, false);
      if f.None? {
        return false;
      }
      DeleteRegistersByDevice(c, deviceId);
      devices := f.value;
      ok := true;
    }

    /** updateDeviceRegisterCount: sets registers and activeRegisters of the device to its register count. */
    method UpdateDeviceRegisterCount(c: Coercion, deviceId: Val, stamp: string)
      modifies this
      ensures devices == Update(old(devices), IdNumber(c, deviceId),
                                CountUpdate(|RegistersOf(c, old(registers), deviceId)|), stamp).0
      ensures registers == old(registers)
    {
      var n := |RegistersOf(c, registers, deviceId)|;
      IdNumberIdempotent(c, deviceId);
      var _ := UpdateDevice(c, IdNumber(c, deviceId), CountUpdate(n), stamp);
    }

    /**
     * addRegister: appends the new register, then recounts the device's registers. The clock
     * is read twice: `stamp` for the register's createdAt, `countStamp` for the device's
     * updatedAt when the count is stored.
     */
    method AddRegister(c: Coercion, deviceId: Val, register: Object, now: real, stamp: string,
                       countStamp: string) returns (r: Val)
      modifies this
      ensures r == Obj(NewRegister(c, deviceId, register, now, stamp))
      ensures registers == old(registers) + [Stored(r)]
      ensures devices == Update(old(devices), IdNumber(c, deviceId),
                                CountUpdate(|RegistersOf(c, registers, deviceId)|), countStamp).0
    {
      r := Obj(NewRegister(c, deviceId, register, now, stamp));
      registers := registers + [Stored(r)];
      UpdateDeviceRegisterCount(c, deviceId, countStamp);
    }

    /**
     * deleteRegister: false, with nothing changed, when no register has this id (compared as
     * given); otherwise removes it and recounts the registers of its device.
     */
    method DeleteRegister(c: Coercion, registerId: Val, stamp: string) returns (ok: bool)
      modifies this
      ensures var s := Find(old(registers), "id", registerId);
              var f := Filter(old(registers), "id", registerId, false);
              if s.FoundAt? && Truthy(old(registers)[s.index]) && f.Some? then
                var owner := OptProp(old(registers)[s.index], "deviceId");
                ok && registers == f.value
                && devices == Update(old(devices), IdNumber(c, owner),
                                     CountUpdate(|RegistersOf(c, f.value, owner)|), stamp).0
              else
                !ok && registers == old(registers) && devices == old(devices)
    {
      var s := Find(registers, "id", registerId);
      if !s.FoundAt? || !Truthy(registers[s.index]) {
        return false;
      }
      var owner := OptProp(registers[s.index], "deviceId");
      var f := Filter(registers, "id", registerId, false);
      if f.None? {
        return false;
      }
      registers := f.value;
      UpdateDeviceRegisterCount(c, owner, stamp);
      ok := true;
    }

    /**
     * importData: false when `data` is null or undefined; otherwise each of data.devices and
     * data.registers that is an array replaces the stored list, and the result is true.
     */
    method ImportData(data: Val) returns (ok: bool)
      modifies this
      ensures ok <==> !Nullish(data)
      ensures var d := OptProp(data, "devices");
              devices == if ok && d.Arr? then StoredAll(d.items) else old(devices)
      ensures var g := OptProp(data, "registers");
              registers == if ok && g.Arr? then StoredAll(g.items) else old(registers)
    {
      var d := Prop(data, "devices");
      if d.None? {
        return false;
      }
      if Truthy(d.value) && d.value.Arr? {
        devices := StoredAll(d.value.items);
      }
      var g := Prop(data, "registers");
      if Truthy(g.value) && g.value.Arr? {
        registers := StoredAll(g.value.items);
      }
      ok := true;
    }

    /** clearAllData: both lists are removed, and initializeData makes them empty. */
    method ClearAllData()
      modifies this
      ensures devices == [] && registers == []
    {
      devices := [];
      registers := [];
    }
  }
}

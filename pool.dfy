/**
 * The connection pool builder of the gateway (ModbusClientFactory.start_connection in
 * gatewayEMS/src/modbus/modbus.py). Devices are grouped by transport key, the serial port
 * for RTU and the host otherwise, and one client is opened per key. Whether a client's
 * connect succeeds is given per device, in configuration order.
 */
module ConnectionPool {
  import opened Wrappers

  /** The protocol field compared with the RTU and TCP enumeration values. */
  datatype Protocol = Rtu | Tcp | Unmapped

  /** One device's configuration; absent entries are None (`dict.get`). */
  datatype DeviceConfig = DeviceConfig(
    protocol: Protocol,
    serialPort: Option<string>,
    host: Option<string>,
    baudrate: Option<string>,
    port: Option<string>,
    slaveId: Option<string>,
    modbusFunction: Option<string>,
    mapPath: Option<string>)

  datatype Device = Device(name: string, config: DeviceConfig)

  /** How `await client.connect()` ended for the client built for a device. */
  datatype ConnectOutcome = Connected | NotConnected | Raised

  /** The client a group owns. */
  datatype Client = SerialClient(port: string, baudrate: Option<string>) | TcpClient(host: string, tcpPort: Option<string>)

  /** The record appended to a group's device list. */
  datatype Entry = Entry(name: string, slave: Option<string>, modbusFunction: Option<string>, mapPath: Option<string>)

  datatype Group = Group(client: Client, devices: seq<Entry>)

  type Pool = map<string, Group>

  /** The transport key, or None when it is missing or empty (`if not client_key`). */
  function KeyOf(c: DeviceConfig): (r: Option<string>)
    ensures r.Some? ==> r.value != ""
    ensures c.protocol == Rtu ==> (r.Some? <==> c.serialPort.Some? && c.serialPort.value != "") && (r.Some? ==> r == c.serialPort)
    ensures c.protocol != Rtu ==> (r.Some? <==> c.host.Some? && c.host.value != "") && (r.Some? ==> r == c.host)
  {
    var key := if c.protocol == Rtu then c.serialPort else c.host;
    if key.Some? && key.value != "" then key else None
  }

  predicate Supported(c: DeviceConfig) {
    c.protocol == Rtu || c.protocol == Tcp
  }

  function ClientFor(c: DeviceConfig, key: string): Client
    requires Supported(c)
  {
    if c.protocol == Rtu then SerialClient(key, c.baudrate) else TcpClient(key, c.port)
  }

  function EntryOf(d: Device): Entry {
    Entry(d.name, d.config.slaveId, d.config.modbusFunction, d.config.mapPath)
  }

  /** A connect is attempted for `d`: it has a key not yet pooled and a mapped protocol. */
  predicate Attempts(pool: Pool, d: Device) {
    KeyOf(d.config).Some? && KeyOf(d.config).value !in pool && Supported(d.config)
  }

  /** One iteration of the loop over the configuration. */
  function AddDevice(pool: Pool, d: Device, outcome: ConnectOutcome): Pool {
    match KeyOf(d.config)
    case None => pool
    case Some(key) =>
      if key in pool then pool[key := pool[key].(devices := pool[key].devices + [EntryOf(d)])]
      else if !Supported(d.config) || outcome != Connected then pool
      else pool[key := Group(ClientFor(d.config, key), [EntryOf(d)])]
  }

  /** The pool after the first |devices| devices, starting from an empty map. */
  function Build(devices: seq<Device>, outcomes: seq<ConnectOutcome>): (r: Pool)
    requires |devices| == |outcomes|
    ensures |r| <= |devices|
    ensures forall key :: key in r ==> key != "" && r[key].devices != []
    decreases |devices|
  {
    if devices == [] then map[]
    else
      var n := |devices| - 1;
      var pool := Build(devices[..n], outcomes[..n]);
      AddDeviceGrows(pool, devices[n], outcomes[n]);
      AddDevice(pool, devices[n], outcomes[n])
  }

  /** One device adds at most one key, and every group it touches or opens holds a device. */
  lemma AddDeviceGrows(pool: Pool, d: Device, outcome: ConnectOutcome)
    requires forall key :: key in pool ==> key != "" && pool[key].devices != []
    ensures |AddDevice(pool, d, outcome)| <= |pool| + 1
    ensures forall key :: key in AddDevice(pool, d, outcome) ==>
              key != "" && AddDevice(pool, d, outcome)[key].devices != []
  {
    var key := KeyOf(d.config);
    if key.Some? {
      assert pool[key.value := Group(TcpClient("", None), [])].Keys == pool.Keys + {key.value};
    }
  }

  /** The connect attempts made, as (key, outcome) pairs in order. */
  function ConnectAttempts(devices: seq<Device>, outcomes: seq<ConnectOutcome>): seq<(string, ConnectOutcome)>
    requires |devices| == |outcomes|
    decreases |devices|
  {
    if devices == [] then []
    else
      var n := |devices| - 1;
      ConnectAttempts(devices[..n], outcomes[..n])
        + (if Attempts(Build(devices[..n], outcomes[..n]), devices[n]) then [(KeyOf(devices[n].config).value, outcomes[n])] else [])
  }

  /** One more device extends the pool and the attempts by one loop iteration. */
  lemma BuildStep(devices: seq<Device>, outcomes: seq<ConnectOutcome>, i: nat)
    requires |devices| == |outcomes| && i < |devices|
    ensures Build(devices[..i + 1], outcomes[..i + 1])
            == AddDevice(Build(devices[..i], outcomes[..i]), devices[i], outcomes[i])
    ensures ConnectAttempts(devices[..i + 1], outcomes[..i + 1])
            == ConnectAttempts(devices[..i], outcomes[..i])
               + (if Attempts(Build(devices[..i], outcomes[..i]), devices[i])
                  then [(KeyOf(devices[i].config).value, outcomes[i])] else [])
  {
    assert devices[..i + 1][..i] == devices[..i];
    assert outcomes[..i + 1][..i] == outcomes[..i];
  }

  /** Device i opens the group for `key`: it has that key, a mapped protocol, and connected. */
  predicate Creates(d: Device, outcome: ConnectOutcome, key: string) {
    KeyOf(d.config) == Some(key) && Supported(d.config) && outcome == Connected
  }

  /** The first device that opens the group for `key`, if any. */
  function FirstCreator(devices: seq<Device>, outcomes: seq<ConnectOutcome>, key: string): (r: Option<nat>)
    requires |devices| == |outcomes|
    ensures r.Some? ==> r.value < |devices| && Creates(devices[r.value], outcomes[r.value], key)
    ensures r.Some? ==> forall j :: 0 <= j < r.value ==> !Creates(devices[j], outcomes[j], key)
    ensures r.None? ==> forall j :: 0 <= j < |devices| ==> !Creates(devices[j], outcomes[j], key)
    decreases |devices|
  {
    if devices == [] then None
    else
      var n := |devices| - 1;
      var f := FirstCreator(devices[..n], outcomes[..n], key);
      if f.Some? then f
      else if Creates(devices[n], outcomes[n], key) then Some(n)
      else None
  }

  /** The entries of the devices whose key is `key`, in order. */
  function Members(devices: seq<Device>, key: string): seq<Entry>
    decreases |devices|
  {
    if devices == [] then []
    else
      var n := |devices| - 1;
      Members(devices[..n], key) + (if KeyOf(devices[n].config) == Some(key) then [EntryOf(devices[n])] else [])
  }

  lemma MembersOfSuffix(devices: seq<Device>, f: nat, key: string)
    requires f < |devices|
    ensures Members(devices[f..], key)
      == Members(devices[..|devices| - 1][f..], key)
         + (if KeyOf(devices[|devices| - 1].config) == Some(key) then [EntryOf(devices[|devices| - 1])] else [])
  {
    var n := |devices| - 1;
    if f < |devices| {
      assert devices[f..][..|devices[f..]| - 1] == devices[..n][f..];
    }
  }

  /**
   * What the pool holds for every key: a group exists exactly when some device with that key
   * and a mapped protocol connected; its client is built from the first such device; and its
   * device list is every device with that key from that one on, in configuration order.
   * Devices before the first successful connect, and devices with no key, are in no group.
   */
  lemma {:induction false} BuildCharacterised(devices: seq<Device>, outcomes: seq<ConnectOutcome>, key: string)
    requires |devices| == |outcomes|
    ensures key in Build(devices, outcomes) <==> FirstCreator(devices, outcomes, key).Some?
    ensures key in Build(devices, outcomes) ==>
      var f := FirstCreator(devices, outcomes, key).value;
      Build(devices, outcomes)[key] == Group(ClientFor(devices[f].config, key), Members(devices[f..], key))
    decreases |devices|
  {
    if devices != [] {
      var n := |devices| - 1;
      var before := Build(devices[..n], outcomes[..n]);
      BuildCharacterised(devices[..n], outcomes[..n], key);
      var f := FirstCreator(devices[..n], outcomes[..n], key);
      if f.Some? {
        MembersOfSuffix(devices, f.value, key);
      } else if Creates(devices[n], outcomes[n], key) {
        assert devices[n..] == [devices[n]];
        assert devices[n..][..0] == [];
      }
    }
  }

  /** How many times a (key, outcome) pair occurs in the attempt log. */
  function Occurrences(log: seq<(string, ConnectOutcome)>, attempt: (string, ConnectOutcome)): nat {
    multiset(log)[attempt]
  }

  /**
   * At most one client per key is ever connected: the successful connects for a key number
   * one if the key is pooled and zero otherwise.
   */
  lemma {:induction false} OneConnectPerKey(devices: seq<Device>, outcomes: seq<ConnectOutcome>, key: string)
    requires |devices| == |outcomes|
    ensures Occurrences(ConnectAttempts(devices, outcomes), (key, Connected)) == if key in Build(devices, outcomes) then 1 else 0
    decreases |devices|
  {
    if devices != [] {
      var n := |devices| - 1;
      OneConnectPerKey(devices[..n], outcomes[..n], key);
      var pool := Build(devices[..n], outcomes[..n]);
      var log := ConnectAttempts(devices[..n], outcomes[..n]);
      var added := if Attempts(pool, devices[n]) then [(KeyOf(devices[n].config).value, outcomes[n])] else [];
      assert Build(devices, outcomes) == AddDevice(pool, devices[n], outcomes[n]);
      assert ConnectAttempts(devices, outcomes) == log + added;
      assert multiset(log + added) == multiset(log) + multiset(added);
      assert key in AddDevice(pool, devices[n], outcomes[n]) <==>
        key in pool || (Attempts(pool, devices[n]) && KeyOf(devices[n].config).value == key && outcomes[n] == Connected);
    }
  }

  /** A failed connect adds nothing, so the next device with that key attempts again. */
  lemma RetryAfterFailedConnect(pool: Pool, d: Device, e: Device, outcome: ConnectOutcome)
    requires Attempts(pool, d) && outcome != Connected
    requires KeyOf(e.config) == KeyOf(d.config) && Supported(e.config)
    ensures AddDevice(pool, d, outcome) == pool
    ensures Attempts(AddDevice(pool, d, outcome), e)
  {
  }

  /** The factory object: `clients` is rebuilt by every start_connection. */
  class ModbusClientFactory {
    const configDict: seq<Device>
    var clients: Pool
    /** Every connect attempted so far, with its outcome, oldest first. */
    var attempts: seq<(string, ConnectOutcome)>

    constructor (configDict: seq<Device>)
      ensures this.configDict == configDict && clients == map[] && attempts == []
    {
      this.configDict := configDict;
      clients := map[];
      attempts := [];
    }

    /** The body of the loop in `start_connection` for one device. */
    method AddToClients(d: Device, outcome: ConnectOutcome)
      modifies this
      ensures clients == AddDevice(old(clients), d, outcome)
      ensures attempts == old(attempts) + (if Attempts(old(clients), d) then [(KeyOf(d.config).value, outcome)] else [])
    {
      var key := KeyOf(d.config);
      if key.Some? {
        var k := key.value;
        if k !in clients {
          if Supported(d.config) {
            attempts := attempts + [(k, outcome)];
            if outcome == Connected {
              clients := clients[k := Group(ClientFor(d.config, k), [EntryOf(d)])];
            }
          }
        } else {
          clients := clients[k := clients[k].(devices := clients[k].devices + [EntryOf(d)])];
        }
      }
    }

    /**
     * `start_connection`, with the connect outcome of the client built for each device
     * given in configuration order. Returns the new pool, which does not depend on the old one.
     */
    method StartConnection(outcomes: seq<ConnectOutcome>) returns (pool: Pool)
      requires |outcomes| == |configDict|
      modifies this
      ensures pool == clients == Build(configDict, outcomes)
      ensures attempts == old(attempts) + ConnectAttempts(configDict, outcomes)
    {
      clients := map[];
      var i := 0;
      while i < |configDict|
        invariant 0 <= i <= |configDict|
        invariant clients == Build(configDict[..i], outcomes[..i])
        invariant attempts == old(attempts) + ConnectAttempts(configDict[..i], outcomes[..i])
      {
        AddToClients(configDict[i], outcomes[i]);
        BuildStep(configDict, outcomes, i);
        i := i + 1;
      }
      assert configDict[..i] == configDict;
      assert outcomes[..i] == outcomes;
      pool := clients;
    }
  }
}

# EMS gateway: a verified model

This project models the core of an energy-management (EMS) gateway. The gateway polls
Modbus devices and comes with a browser client for configuring them.

## Gateway (Python)

- **Watchdog** (`watchdog.dfy`) models the edge detector on the command file.
  - Two command values, `connect` and `readstart`, are compared with the last pair seen.
  - The state machine is dispatched only when one of them changes.
- **Orchestrator** (`orchestrator.dfy`) models the connect/read state machine of `main_loop`.
  - Its state is `is_connected` and an optional read-task handle.
  - Invariant: a read task exists only while connected.
- **ConnectionPool** (`pool.dfy`) models the pool builder.
  - Devices are grouped by transport key: the serial port for RTU, the host otherwise.
  - There is at most one client per key.
- **RegisterReader** (`reader.dfy`) models the multi-slave reader.
  - It covers Read Holding Registers (0x03) and Read Input Registers (0x04), sections 6.3 and 6.4 of the Modbus Application Protocol Specification V1.1b3.
  - Scalar arguments are broadcast and list lengths are checked.
  - Each slave's entry concatenates its successful sub-reads in request order.
- **IniConfig** (`ini_config.dfy`) models the INI configuration manager.
  - It covers device sections, lookups with fallbacks, and the comma-separated `MAIN_MODBUS` device list.
  - One class models both copies of `config.py`. The gateway copy (`gatewayEMS/src/config/config.py`) is line for line the API copy (`gatewayApi/src/config/config.py`) up to line 90, without the two list methods. Rows about the shared methods cite one copy or the other.

## Web client (JavaScript)

- **EmsData** (`data_manager.dfy`) models the browser-side device and register store, `EMSDataManager`.
- **AppReducer** (`app_reducer.dfy`) models the application reducer.
- **DeviceList** (`device_list.dfy`) models the device list hook: statistics, filters, sort, selection and the filter description.
- **Validators**:
  - `validateRegisterData` (`register_validation.dfy`);
  - the device page's `validateDeviceData` and its save gate (`device_validation.dfy`);
  - the device dialog (`device_modal.dfy`);
  - the register dialog (`register_modal.dfy`);
  - the plain register form (`register_form.dfy`);
  - the register-form hook (`register_form_hook.dfy`).
- **Utils** (`utils.dfy`) models `capitalizar`.

## Modelling choices

Shared modules:

- **Js** models JavaScript values.
  - It covers truthiness, property reads that throw on null and undefined, strict equality, object spread and `some`/`filter`/`find`.
  - Numeric coercion is a `Coercion` oracle. It gives what `Number`, `parseInt` and `parseFloat` make of a string.
- **Text** models trimming with the whitespace of `String.prototype.trim`, ASCII case mapping, and splitting and joining on a separator.
- **PyValue** models the JSON scalars as Python sees them: None, bool, int, finite float and str, with `==` comparing numbers by value across bool, int and float.
- **Forms** models the field-by-field error objects of the web forms.
- **Wrappers** provides Option.

Conventions:

- An operation that can throw a TypeError returns `Option`, with `None` for the throw.
- Code that updates state in place becomes a class with `modifies` clauses:
  - the watchdog, the state machine, the pool builder and the reader client;
  - the config manager and the data store;
  - the dialogs and the list view.
- Pure code becomes functions and lemmas: the reducer, the validators and the filters.
- The sort of the device list runs in place on an array.

## Model

| member | source | states |
|---|---|---|
| Watchdog.CheckKeys | gatewayEMS/src/core/watchdog.py:22-26 | construction succeeds exactly when both command key names are defined; a missing `connect` name is reported before a missing `readstart` name |
| Watchdog.ReadCommand | gatewayEMS/src/core/watchdog.py:84-89 | a file that does not decode to a JSON object yields no pair; a key absent from the object reads as False, a present key yields its value |
| Watchdog.Detect | gatewayEMS/src/core/watchdog.py:88-111 | a pair is submitted exactly when the file is an object and either value differs from the stored pair; the submitted pair becomes the stored pair, and without a submission the stored pair is unchanged |
| Watchdog.MalformedSubmitsNothing | gatewayEMS/src/core/watchdog.py:113-116 | an unreadable or malformed file submits nothing and leaves the stored pair as it was |
| Watchdog.FirstReadSubmits | gatewayEMS/src/core/watchdog.py:36-37 | from the initial (None, None) pair the first read submits exactly when one of the two values is not JSON null; a file lacking the connect key always submits |
| Watchdog.RereadSubmitsNothing | gatewayEMS/src/core/watchdog.py:92-95 | reading the same file again right after a check submits nothing and keeps the stored pair |
| Watchdog.TrueToOneIsNoChange | gatewayEMS/src/core/watchdog.py:92-93 | Python's `!=` treats True as equal to 1 and to 1.0, so rewriting `true` as `1` or `1.0` in the file dispatches nothing |
| Watchdog.RunAsyncMainLoop | gatewayEMS/src/core/watchdog.py:129-139 | the future yields main_loop's value, or None when main_loop raised or exceeded the 30-second bound |
| Watchdog.BaseWatchdog.constructor | gatewayEMS/src/core/watchdog.py:22-38 | a watchdog whose key checks passed starts with the (None, None) pair stored and nothing submitted |
| Watchdog.BaseWatchdog.CheckVariablesAndExecute | gatewayEMS/src/core/watchdog.py:81-116 | the stored pair follows `Detect`; on a change exactly one submission is appended, and main_loop has stepped the orchestrator unless the dispatch raised; without a change nothing else changes |
| Watchdog.BaseWatchdog.OnModified | gatewayEMS/src/core/watchdog.py:75-79 | an event for any other path changes nothing; an event for the command file runs check_variables_and_execute: the stored pair follows `Detect`, a change appends exactly one submission carrying how main_loop ended, and the orchestrator state and effects are main_loop's step unless it raised; without a change nothing else changes |
| Watchdog.BaseWatchdog.Start | gatewayEMS/src/core/watchdog.py:40-49 | the initial check runs once: the stored pair follows `Detect`; one submission is appended exactly when `Detect` submits, the orchestrator has taken main_loop's step unless it raised, and otherwise the submissions, the state and the effects are unchanged |
| Watchdog.NewWatchdog | gatewayEMS/src/core/watchdog.py:22-38 | `__init__` fails with the `CheckKeys` error exactly when a key is missing; otherwise it yields a fresh watchdog with the given keys and the (None, None) pair |
| Orchestrator.StopRead | gatewayEMS/main.py:38-47 | afterwards no read task is held, whether or not one ran; the connection flag is untouched; a stop is performed exactly when a task existed |
| Orchestrator.Step | gatewayEMS/main.py:16-36 | after main_loop the gateway is connected exactly when asked to be and reading exactly when connected and asked to read; it connects only from disconnected, disconnects only from connected, starts a read task only when none runs and stops one exactly when a running task is no longer wanted |
| Orchestrator.StepIdempotent | gatewayEMS/main.py:20-36 | a repeated main_loop call with the same pair changes nothing and performs nothing |
| Orchestrator.NoReadWithoutConnect | gatewayEMS/main.py:27-36 | readstart=true with connect=false never starts a read task and leaves none running |
| Orchestrator.StepBalance | gatewayEMS/main.py:27-36 | from a consistent state, one call's starts minus stops equal the change in running read tasks, and its connects minus disconnects the change in connection |
| Orchestrator.RunBalance | gatewayEMS/main.py:27-36 | over any sequence of commands the state stays consistent (no read task without a connection) and starts/stops, connects/disconnects balance, so there is never more than one read task |
| Orchestrator.ConnectToggleTrace | gatewayEMS/main.py:20-24 | connect false, true, true, false from the start connects once and disconnects once and ends disconnected |
| Orchestrator.PrintTaskWatchdog.constructor | gatewayEMS/main.py:10-14 | the gateway starts disconnected with no read task and nothing done |
| Orchestrator.PrintTaskWatchdog.StopReadTask | gatewayEMS/main.py:38-47 | no read task afterwards; a stop is logged exactly when one was running |
| Orchestrator.PrintTaskWatchdog.TaskConnect | gatewayEMS/main.py:49-51 | sets the connection flag and leaves the read task alone |
| Orchestrator.PrintTaskWatchdog.TaskDisconnect | gatewayEMS/main.py:69-72 | stops any read task, then reports the disconnection |
| Orchestrator.PrintTaskWatchdog.MainLoop | gatewayEMS/main.py:16-36 | the new state and the performed effects are those of `Step` on the truthiness of the two values, and the state is consistent afterwards |
| ConnectionPool.KeyOf | gatewayEMS/src/modbus/modbus.py:25-32 | the transport key is the serial port for an RTU device and the host otherwise; a missing or empty key gives none, and the device is skipped |
| ConnectionPool.FirstCreator | gatewayEMS/src/modbus/modbus.py:36-61 | finds the first device that opens the group for a key (that key, a mapped protocol, a successful connect), and no earlier device does |
| ConnectionPool.MembersOfSuffix | gatewayEMS/src/modbus/modbus.py:64-69 | the devices registered under a key from a given position on are those of the prefix plus the last device when it has that key |
| ConnectionPool.BuildCharacterised | gatewayEMS/src/modbus/modbus.py:22-77 | a key is pooled exactly when some device with that key and a mapped protocol connected; its client is built from the first such device, and its device list holds every device with that key from that one on, in configuration order |
| ConnectionPool.OneConnectPerKey | gatewayEMS/src/modbus/modbus.py:36-61 | at most one client per key is ever connected: the successful connects for a key number one when it is pooled and zero otherwise |
| ConnectionPool.RetryAfterFailedConnect | gatewayEMS/src/modbus/modbus.py:51-55 | a failed or raising connect adds nothing, so the next device with the same key attempts a connect again |
| ConnectionPool.ModbusClientFactory.constructor | gatewayEMS/src/modbus/modbus.py:8-14 | a factory holds its configuration and an empty pool |
| ConnectionPool.ModbusClientFactory.AddToClients | gatewayEMS/src/modbus/modbus.py:25-72 | one pass of the loop: the pool becomes `AddDevice` of the old pool (join the key's group, or open it after a successful connect of a mapped protocol, or skip), and a connect attempt is logged exactly when the key is new and the protocol mapped |
| ConnectionPool.ModbusClientFactory.StartConnection | gatewayEMS/src/modbus/modbus.py:16-77 | the pool is rebuilt from scratch and equals `Build` of the configuration and the connect outcomes; the attempts made are logged in order |
| RegisterReader.ReadSlaveData | gatewayEMS/src/modbus/read.py:7-31 | a request is sent exactly when the client is connected and the function code is 3 or 4; code 3 reads holding registers and code 4 input registers with the given slave, address and count; an error response or a raised read gives None, a successful one its registers |
| RegisterReader.Repeat | gatewayEMS/src/modbus/read.py:55-58 | `[n] * k`: k copies of n |
| RegisterReader.Zip | gatewayEMS/src/modbus/read.py:64 | pairs the i-th address with the i-th count |
| RegisterReader.AsList | gatewayEMS/src/modbus/read.py:53-54 | a single slave id becomes a one-element list; a list is kept |
| RegisterReader.Copies | gatewayEMS/src/modbus/read.py:55-58 | n copies of one (address, count) pair |
| RegisterReader.BroadcastAsWritten | gatewayEMS/src/modbus/read.py:53-62 | as written: a scalar address and count are repeated once per slave, so every slave reads the same pair as many times as there are slaves; two lists must have equal lengths |
| RegisterReader.Broadcast | gatewayEMS/src/modbus/read.py:53-62 | corrected: a scalar address and count give one pair; every other combination is normalised as written (a scalar beside a list repeated per slave, two lists zipped when their lengths agree); the slave list is kept |
| RegisterReader.SubReads | gatewayEMS/src/modbus/read.py:64 | one slave's sub-reads are `read_slave_data` over the pairs in request order |
| RegisterReader.FlattenAppend | gatewayEMS/src/modbus/read.py:72 | concatenating the successful sub-reads distributes over appending runs of sub-reads |
| RegisterReader.AllFailedIsEmpty | gatewayEMS/src/modbus/read.py:72 | a slave whose sub-reads all failed maps to an empty list rather than being missing |
| RegisterReader.FailedSubReadIsSkipped | gatewayEMS/src/modbus/read.py:72 | a failed sub-read contributes nothing and leaves the others in order |
| RegisterReader.BatchResult | gatewayEMS/src/modbus/read.py:64-73 | the result has exactly one entry per distinct slave id, each that slave's concatenated reads |
| RegisterReader.BatchResultStep | gatewayEMS/src/modbus/read.py:64-73 | adding one more slave to the list adds (or overwrites) that slave's entry |
| RegisterReader.InvalidCodeSendsNothing | gatewayEMS/src/modbus/read.py:16-17 | a function code other than 3 and 4 sends no request and every slave maps to an empty list |
| RegisterReader.SentNothing | gatewayEMS/src/modbus/read.py:12-17 | sub-reads that sent nothing contribute no request |
| RegisterReader.BroadcastDuplicatesReads | gatewayEMS/src/modbus/read.py:55-58 | with slaves [1, 2], address 100 and count 2, the as-written normalisation gives slave 1 four values [7, 8, 7, 8] where one read of two registers was requested; the corrected one gives [7, 8] |
| RegisterReader.MixedScalarKeptAsWritten | gatewayEMS/src/modbus/read.py:55-62 | slaves [1], address 100 and counts [2, 3] still raise ValueError, as written: the scalar is repeated once per slave, not per count |
| RegisterReader.ScalarsReadOnce | gatewayEMS/src/modbus/read.py:53-72 | with scalar address and count each slave's entry is exactly its single read's registers, or empty when that read failed |
| RegisterReader.ModbusClient.constructor | gatewayEMS/src/modbus/read.py:34-40 | a client with the given connection state and nothing done yet |
| RegisterReader.ModbusClient.Connect | gatewayEMS/src/modbus/read.py:46-47 | one connect call, whose success sets the connection flag |
| RegisterReader.ModbusClient.Close | gatewayEMS/src/modbus/read.py:74 | one close call; the client is disconnected afterwards |
| RegisterReader.ModbusClient.ReadSlaveOnce | gatewayEMS/src/modbus/read.py:7-31 | returns `ReadSlaveData` on the current connection and logs exactly the request it sent |
| RegisterReader.ModbusClient.ReadSlave | gatewayEMS/src/modbus/read.py:64-72 | one slave's entry is `SlaveEntry` over all pairs, and the requests are sent in pair order |
| RegisterReader.ModbusClient.ReadBatch | gatewayEMS/src/modbus/read.py:64-73 | the batch result equals `BatchResult`, the requests are sent slave by slave and pair by pair |
| RegisterReader.ModbusClient.ReadRegisters | gatewayEMS/src/modbus/read.py:34-75 | at most one reconnect; ConnectionError exactly when still disconnected; ValueError before any read exactly when the argument lists mismatch; otherwise the per-slave result of the corrected broadcast, and the client is closed |
| IniConfig.Get | gatewayEMS/src/config/config.py:47-49 | `config.get` with a fallback: the section's own option (names lower-cased), else the DEFAULT section's, else the fallback; a section that does not exist gives the fallback |
| IniConfig.SectionDict | gatewayEMS/src/config/config.py:51-55 | a section that `in` rejects gives {}; DEFAULT alone gives its own options; any other section gives exactly the DEFAULT options and its own, its own value winning and a DEFAULT-only option keeping the DEFAULT value |
| IniConfig.SectionDictAgreesWithGet | gatewayEMS/src/config/config.py:47-55 | for a section that exists, an option is in the dictionary exactly when `get` without a fallback finds it, with the same value |
| IniConfig.LastValue | gatewayEMS/src/config/config.py:66-67 | the value written last for an option is that of the last pair naming it, and there is none exactly when no pair names it |
| IniConfig.SetAllEffect | gatewayEMS/src/config/config.py:66-67 | after the pairs are set, each named option holds str() of its last value (a float through Python's float repr) and every other option keeps its old value or stays absent |
| IniConfig.ParseList | gatewayApi/src/config/config.py:99-100 | every entry the comma-list parser yields is non-empty, trimmed and free of commas |
| IniConfig.KeepTrimmedClean | gatewayApi/src/config/config.py:100 | keeping the non-blank trimmed pieces yields only clean entries |
| IniConfig.KeepClean | gatewayApi/src/config/config.py:100 | a list of clean entries passes the trim-and-filter step unchanged |
| IniConfig.ParseJoin | gatewayApi/src/config/config.py:99-104 | a list of clean entries written with `','.join` reads back as the same list |
| IniConfig.AddToList | gatewayApi/src/config/config.py:102-103 | the name is in the list afterwards; it is appended exactly when it was absent, and the list is unchanged otherwise |
| IniConfig.RemoveFirst | gatewayApi/src/config/config.py:123-124 | `list.remove` of a present name drops exactly its first occurrence and keeps the rest in order (`list[..i] + list[i+1..]` with i the first index); an absent name leaves the list unchanged |
| IniConfig.FirstIndex | gatewayApi/src/config/config.py:123-124 | the index `list.remove` deletes: it holds the name, and no earlier entry does |
| IniConfig.RemoveAfterAdd | gatewayApi/src/config/config.py:102-124 | removing a name just appended to a list that lacked it restores the list |
| IniConfig.CleanAppend | gatewayApi/src/config/config.py:103 | appending a clean entry to a clean list keeps it clean |
| IniConfig.ListableIsClean | gatewayApi/src/config/config.py:95 | a device name without commas or surrounding whitespace gives a clean `DEVICE_` section name |
| IniConfig.DevicesKeyIsLowerCase | gatewayApi/src/config/config.py:99 | the `devices` option name is unchanged by configparser's lower-casing |
| IniConfig.DevicesValueIsGet | gatewayApi/src/config/config.py:99 | the list text the methods read is `config.get('MAIN_MODBUS', 'devices', fallback='')` |
| IniConfig.ModbusListAfterSet | gatewayApi/src/config/config.py:104 | a clean list written to MAIN_MODBUS reads back unchanged |
| IniConfig.WithModbusSection | gatewayApi/src/config/config.py:96-97 | afterwards the MAIN_MODBUS section exists |
| IniConfig.AddToModbusListIdempotent | gatewayApi/src/config/config.py:92-111 | after `add_device_in_Modbus_list` the device's section name is in the list, and a second call leaves the configuration as the first left it |
| IniConfig.EraseAfterAdd | gatewayApi/src/config/config.py:113-131 | erasing a device just added to a list that lacked it restores the list |
| IniConfig.ConfigManager.constructor | gatewayApi/src/config/config.py:10-23 | the manager holds the parsed configuration it is given |
| IniConfig.ConfigManager.GetValue | gatewayEMS/src/config/config.py:47-49 | `get_value` is `Get` on the held configuration |
| IniConfig.ConfigManager.GetSectionDict | gatewayEMS/src/config/config.py:51-55 | `get_section_dict` is `SectionDict` on the held configuration |
| IniConfig.ConfigManager.AddDeviceSection | gatewayApi/src/config/config.py:57-74 | the `DEVICE_<name>` section is created if absent and each pair is set in order (`SetAll`), every other section unchanged; the result is whether the file write succeeded |
| IniConfig.ConfigManager.RemoveDeviceSection | gatewayEMS/src/config/config.py:76-86 | a section named exactly as given is removed and the result is the write's success; a missing one changes nothing and gives False |
| IniConfig.ConfigManager.AddDeviceInModbusList | gatewayApi/src/config/config.py:92-111 | the configuration becomes `AddToModbusList`; the result is True when the name was already listed, else the write's success |
| IniConfig.ConfigManager.EraseDeviceInModbusList | gatewayApi/src/config/config.py:113-131 | without MAIN_MODBUS nothing changes and the result is False; otherwise the first occurrence of the section name is removed when listed (result: the write's success), and nothing changes with result True when it is not |
| EmsData.IdNumber | WebServer/src/utils/EMSDataManager.js:95 | `parseInt(id)` as the id comparisons use it is always a number or NaN |
| EmsData.IdNumberIdempotent | WebServer/src/utils/EMSDataManager.js:316 | parsing an already parsed id gives it back, so `updateDeviceRegisterCount` passing `parseInt(deviceId)` on to `updateDevice` is harmless |
| EmsData.MatchedByNumberIsObject | WebServer/src/utils/EMSDataManager.js:149 | an entry whose id is strictly equal to a parsed id is an object holding that number |
| EmsData.Stored | WebServer/src/utils/EMSDataManager.js:50-56 | an entry after `JSON.stringify` and `JSON.parse`: an object keeps its kind and drops exactly its undefined properties, NaN properties become null, every other property is kept |
| EmsData.StoredIdempotent | WebServer/src/utils/EMSDataManager.js:36-56 | saving an entry read back from storage stores it unchanged |
| EmsData.StoredAll | WebServer/src/utils/EMSDataManager.js:50-56 | a list after saving holds each entry as `Stored` leaves it, in order |
| EmsData.NewDevice | WebServer/src/utils/EMSDataManager.js:66-72 | the new device has the input's properties plus id, status, lastRead and createdAt; status is 'Disconnected' and lastRead 'Never' whatever the input says; the id is the input's id if given, else the timestamp |
| EmsData.NewRegister | WebServer/src/utils/EMSDataManager.js:210-218 | the new register has the input's properties plus id, deviceId and the four fixed fields; status 'success', lastValue '0', lastUpdate 'Never' override the input; id and deviceId come from the input when it has them, else the timestamp and `parseInt(deviceId)` |
| EmsData.Merge | WebServer/src/utils/EMSDataManager.js:104-108 | `{...entry, ...updates, updatedAt}`: updates win over the entry, the stamp wins over both, no property is lost |
| EmsData.Update | WebServer/src/utils/EMSDataManager.js:89-118 | the entry found by id is replaced by its merge with the updates (stored form) and the merge is returned; every other entry is unchanged; when no entry is found, or a nullish entry makes the search throw, the list is unchanged and the result is null |
| EmsData.UpdateUnknownId | WebServer/src/utils/EMSDataManager.js:99-102 | an id that no entry carries leaves the list as it was and yields null |
| EmsData.RegistersOf | WebServer/src/utils/EMSDataManager.js:179-187 | only registers of the device are returned; when no entry is nullish, the result is exactly the registers whose deviceId is the parsed id, in their stored order and with their multiplicity, and their number is that count; a nullish entry makes the filter throw and gives [] |
| EmsData.DeviceById | WebServer/src/utils/EMSDataManager.js:146-154 | the result is null or an object; an object is the first device whose id is the parsed id, with no nullish entry and no match before it; null exactly when there is no such device (none matches, or a nullish entry before the first match makes `find` throw) |
| EmsData.StatsOf | WebServer/src/utils/EMSDataManager.js:378-394 | when no entry is nullish: total devices and total registers are the list lengths, connected devices the count with status 'Connected', active registers the count with status 'success'; a nullish entry in either list makes a filter throw and every count is 0 |
| EmsData.AllKept | WebServer/src/utils/EMSDataManager.js:385 | a filter whose test accepts every entry keeps the whole list in order |
| EmsData.EmsDataManager.constructor | WebServer/src/utils/EMSDataManager.js:6-26 | a store on empty storage holds two empty lists |
| EmsData.EmsDataManager.AddDevice | WebServer/src/utils/EMSDataManager.js:63-81 | returns `NewDevice` and appends its stored form; registers untouched |
| EmsData.EmsDataManager.UpdateDevice | WebServer/src/utils/EMSDataManager.js:89-118 | the device list and result are those of `Update` with `parseInt(deviceId)`; registers untouched |
| EmsData.EmsDataManager.UpdateRegister | WebServer/src/utils/EMSDataManager.js:239-269 | the register list and result are those of `Update` with `parseInt(registerId)`; devices untouched |
| EmsData.EmsDataManager.DeleteRegistersByDevice | WebServer/src/utils/EMSDataManager.js:299-307 | drops exactly the registers of `parseInt(deviceId)`; a throwing filter changes nothing |
| EmsData.EmsDataManager.DeleteDevice | WebServer/src/utils/EMSDataManager.js:125-139 | drops the devices whose id equals the id as given (not parsed) and the registers of the parsed id; false, with nothing changed, only when the device filter throws |
| EmsData.EmsDataManager.UpdateDeviceRegisterCount | WebServer/src/utils/EMSDataManager.js:313-323 | the device's registers and activeRegisters become the number of its registers; registers untouched |
| EmsData.EmsDataManager.AddRegister | WebServer/src/utils/EMSDataManager.js:207-231 | returns `NewRegister`, appends its stored form, then recounts the device's registers, stamping the device with the second clock reading |
| EmsData.EmsDataManager.DeleteRegister | WebServer/src/utils/EMSDataManager.js:276-293 | false with nothing changed when no register has the id as given; otherwise the register is removed and its device's count is recomputed from the remaining registers |
| EmsData.EmsDataManager.ImportData | WebServer/src/utils/EMSDataManager.js:346-359 | false exactly when `data` is null or undefined; otherwise each of devices and registers that is an array replaces the stored list and the other lists stay |
| EmsData.EmsDataManager.ClearAllData | WebServer/src/utils/EMSDataManager.js:364-372 | both lists are empty afterwards |
| AppReducer.Updates | WebServer/src/context/AppReducer.jsx:3-87 | the object literal after `...state` writes exactly the properties its case lists; the values are stated per case in the lemmas below |
| AppReducer.LoginFlagValues | WebServer/src/context/AppReducer.jsx:3-8 | LOGIN_START sets isLoading to true and error to null; LOGIN_END sets isLoading to false |
| AppReducer.SessionValues | WebServer/src/context/AppReducer.jsx:5-16 | LOGIN_SUCCESS and HYDRATE_SESSION throw exactly for a null or undefined payload; otherwise user and token are the payload's, error is null, and LOGIN_SUCCESS also sets isLoading to false |
| AppReducer.SettersStorePayload | WebServer/src/context/AppReducer.jsx:13-87 | SET_LOADING stores the payload in loading, SET_DEVICES and SET_REGISTERS in their list and clear loading, SET_SELECTED_DEVICE in selectedDevice; CLEAR_ERROR sets error to null |
| AppReducer.Appended | WebServer/src/context/AppReducer.jsx:37 | `[...list, p]` exists exactly for an array or a string: an array keeps its items, a string spreads into its one-character strings, and p comes last |
| AppReducer.Reduce | WebServer/src/context/AppReducer.jsx:1-93 | an unknown action type returns the state itself; any other returns a new object with the state's properties plus the case's, every property the case does not write carried over unchanged |
| AppReducer.AddDeviceAppends | WebServer/src/context/AppReducer.jsx:34-39 | ADD_DEVICE puts the payload at the end of the devices array and clears loading |
| AppReducer.UpdateDeviceReplaces | WebServer/src/context/AppReducer.jsx:41-51 | UPDATE_DEVICE succeeds exactly when devices is an array of non-nullish entries and the payload is not nullish; it keeps the length, replaces exactly the entries with the payload's id, replaces selectedDevice when its id matches, and clears loading |
| AppReducer.DeleteDeviceRemoves | WebServer/src/context/AppReducer.jsx:53-61 | DELETE_DEVICE succeeds exactly when devices is an array of non-nullish entries; it keeps exactly the devices whose id is not the payload, in order and with their multiplicity, sets selectedDevice to null when its id is the payload, and clears loading |
| AppReducer.AddRegisterAppends | WebServer/src/context/AppReducer.jsx:63-68 | ADD_REGISTER puts the payload at the end of the registers array and clears loading |
| AppReducer.UpdateRegisterReplaces | WebServer/src/context/AppReducer.jsx:70-77 | UPDATE_REGISTER throws exactly when registers is not an array, holds a nullish entry, or is non-empty with a nullish payload; otherwise it keeps the length, replaces exactly the entries with the payload's id by the payload, keeps every other entry in place, and clears loading |
| AppReducer.DeleteRegisterRemoves | WebServer/src/context/AppReducer.jsx:79-84 | DELETE_REGISTER throws exactly when registers is not an array or holds a nullish entry; otherwise it keeps exactly the registers whose id is not the payload, in order and with their multiplicity, and clears loading |
| AppReducer.LogoutClearsSession | WebServer/src/context/AppReducer.jsx:9-10 | LOGOUT clears the user, the token and the error, and stops isLoading |
| AppReducer.ErrorsStopLoading | WebServer/src/context/AppReducer.jsx:11-23 | LOGIN_ERROR and SET_ERROR store the payload as the error and clear their own loading flag |
| RegisterValidation.RangeError | WebServer/src/utils/registerValidation.js:52-60 | no range error exactly when the device range applies to nothing or the parsed address lies within it; the range test runs when the device gives a start address and a register count; an address below the start is reported even when the count parses to NaN, and one above start + registers - 1 only when the count is a number; the error carries the start and that end |
| RegisterValidation.NaNCountStillChecksStart | WebServer/src/utils/registerValidation.js:52-60 | with a register count that parses to NaN, an address below the start is still reported, with a NaN end |
| RegisterValidation.Run | WebServer/src/utils/registerValidation.js:3-62 | the outcomes of the nine checks, or a TypeError when trimming or lower-casing a non-string throws; a range outcome is always an out-of-range error |
| RegisterValidation.NoRangePush | WebServer/src/utils/registerValidation.js:7-49 | pushing a field or duplicate message never adds a range error |
| RegisterValidation.FlaggedHasNoRange | WebServer/src/utils/registerValidation.js:7-49 | the field and duplicate checks push no range error |
| RegisterValidation.ListedMember | WebServer/src/utils/registerValidation.js:3-62 | a message is in the list exactly when it is the message of a failing check (the eight fixed messages, or the range error the range check produced), and nothing else is |
| RegisterValidation.ListedFieldFlags | WebServer/src/utils/registerValidation.js:7-21 | the name, address, type and data-type messages each appear exactly when their check fails |
| RegisterValidation.ListedOtherFlags | WebServer/src/utils/registerValidation.js:23-49 | the scale, unit, duplicate-name and duplicate-address messages each appear exactly when their check fails |
| RegisterValidation.ListedRange | WebServer/src/utils/registerValidation.js:52-60 | some range message appears exactly when the range check fails |
| RegisterValidation.ListedEmpty | WebServer/src/utils/registerValidation.js:3-62 | no message is pushed exactly when no check fails |
| RegisterValidation.EmptyIffValid | WebServer/src/utils/registerValidation.js:3-62 | the list is empty exactly for a valid register (filled name, type, data type and unit, truthy non-negative numeric address, truthy numeric scale, no other register with the same case-folded name or parsed address, address not below the device's start and, when the count is a number, not past its end), and a valid register never throws |
| RegisterValidation.PushFieldChecks | WebServer/src/utils/registerValidation.js:4-29 | throws exactly when name, type, dataType or unit is a truthy non-string; otherwise the six field pushes in source order, each message present exactly when its check fails |
| RegisterValidation.PushDuplicatesAndRange | WebServer/src/utils/registerValidation.js:31-62 | after the six field pushes, the duplicate-name, duplicate-address and range pushes complete the list, which is then exactly the listed messages for the validation outcomes |
| RegisterValidation.ValidateRegisterData | WebServer/src/utils/registerValidation.js:3-62 | the method that pushes check by check returns exactly the listed messages for the validation outcomes, or the TypeError |
| RegisterValidation.EditedRegisterIsNoClash | WebServer/src/utils/registerValidation.js:34-41 | the register being edited never clashes with itself by name or by address |
| DeviceValidation.QuadLength | WebServer/src/pages/ConfigDevices.jsx:127 | a partial scan of the IP pattern leaves a remainder exactly as long as the groups still to come allow |
| DeviceValidation.DottedQuadLength | WebServer/src/pages/ConfigDevices.jsx:127 | a string matching the IP pattern is 7 to 15 characters long |
| DeviceValidation.FieldChecksPass | WebServer/src/pages/ConfigDevices.jsx:76-102 | no field message is pushed exactly when the name, type, protocol and description are filled, the modbus id is a number in 1..247, the start address passes and the register count is a number of at least 1 |
| DeviceValidation.FieldsAcceptIffValid | WebServer/src/pages/ConfigDevices.jsx:76-102 | the field checks push nothing, and do not throw, exactly for fields meeting every demand |
| DeviceValidation.ClashesAcceptIffUnclashed | WebServer/src/pages/ConfigDevices.jsx:104-121 | the two scans push nothing exactly when no stored device other than the edited one has the same case-folded name or the same parsed modbus id |
| DeviceValidation.TcpChecksPass | WebServer/src/pages/ConfigDevices.jsx:124-145 | no TCP message is pushed exactly when the IP is filled and matches the pattern, the port is a number in 1..65535 and the endpoint is not taken |
| DeviceValidation.TcpAcceptIffValid | WebServer/src/pages/ConfigDevices.jsx:124-145 | the TCP checks push nothing exactly for a valid TCP configuration |
| DeviceValidation.RtuChecksPass | WebServer/src/pages/ConfigDevices.jsx:146-176 | no RTU message is pushed exactly when serial port and parity are filled, the baud rate is positive, data bits are 7 or 8, stop bits 1 or 2, and the serial port is not taken |
| DeviceValidation.RtuAcceptIffValid | WebServer/src/pages/ConfigDevices.jsx:146-176 | the RTU checks push nothing exactly for a valid RTU configuration |
| DeviceValidation.RtuPassIffValid | WebServer/src/pages/ConfigDevices.jsx:146-176 | once the serial port and parity can be trimmed and the port scan completes, no RTU message is pushed exactly when the serial settings are valid and no other RTU device uses the port |
| DeviceValidation.ProtocolAcceptIffValid | WebServer/src/pages/ConfigDevices.jsx:123-177 | the protocol part pushes nothing exactly when a TCP device meets the TCP demands and an RTU device the RTU demands; any other protocol has no protocol checks |
| DeviceValidation.AcceptIffPartsAccept | WebServer/src/pages/ConfigDevices.jsx:72-180 | the whole list is empty exactly when the field, duplicate and protocol parts are all empty |
| DeviceValidation.AcceptIffValid | WebServer/src/pages/ConfigDevices.jsx:72-180 | the validator returns no message exactly for a valid device, under either start rule |
| DeviceValidation.ValidateDeviceDataAsWritten | WebServer/src/pages/ConfigDevices.jsx:72-180 | as written: no message exactly for a device valid under the written start check, which rejects 0 |
| DeviceValidation.ValidateDeviceData | WebServer/src/pages/ConfigDevices.jsx:72-180 | corrected: no message exactly for a device valid under the intended start check, which accepts 0 |
| DeviceValidation.StartRulesDiffer | WebServer/src/pages/ConfigDevices.jsx:92-94 | the written start check and the intended one disagree exactly on the number 0 and on false |
| DeviceValidation.FieldErrorKinds | WebServer/src/pages/ConfigDevices.jsx:76-102 | the field checks push only field messages |
| DeviceValidation.ClashErrorKinds | WebServer/src/pages/ConfigDevices.jsx:115-121 | the scans push only duplicate messages |
| DeviceValidation.TcpErrorKinds | WebServer/src/pages/ConfigDevices.jsx:124-145 | the TCP checks push only protocol messages |
| DeviceValidation.RtuErrorKinds | WebServer/src/pages/ConfigDevices.jsx:146-176 | the RTU checks push only protocol messages |
| DeviceValidation.ProtocolErrorKinds | WebServer/src/pages/ConfigDevices.jsx:123-177 | the protocol part pushes only protocol messages, whatever the protocol |
| DeviceValidation.ValidateParts | WebServer/src/pages/ConfigDevices.jsx:72-180 | when validation completes, the list is the field messages, then the duplicate messages, then the protocol messages |
| DeviceValidation.ModbusIdFlag | WebServer/src/pages/ConfigDevices.jsx:88-90 | the modbus id message is pushed exactly when the id is not a number in 1..247 |
| DeviceValidation.StartFlag | WebServer/src/pages/ConfigDevices.jsx:92-94 | the start address message is pushed exactly when the start check fails |
| DeviceValidation.CountFlag | WebServer/src/pages/ConfigDevices.jsx:96-98 | the register count message is pushed exactly when the count is not a number of at least 1 |
| DeviceValidation.FieldsZeroStart | WebServer/src/pages/ConfigDevices.jsx:92-94 | with all other fields passing, the written field checks report only the start address for a start of 0 |
| DeviceValidation.ZeroStartRejectedAsWritten | WebServer/src/pages/ConfigDevices.jsx:92-94 | a device the intended validator accepts, but with start address 0, gets exactly the start address message from the written one |
| DeviceValidation.FieldMessagesIffFailed | WebServer/src/pages/ConfigDevices.jsx:88-98 | in the full list, the modbus id, start address and register count messages each appear exactly when that field fails |
| DeviceValidation.OnlyFieldsListed | WebServer/src/pages/ConfigDevices.jsx:72-180 | a field message in the joined list comes from the field part |
| DeviceValidation.TcpPortFlag | WebServer/src/pages/ConfigDevices.jsx:131-133 | the TCP part names the port exactly when it is not a number in 1..65535 |
| DeviceValidation.PortMessageFromTcpList | WebServer/src/pages/ConfigDevices.jsx:124-145 | once the protocol part is the TCP part, the port message in the full list appears exactly when the port fails |
| DeviceValidation.PortMessageIffOutOfBounds | WebServer/src/pages/ConfigDevices.jsx:124-133 | for a TCP device, the port message appears exactly when the port is not a number in 1..65535 |
| DeviceValidation.PortListed | WebServer/src/pages/ConfigDevices.jsx:72-180 | the port message in the joined list comes from the protocol part |
| DeviceValidation.EditedDeviceNeverClashes | WebServer/src/pages/ConfigDevices.jsx:106-141 | the device being edited never clashes with itself by modbus id, endpoint or serial port |
| DeviceValidation.SaveValidated | WebServer/src/pages/ConfigDevices.jsx:192-224 | once validation passed, the edited device is updated through its id (saved exactly when the store found it, every register kept), or a new device is appended and saved is true |
| DeviceValidation.HandleSaveDevice | WebServer/src/pages/ConfigDevices.jsx:182-230 | a device that fails validation, or makes it throw, is refused and nothing is stored; otherwise the edited device is updated through its id (saved exactly when the store found it), or a new device is appended |
| DeviceModal.WithField | WebServer/src/components/Devices/AddDeviceModal.jsx:76-81 | an input change sets the named field to the typed value and leaves every other field as it was |
| DeviceModal.CommonPass | WebServer/src/components/Devices/AddDeviceModal.jsx:102-112 | the name, type and protocol pass exactly when each is not blank |
| DeviceModal.TcpPass | WebServer/src/components/Devices/AddDeviceModal.jsx:115-126 | for TCP, the IP and port pass exactly when the IP is filled and matches the dotted-quad pattern and the port is a number in 1..65535 |
| DeviceModal.RtuPass | WebServer/src/components/Devices/AddDeviceModal.jsx:127-153 | for RTU, the serial settings pass exactly when serial port and parity are filled, the baud rate is a positive number, data bits parse to 7 or 8 and stop bits to 1 or 2 |
| DeviceModal.TrailingPass | WebServer/src/components/Devices/AddDeviceModal.jsx:155-176 | the modbus id, start address, register count and description pass exactly when the id is a number in 1..247, the start a number of at least 0, the count a number of at least 1, and the description is filled |
| DeviceModal.FormAcceptIffValid | WebServer/src/components/Devices/AddDeviceModal.jsx:98-180 | validateForm returns true exactly for a form that meets every demand of the dialog |
| DeviceModal.PartFields | WebServer/src/components/Devices/AddDeviceModal.jsx:98-180 | each part of the validation can report only its own fields |
| DeviceModal.ProtocolFieldsOnlyForProtocol | WebServer/src/components/Devices/AddDeviceModal.jsx:113-153 | an IP or port error appears only on a TCP form, a serial-settings error only on an RTU form |
| DeviceModal.ZeroStartPasses | WebServer/src/components/Devices/AddDeviceModal.jsx:161-165 | the default start address "0" is never reported |
| DeviceModal.ToObject | WebServer/src/components/Devices/AddDeviceModal.jsx:191-205 | the object handed to onSave has the sixteen record keys, plus `id` exactly when the record carries one, holding it |
| DeviceModal.ToObjectText | WebServer/src/components/Devices/AddDeviceModal.jsx:191-192 | name, type, protocol, IP, serial port, parity and description reach the object as strings |
| DeviceModal.ToObjectSettings | WebServer/src/components/Devices/AddDeviceModal.jsx:195-201 | port, baud rate, data bits, stop bits, modbus id, start address and register count reach the object as the record holds them |
| DeviceModal.ToObjectState | WebServer/src/components/Devices/AddDeviceModal.jsx:203-204 | status and last reading reach the object as the record holds them |
| DeviceModal.DeviceData | WebServer/src/components/Devices/AddDeviceModal.jsx:191-205 | name, type, protocol, IP, serial port, parity and description are the form's; a TCP device goes out with the parsed port and no serial settings, an RTU device with the parsed serial numbers and no port, any other with neither; modbus id, start address and register count are parsed; the id is present exactly when a device is edited, and its status and last reading are kept unless falsy, else 'Disconnected' and 'Never' |
| DeviceModal.DefaultStartReachesPageAsZero | WebServer/src/components/Devices/AddDeviceModal.jsx:191-205 | the default start address passes the dialog, reaches the device page as the number 0, which the page's written start check rejects and the intended one accepts |
| DeviceModal.AddDeviceDialog.constructor | WebServer/src/components/Devices/AddDeviceModal.jsx:8-26 | a new dialog holds the default form, no errors and no submit in progress |
| DeviceModal.AddDeviceDialog.HandleInputChange | WebServer/src/components/Devices/AddDeviceModal.jsx:76-96 | the named field takes the value, its error is cleared if set, nothing else changes |
| DeviceModal.AddDeviceDialog.ValidateForm | WebServer/src/components/Devices/AddDeviceModal.jsx:98-180 | records exactly the errors of the form and returns whether the form is valid |
| DeviceModal.AddDeviceDialog.HandleSubmit | WebServer/src/components/Devices/AddDeviceModal.jsx:182-242 | a submit while one is running does nothing; otherwise the record goes to onSave exactly when the form is valid, the dialog closes exactly when onSave resolves to something other than false, and a closed add dialog is reset to the default form |
| DeviceList.Rate | WebServer/src/hooks/device/useDeviceList.js:27 | the connection rate is 0 for no devices, otherwise the integer nearest to 100 * connected / total (halves up), never negative and at most 100 when connected <= total |
| DeviceList.Stats | WebServer/src/hooks/device/useDeviceList.js:23-39 | the total is the list length; connected, TCP and RTU are the numbers of devices whose status is 'Connected' and whose protocol is 'TCP' and 'RTU' |
| DeviceList.CountOf | WebServer/src/hooks/device/useDeviceList.js:25 | no list counts 0; otherwise the count exists unless a filter callback reads a field of a null or undefined entry, and is the number of entries whose key holds the target |
| DeviceList.DisjointFilters | WebServer/src/hooks/device/useDeviceList.js:35-36 | two filters for different values of one key together keep at most the whole list |
| DeviceList.StatsMeaning | WebServer/src/hooks/device/useDeviceList.js:23-39 | the statistics exist exactly when no entry is null or undefined; connected and disconnected split the total; the rate is the rounded percentage, in 0..100; TCP and RTU counts together are at most the total; the counts are the numbers of matching devices |
| DeviceList.TextHit | WebServer/src/hooks/device/useDeviceList.js:60-62 | an optional-chained lower-cased search on a text field throws exactly for a non-nullish non-string; a nullish field misses, and a string hits exactly when its lower-cased text contains the query |
| DeviceList.AddressHit | WebServer/src/hooks/device/useDeviceList.js:63 | the IP search throws exactly for a non-nullish value that is neither a string nor an array; a nullish field misses, a string hits exactly when it contains the query, an array exactly when the query is one of its items |
| DeviceList.SearchHit | WebServer/src/hooks/device/useDeviceList.js:59-64 | a null entry throws; the entry is a hit exactly when some field among name, type, description and IP hits after every earlier one missed, and a miss exactly when all four miss; a hit field contains the query |
| DeviceList.Filtered | WebServer/src/hooks/device/useDeviceList.js:43-65 | the filtered list is the subsequence of the devices that pass every active filter, in their order and with their multiplicity, and never longer than the list |
| DeviceList.FilteredMembers | WebServer/src/hooks/device/useDeviceList.js:43-65 | the filtered list holds exactly the devices that pass every active filter |
| Js.Filter | WebServer/src/hooks/device/useDeviceList.js:48 | `filter` with a strict-equality test on one property throws exactly when an entry is nullish; otherwise it returns the passing entries in order and with their multiplicity, as many as pass |
| Js.Keep | WebServer/src/hooks/device/useDeviceList.js:59-64 | `filter` with a callback that may throw throws exactly when the callback throws on some entry; otherwise it returns the accepted entries in order and with their multiplicity, as many as are accepted |
| Js.SelectedThen | WebServer/src/hooks/device/useDeviceList.js:46-65 | filtering a filtered list keeps the entries that pass both tests, in order |
| Js.SelectedUnique | WebServer/src/hooks/device/useDeviceList.js:46-65 | the in-order selection of the passing entries is unique, so two filters that keep the same entries give the same list |
| DeviceList.NoFiltersKeepAll | WebServer/src/hooks/device/useDeviceList.js:43-65 | with no filter active every device is listed, in order |
| DeviceList.StrLessAsymmetric | WebServer/src/hooks/device/useDeviceList.js:79-80 | string < never holds both ways |
| DeviceList.StrLessIrreflexive | WebServer/src/hooks/device/useDeviceList.js:79 | no string is < itself |
| DeviceList.LessThanStrict | WebServer/src/hooks/device/useDeviceList.js:79-80 | the comparison of two column values is a strict order: never both ways and never reflexive |
| DeviceList.Compare | WebServer/src/hooks/device/useDeviceList.js:68-82 | the comparator answers -1, 0 or 1; it is negative exactly when the first column value is less than the second (ascending) or greater (descending), and positive exactly in the mirrored case |
| DeviceList.CompareFlips | WebServer/src/hooks/device/useDeviceList.js:68-82 | swapping the comparator's arguments flips its sign |
| DeviceList.ComparatorAntisymmetric | WebServer/src/hooks/device/useDeviceList.js:68-82 | the comparator handed to sort is antisymmetric for every pair of devices |
| DeviceList.SortInPlace | WebServer/src/hooks/device/useDeviceList.js:68-82 | sorting in place permutes the array and leaves every neighbouring pair in the comparator's order |
| DeviceList.InsertionSort | WebServer/src/hooks/device/useDeviceList.js:68 | for any antisymmetric comparator, the sort permutes the array into neighbour order |
| DeviceList.Sink | WebServer/src/hooks/device/useDeviceList.js:68 | one insertion step extends the ordered prefix by one element and permutes the array |
| DeviceList.SwapDown | WebServer/src/hooks/device/useDeviceList.js:68 | swapping the out-of-order pair at j - 1 and j permutes the array and leaves the one gap in the order at j - 1 |
| DeviceList.SinkStep | WebServer/src/hooks/device/useDeviceList.js:68 | swapping an out-of-order pair keeps the elements and moves the one gap in the order down by one |
| DeviceList.StatusStep | WebServer/src/hooks/device/useDeviceList.js:74-80 | in a pair sorted by status, ascending never puts a disconnected device after a connected one, descending the other way |
| DeviceList.StatusSortGroups | WebServer/src/hooks/device/useDeviceList.js:74-80 | sorting by status puts every disconnected device before every connected one when ascending, and the reverse when descending |
| DeviceList.FilteredAndSorted | WebServer/src/hooks/device/useDeviceList.js:42-85 | None exactly when a filter throws or the comparator meets a null entry among two or more compared entries; otherwise a permutation of the filtered devices whose compared entries come first in the comparator's order and whose undefined entries come last |
| DeviceList.Defined | WebServer/src/hooks/device/useDeviceList.js:68 | the entries the sort compares are the list without its undefined entries: none is undefined, and with the undefined ones they make up the list |
| DeviceList.DefinedKeeps | WebServer/src/hooks/device/useDeviceList.js:68 | dropping undefined keeps every other value, so a null entry is compared exactly when the list holds one |
| DeviceList.SortDefinedFirst | WebServer/src/hooks/device/useDeviceList.js:68-82 | a permutation whose first part is the compared entries in neighbour order, followed by the undefined entries |
| DeviceList.OnlyUnfilteredListThrows | WebServer/src/hooks/device/useDeviceList.js:43-82 | with a filter active and passed, the comparator never throws: any null entry already made a filter throw |
| DeviceList.NextSort | WebServer/src/hooks/device/useDeviceList.js:130-135 | a click sorts by the clicked column, descending exactly when it was already sorted ascending by that column |
| DeviceList.ChangedFilter | WebServer/src/hooks/device/useDeviceList.js:138-143 | a filter change sets only the named filter |
| DeviceList.FilterDescription | WebServer/src/hooks/device/useDeviceList.js:244-250 | "Sin filtros" exactly when no filter is active; otherwise every active filter's phrase, in the order status, protocol, search, joined by ", ", and no phrase of an inactive filter |
| DeviceList.Toggled | WebServer/src/hooks/device/useDeviceList.js:101-111 | toggling puts the id in the selection exactly when it was not there, and leaves every other id alone |
| DeviceList.ToggleTwice | WebServer/src/hooks/device/useDeviceList.js:101-111 | toggling the same device twice restores the selection |
| DeviceList.IdsOf | WebServer/src/hooks/device/useDeviceList.js:114 | the set of shown ids exists exactly when no shown entry is null, contains every shown id and is no larger than the list |
| DeviceList.IdsOfOnlyVisible | WebServer/src/hooks/device/useDeviceList.js:114 | every selected id belongs to some shown device |
| DeviceList.SelectionOf | WebServer/src/hooks/device/useDeviceList.js:200-206 | the selected count is the selection's size and the total the shown list's length; all-selected exactly when both are equal and positive; partially-selected exactly when the selection is non-empty and smaller; hasSelection exactly when something is selected; the two flags never hold together |
| DeviceList.DeviceListView.constructor | WebServer/src/hooks/device/useDeviceList.js:14-20 | the view starts with nothing selected, sorted by name ascending, and no filter |
| DeviceList.DeviceListView.ToggleDeviceSelection | WebServer/src/hooks/device/useDeviceList.js:101-111 | the selection becomes the toggled set; sort and filters are kept |
| DeviceList.DeviceListView.IsDeviceSelected | WebServer/src/hooks/device/useDeviceList.js:243 | true exactly when the id is selected |
| DeviceList.DeviceListView.ToggleSelectAll | WebServer/src/hooks/device/useDeviceList.js:121-127 | when the selection is as large as the shown list it is cleared, otherwise it becomes the set of shown ids (or is kept when reading an id throws) |
| DeviceList.DeviceListView.HandleSort | WebServer/src/hooks/device/useDeviceList.js:130-135 | the sort becomes the next sort for the clicked column; selection and filters are kept |
| DeviceList.DeviceListView.HandleFilterChange | WebServer/src/hooks/device/useDeviceList.js:138-143 | the filters become the changed filters; selection and sort are kept |
| DeviceList.DeviceListView.ClearFilters | WebServer/src/hooks/device/useDeviceList.js:145-151 | the filters are reset to none active; selection and sort are kept |
| DeviceList.SelectAllThenClear | WebServer/src/hooks/device/useDeviceList.js:113-127 | selecting all shown devices with distinct ids selects as many as are shown, so the view reads all-selected (if any are shown) and the next toggle clears |
| RegisterFormHook.DeviceSpecificDefaults | WebServer/src/hooks/device/useModbusRegisterForm.js:37-50 | no device gives modbus id 1, start 0 and 10 registers; a device whose type is in the table gets that row; any other device gets the 'other' row |
| RegisterFormHook.NoDeviceIsOther | WebServer/src/hooks/device/useModbusRegisterForm.js:37-50 | having no device and having a device of an unknown type suggest the same numbers |
| RegisterFormHook.ValidateRegisterForDevice | WebServer/src/hooks/device/useModbusRegisterForm.js:92-114 | the verdict is valid exactly when the error list is empty, and it holds at most three messages |
| RegisterFormHook.NoDeviceRefused | WebServer/src/hooks/device/useModbusRegisterForm.js:93 | with no device the verdict is invalid with the single message that the device was not found |
| RegisterFormHook.DeviceChecksPush | WebServer/src/hooks/device/useModbusRegisterForm.js:95-111 | the three device checks push their messages in order |
| RegisterFormHook.DeviceRules | WebServer/src/hooks/device/useModbusRegisterForm.js:97-111 | for a present device, the start address message appears exactly for a TCP device with a start outside 0..65535, the modbus id message exactly for an RTU device with an id outside 1..247, and the register count message exactly for an inverter with more than 50 |
| RegisterFormHook.ValidIffRulesHold | WebServer/src/hooks/device/useModbusRegisterForm.js:92-114 | a register is accepted exactly when its device exists and breaks none of the three rules |
| RegisterFormHook.DefaultsPass | WebServer/src/hooks/device/useModbusRegisterForm.js:37-50 | the numbers suggested for any present device pass that device's own checks |
| RegisterFormHook.Metadata | WebServer/src/hooks/device/useModbusRegisterForm.js:60-70 | the metadata sets exactly the seven device properties, the device id, the second clock reading as the update time, and the edited register's creation time unless it is falsy, else the first clock reading; name, type and protocol are the device's; the connection is "ip:port" for TCP, else the serial port if truthy, else "Unknown" |
| RegisterFormHook.RegisterData | WebServer/src/hooks/device/useModbusRegisterForm.js:57-71 | the record's keys are the form's, the metadata's and `id`; the id is the form's if present, else the edited register's truthy id, else a fresh one; every metadata key (device name, type, protocol, connection info, device id, creation and update times) holds the metadata's value; every other form field is kept |
| RegisterFormHook.OnSubmit | WebServer/src/hooks/device/useModbusRegisterForm.js:52-85 | the action is an edit exactly when a register is edited, and the form closes exactly when the store answers with something truthy whose success is not false |
| RegisterFormHook.EditKeepsIdentity | WebServer/src/hooks/device/useModbusRegisterForm.js:57-75 | an edited register is sent as an edit with its own id and creation time |
| RegisterFormHook.AddStampsFresh | WebServer/src/hooks/device/useModbusRegisterForm.js:57-75 | a new register is sent as an addition with the fresh id, created at the first clock reading |
| RegisterModal.WithField | WebServer/src/components/Devices/AddRegisterModal.jsx:63-69 | an input change sets the named field to the typed value and leaves every other field as it was |
| RegisterModal.FormAcceptIffValid | WebServer/src/components/Devices/AddRegisterModal.jsx:79-113 | validateForm returns true exactly when every field is filled, the address is a number of at least 0 and the scale is a number |
| RegisterModal.FieldIssue | WebServer/src/components/Devices/AddRegisterModal.jsx:83-109 | each field has an error exactly when its rule fires, and the error is "required" for a blank field and "invalid" for a failed check |
| RegisterModal.RegisterData | WebServer/src/components/Devices/AddRegisterModal.jsx:124-137 | name, address, type, data type and unit are the form's and the scale is `parseFloat` of the form's (NaN when it does not parse); the record has an id exactly when a register is edited, that register's; status, last value and last update are the edited register's when truthy and otherwise 'success', '0' and 'Never' |
| RegisterModal.AddRegisterDialog.constructor | WebServer/src/components/Devices/AddRegisterModal.jsx:5-16 | a new dialog holds the default form, no errors and no submit in progress |
| RegisterModal.AddRegisterDialog.HandleInputChange | WebServer/src/components/Devices/AddRegisterModal.jsx:63-77 | the named field takes the value, its error is cleared if set, nothing else changes |
| RegisterModal.AddRegisterDialog.ValidateForm | WebServer/src/components/Devices/AddRegisterModal.jsx:79-113 | records exactly the errors of the form and returns whether the form is valid |
| RegisterModal.AddRegisterDialog.HandleSubmit | WebServer/src/components/Devices/AddRegisterModal.jsx:115-166 | a submit while one is running does nothing; otherwise the record goes to onSave exactly when the form is valid, the dialog closes exactly when onSave resolves to something other than false, and a closed add dialog is reset to the default form |
| RegisterForm.FormErrors | WebServer/src/components/configregister/ModbusRegisterForm.jsx:38-48 | validation throws exactly when the name or the unit is not a string |
| RegisterForm.ErrorsMeaning | WebServer/src/components/configregister/ModbusRegisterForm.jsx:38-48 | only name, address, scale and unit can carry an error; each does exactly when its check fails; every message is the "required" one |
| RegisterForm.FormAcceptIffValid | WebServer/src/components/configregister/ModbusRegisterForm.jsx:38-48 | validateForm returns true exactly when name and unit are filled, the address is truthy and not a number below 1, and the scale is truthy and not a number at most 0 |
| RegisterForm.DefaultFormErrors | WebServer/src/components/configregister/ModbusRegisterForm.jsx:6-17 | the blank record is refused for its name, address and unit, and its scale of 1 passes |
| RegisterForm.RegisterFormView.constructor | WebServer/src/components/configregister/ModbusRegisterForm.jsx:6-17 | the form starts as the register edited, or as the blank record |
| RegisterForm.RegisterFormView.HandleChange | WebServer/src/components/configregister/ModbusRegisterForm.jsx:21-35 | the named field takes the typed value and its error is cleared; nothing else changes |
| RegisterForm.RegisterFormView.ValidateForm | WebServer/src/components/configregister/ModbusRegisterForm.jsx:38-48 | records exactly the form's errors and returns whether it is valid, or throws leaving the errors as they were |
| RegisterForm.RegisterFormView.HandleSubmit | WebServer/src/components/configregister/ModbusRegisterForm.jsx:51-57 | the form itself goes to onSave exactly when it is valid; a TypeError exactly when name or unit is not a string, and then the recorded errors are unchanged |
| Utils.Capitalize | WebServer/src/utils/utils.js:1-4 | a non-string or empty string gives ''; otherwise the length is kept, the first character is upper-cased and the rest lower-cased |
| Utils.CapitalizeCapitalizes | WebServer/src/utils/utils.js:1-4 | every result is capitalized |
| Utils.CapitalizeFixesExactlyCapitalized | WebServer/src/utils/utils.js:1-4 | a string is returned unchanged exactly when it is already capitalized |
| Utils.CapitalizeIdempotent | WebServer/src/utils/utils.js:1-4 | capitalizing twice is capitalizing once |

## Left out

- Concurrency:
  - the watchdog's observer thread, its thread pool and its dedicated asyncio loop are not modelled;
  - a dispatched `main_loop` is a synchronous call, and how it ended is a parameter (returned, raised, or exceeded the 30-second bound).
- The read task: its endless print-and-sleep loop and asyncio task creation and cancellation are represented only by the presence of a handle.
- pymodbus client behaviour is modelled by parameters:
  - connect, connected, the register reads, `isError` and close;
  - a connect outcome per key or device;
  - a response function per read request.
- The sub-reads of a batch are issued in order. The asyncio gather that runs them concurrently is not modelled.
- `gatewayEMS/src/modbus/conect.py` is not part of this model. It depends on functions that are not available.
- File I/O:
  - the config managers' file reading and writing is left out;
  - the outcome of `_save_config` is a parameter.
  - The in-memory change stays even when the write fails, as the code does.
- configparser value interpolation (a `%` in a value raises on set) is not modelled.
- `IniConfig.ConfigManager.DeviceExists` has no contract: it is `has_section` on the name as given.
- The server's auth, database access, HTTP routes, logging and settings classes are not modelled. They are foreign libraries and I/O.
- Browser storage in `EMSDataManager`:
  - `localStorage` is left out, and the two lists are sequences; of `JSON.stringify`/`JSON.parse` only the top-level effect on each entry is modelled, by `EmsData.Stored`;
  - `Date.now()` ids, ISO timestamps and `uuidv4()` are parameters.
- React rendering, routing, the `useEffect` loaders of the edit dialogs, navigation, and the context wrappers in `GlobalDevice.jsx` are not modelled.
- The bulk actions (`handleBulkDelete`, `handleBulkStatusChange`) and `handleSync` of `useDeviceList.js` are not modelled. They only forward to the device context and the network.
- react-hook-form (`register`, `reset`, `formState`) is not modelled. The hook's reset after a save is the `closes` flag of `RegisterFormHook.OnSubmit`.
- Error messages are modelled as one constructor per message, not the Spanish text.
  - The only exception is `getFilterDescription`, whose text is modelled.
  - `Object.keys(newErrors).length === 0` is modelled as the error map being empty.
  - A field whose error was cleared to `''` is recorded as `Cleared`, which counts as an entry, as it does in JavaScript.
- An `onSave` that rejects is modelled as `None`. The dialog then does not close, and `finally` clears the submitting flag.
- Text:
  - whitespace is the ECMAScript WhiteSpace and LineTerminator set (including U+00A0, the Unicode space separators, U+2028, U+2029 and U+FEFF);
  - case mapping is ASCII only; a non-ASCII `toUpperCase` such as `ß` → `SS` can change the length;
  - strings compare by code points, not UTF-16 code units;
  - there is no Unicode normalisation.
- PyValue: JSON lists and objects as command values, and the non-standard `NaN` and `Infinity` that `json.load` accepts, are not modelled; a float's `str()` is the parameter `floatRepr`.
- DeviceList.LessThan: a plain object is compared through its string "[object Object]", as ToPrimitive gives it; an array is not converted to its comma-joined text and reads as NaN.
- IniConfig.ParseList: `str.strip` is modelled with the ECMAScript whitespace set. Python also strips U+001C–U+001F and U+0085 and keeps U+FEFF, so an entry made only of those characters is not modelled.
- Js.ToNumber: an array reads as NaN. JavaScript converts it through its string form, so `Number([])` is 0 and `Number([5])` is 5.
- Js.ParseInt: a number is truncated directly. JavaScript reads it through its string form, so `parseInt(1e21)` is 1 and `parseInt(5e-7)` is 5; an array is read through its string form too and is modelled as NaN.
- DeviceList.Rate: computed on exact rationals. `Math.round` on floating point can round a half case down, for example 29/200 gives 14.4999… and rounds to 14, not 15.
- DeviceList.FilteredAndSorted:
  - the filtered list is copied into a new array and sorted in place there;
  - with no filter active, the source sorts the context's own array in place, and that aliasing is not modelled;
  - undefined entries go last without being compared, and a null entry among two or more compared entries makes the comparator throw; the model assumes a correct sort compares every such entry at least once;
  - the model proves a permutation in neighbour order, not that the result equals the engine's sort order for comparators that are not total orders (NaN, objects).
- DeviceList.DeviceListView.ToggleDeviceSelection: the selected ids are a set compared by structural equality, not the `SameValueZero` of a JavaScript `Set`.
- RegisterForm.RegisterFormView.constructor: `existingData` is an optional object. A truthy non-object is not modelled.
- RegisterFormHook.DeviceSpecificDefaults:
  - inherited `Object.prototype` keys such as `constructor` are not modelled as table hits;
  - a non-string `deviceType` that converts to a table key is not modelled.
- RegisterFormHook.Metadata: a template literal's string conversion is the parameter `text`.
- `AddDeviceModal_old.jsx` and the `configDevice` form components are not modelled. They are unused or delegate to react-hook-form.

## Findings

| source | as written | input that shows it | evidently intended | confidence | as-written member | corrected member |
|---|---|---|---|---|---|---|
| gatewayEMS/src/modbus/read.py:55-58 | a scalar address and count are repeated `len(slave)` times, and every slave then reads every (address, count) pair | slaves [1, 2], address 100, count 2, each read answering [7, 8]: each slave's entry is [7, 8, 7, 8] | each slave reads the one pair once and gets [7, 8] | not executed | RegisterReader.BroadcastAsWritten | RegisterReader.Broadcast |
| WebServer/src/pages/ConfigDevices.jsx:92-94 | `!deviceData.startAddress` rejects the number 0, though the message asks for a number >= 0 | the device dialog's default start address '0', sent as `parseInt('0')` = 0, on an otherwise valid device: the page answers only with the start address message | 0 is accepted; only a missing, non-numeric or negative start address is rejected | not executed | DeviceValidation.ValidateDeviceDataAsWritten | DeviceValidation.ValidateDeviceData |

The counterexamples are proved in `RegisterReader.BroadcastDuplicatesReads`, `DeviceValidation.ZeroStartRejectedAsWritten` and `DeviceModal.DefaultStartReachesPageAsZero`. The rest of the model uses the corrected members: `RegisterReader.ModbusClient.ReadRegisters` uses `Broadcast`, and `DeviceValidation.HandleSaveDevice` uses `ValidateDeviceData`.

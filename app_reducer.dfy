/**
 * The application reducer: each action returns a new state object built by spreading the old
 * one. The state and the action are plain JavaScript objects; None stands for the TypeError an
 * action raises when its payload or the list it works on has the wrong shape.
 */
module AppReducer {
  import opened Wrappers
  import opened Js

  /** The action types the reducer handles; anything else is Other. */
  datatype Kind =
    | LoginStart | LoginSuccess | LoginEnd | Logout | LoginError | ClearError | HydrateSession
    | SetLoading | SetError | SetDevices | SetRegisters
    | AddDevice | UpdateDevice | DeleteDevice | AddRegister | UpdateRegister | DeleteRegister
    | SetSelectedDevice | Other

  /** The `case` label that `action.type` meets first. */
  function KindOf(t: Val): Kind {
    if !t.Str? then Other
    else
      var s := t.s;
      if s == "LOGIN_START" then LoginStart
      else if s == "LOGIN_SUCCESS" then LoginSuccess
      else if s == "LOGIN_END" then LoginEnd
      else if s == "LOGOUT" then Logout
      else if s == "LOGIN_ERROR" then LoginError
      else if s == "CLEAR_ERROR" then ClearError
      else if s == "HYDRATE_SESSION" then HydrateSession
      else if s == "SET_LOADING" then SetLoading
      else if s == "SET_ERROR" then SetError
      else if s == "SET_DEVICES" then SetDevices
      else if s == "SET_REGISTERS" then SetRegisters
      else if s == "ADD_DEVICE" then AddDevice
      else if s == "UPDATE_DEVICE" then UpdateDevice
      else if s == "DELETE_DEVICE" then DeleteDevice
      else if s == "ADD_REGISTER" then AddRegister
      else if s == "UPDATE_REGISTER" then UpdateRegister
      else if s == "DELETE_REGISTER" then DeleteRegister
      else if s == "SET_SELECTED_DEVICE" then SetSelectedDevice
      else Other
  }

  /** The properties an action of kind `k` writes; every other property is carried over. */
  function Written(k: Kind): set<string> {
    match k
    case LoginStart => {"isLoading", "error"}
    case LoginSuccess => {"user", "isLoading", "error", "token"}
    case LoginEnd => {"isLoading"}
    case Logout => {"user", "isLoading", "error", "token"}
    case LoginError => {"error", "isLoading"}
    case ClearError => {"error"}
    case HydrateSession => {"user", "token", "error"}
    case SetLoading => {"loading"}
    case SetError => {"error", "loading"}
    case SetDevices => {"devices", "loading"}
    case SetRegisters => {"registers", "loading"}
    case AddDevice => {"devices", "loading"}
    case UpdateDevice => {"devices", "selectedDevice", "loading"}
    case DeleteDevice => {"devices", "selectedDevice", "loading"}
    case AddRegister => {"registers", "loading"}
    case UpdateRegister => {"registers", "loading"}
    case DeleteRegister => {"registers", "loading"}
    case SetSelectedDevice => {"selectedDevice"}
    case Other => {}
  }

  /**
   * `[...list, p]`: an array spreads its items and a string its characters, each a one-character
   * string; any other value is not iterable and the spread throws.
   */
  function Appended(list: Val, p: Val): (r: Option<Val>)
    ensures r.Some? <==> list.Arr? || list.Str?
    ensures list.Arr? ==> r == Some(Arr(list.items + [p]))
    ensures list.Str? ==>
      && r.Some? && r.value.Arr? && |r.value.items| == |list.s| + 1
      && r.value.items[|list.s|] == p
      && forall i :: 0 <= i < |list.s| ==> r.value.items[i] == Str([list.s[i]])
  {
    if list.Arr? then Some(Arr(list.items + [p]))
    else if list.Str? then Some(Arr(seq(|list.s|, i requires 0 <= i < |list.s| => Str([list.s[i]])) + [p]))
    else None
  }

  /** `list.map(x => x.id === target ? p : x)`; only arrays have a `map` method. */
  function Replaced(list: Val, target: Val, p: Val): Option<Val> {
    if !list.Arr? then None
    else
      var m := ReplaceMatching(list.items, "id", target, p);
      if m.None? then None else Some(Arr(m.value))
  }

  /** `list.filter(x => x.id !== target)`; only arrays have a `filter` method. */
  function Removed(list: Val, target: Val): Option<Val> {
    if !list.Arr? then None
    else
      var f := Filter(list.items, "id", target, false);
      if f.None? then None else Some(Arr(f.value))
  }

  /**
   * The properties the returned object literal lists after `...state`, for an action of kind
   * `k` with payload `p`; None when building them throws.
   */
  function Updates(state: Object, k: Kind, p: Val): (u: Option<Object>)
    ensures u.Some? ==> u.value.Keys == Written(k)
  {
    match k
    case LoginStart => Some(map["isLoading" := Bool(true), "error" := Null])
    case LoginSuccess =>
      var user :- Prop(p, "user");
      var token := OptProp(p, "token");
      Some(map["user" := user, "isLoading" := Bool(false), "error" := Null, "token" := token])
    case LoginEnd => Some(map["isLoading" := Bool(false)])
    case Logout => Some(map["user" := Null, "isLoading" := Bool(false), "error" := Null, "token" := Null])
    case LoginError => Some(map["error" := p, "isLoading" := Bool(false)])
    case ClearError => Some(map["error" := Null])
    case HydrateSession =>
      var user :- Prop(p, "user");
      var token := OptProp(p, "token");
      Some(map["user" := user, "token" := token, "error" := Null])
    case SetLoading => Some(map["loading" := p])
    case SetError => Some(map["error" := p, "loading" := Bool(false)])
    case SetDevices => Some(map["devices" := p, "loading" := Bool(false)])
    case SetRegisters => Some(map["registers" := p, "loading" := Bool(false)])
    case AddDevice =>
      var devices :- Appended(Get(state, "devices"), p);
      Some(map["devices" := devices, "loading" := Bool(false)])
    case UpdateDevice =>
      if !Get(state, "devices").Arr? then None
      else
        var id :- Prop(p, "id");
        var devices :- Replaced(Get(state, "devices"), id, p);
        var selected := Get(state, "selectedDevice");
        Some(map["devices" := devices,
                 "selectedDevice" := if StrictEq(OptProp(selected, "id"), id) then p else selected,
                 "loading" := Bool(false)])
    case DeleteDevice =>
      var devices :- Removed(Get(state, "devices"), p);
      var selected := Get(state, "selectedDevice");
      Some(map["devices" := devices,
               "selectedDevice" := if StrictEq(OptProp(selected, "id"), p) then Null else selected,
               "loading" := Bool(false)])
    case AddRegister =>
      var registers :- Appended(Get(state, "registers"), p);
      Some(map["registers" := registers, "loading" := Bool(false)])
    case UpdateRegister =>
      if !Get(state, "registers").Arr? then None
      else
        // payload.id is read only inside the callback, so an empty list never reads it
        var id :- if |Get(state, "registers").items| == 0 then Some(Undefined) else Prop(p, "id");
        var registers :- Replaced(Get(state, "registers"), id, p);
        Some(map["registers" := registers, "loading" := Bool(false)])
    case DeleteRegister =>
      var registers :- Removed(Get(state, "registers"), p);
      Some(map["registers" := registers, "loading" := Bool(false)])
    case SetSelectedDevice => Some(map["selectedDevice" := p])
    case Other => Some(map[])
  }

  /**
   * `AppReducer(state, action)`. The second CLEAR_ERROR case of the switch is unreachable;
   * the default case returns the state itself.
   */
  function Reduce(state: Object, action: Object): (r: Option<Object>)
    ensures KindOf(Get(action, "type")) == Other ==> r == Some(state)
    ensures r.Some? ==> r.value.Keys == state.Keys + Written(KindOf(Get(action, "type")))
    ensures r.Some? ==> forall k :: k in state && k !in Written(KindOf(Get(action, "type"))) ==>
                          r.value[k] == state[k]
  {
    var k := KindOf(Get(action, "type"));
    if k == Other then Some(state)
    else
      var u :- Updates(state, k, Get(action, "payload"));
      Some(Spread(state, u))
  }

  /** LOGIN_START sets isLoading and clears the error; LOGIN_END only clears isLoading. */
  lemma LoginFlagValues(state: Object, action: Object)
    requires KindOf(Get(action, "type")) in {LoginStart, LoginEnd}
    ensures var r := Reduce(state, action);
            r.Some?
            && (KindOf(Get(action, "type")) == LoginStart ==>
                  r.value["isLoading"] == Bool(true) && r.value["error"] == Null)
            && (KindOf(Get(action, "type")) == LoginEnd ==> r.value["isLoading"] == Bool(false))
  {
  }

  /**
   * LOGIN_SUCCESS and HYDRATE_SESSION take the user and the token from the payload and clear
   * the error; LOGIN_SUCCESS also clears isLoading. Both throw exactly for a null or undefined
   * payload, where reading `.user` fails.
   */
  lemma SessionValues(state: Object, action: Object)
    requires KindOf(Get(action, "type")) in {LoginSuccess, HydrateSession}
    ensures var p := Get(action, "payload");
            var r := Reduce(state, action);
            (r.Some? <==> !Nullish(p))
            && (r.Some? ==>
                  r.value["user"] == OptProp(p, "user") && r.value["token"] == OptProp(p, "token")
                  && r.value["error"] == Null
                  && (KindOf(Get(action, "type")) == LoginSuccess ==> r.value["isLoading"] == Bool(false)))
  {
  }

  /**
   * The setters store the payload as it is: SET_LOADING in loading, SET_DEVICES in devices,
   * SET_REGISTERS in registers (both clearing loading), SET_SELECTED_DEVICE in selectedDevice;
   * CLEAR_ERROR sets the error to null.
   */
  lemma SettersStorePayload(state: Object, action: Object)
    requires KindOf(Get(action, "type")) in {SetLoading, SetDevices, SetRegisters, SetSelectedDevice, ClearError}
    ensures var k := KindOf(Get(action, "type"));
            var p := Get(action, "payload");
            var r := Reduce(state, action);
            r.Some?
            && (k == SetLoading ==> r.value["loading"] == p)
            && (k == SetDevices ==> r.value["devices"] == p && r.value["loading"] == Bool(false))
            && (k == SetRegisters ==> r.value["registers"] == p && r.value["loading"] == Bool(false))
            && (k == SetSelectedDevice ==> r.value["selectedDevice"] == p)
            && (k == ClearError ==> r.value["error"] == Null)
  {
    var k := KindOf(Get(action, "type"));
    var p := Get(action, "payload");
    var u := Updates(state, k, p);
    assert u.Some?;
    assert Reduce(state, action) == Some(Spread(state, u.value));
  }

  /** ADD_DEVICE puts the payload at the end of the devices array and clears `loading`. */
  lemma AddDeviceAppends(state: Object, action: Object)
    requires KindOf(Get(action, "type")) == AddDevice && Get(state, "devices").Arr?
    ensures var r := Reduce(state, action);
            r.Some? && r.value["devices"] == Arr(Get(state, "devices").items + [Get(action, "payload")])
            && r.value["loading"] == Bool(false)
  {
  }

  /**
   * UPDATE_DEVICE keeps the length of devices, replaces exactly the entries whose id is the
   * payload's id, and replaces selectedDevice when it has that id. It throws when devices is not
   * an array, the payload is null or undefined, or an entry is.
   */
  lemma UpdateDeviceReplaces(state: Object, action: Object)
    requires KindOf(Get(action, "type")) == UpdateDevice
    ensures var devices := Get(state, "devices");
            var p := Get(action, "payload");
            var r := Reduce(state, action);
            (r.Some? <==> devices.Arr? && !Nullish(p) && forall j :: 0 <= j < |devices.items| ==> !Nullish(devices.items[j]))
            && (r.Some? ==>
                  var id := OptProp(p, "id");
                  var selected := Get(state, "selectedDevice");
                  r.value["devices"].Arr? && |r.value["devices"].items| == |devices.items|
                  && (forall j :: 0 <= j < |devices.items| ==>
                        r.value["devices"].items[j] == if Matches(devices.items[j], "id", id) then p else devices.items[j])
                  && r.value["selectedDevice"] == (if StrictEq(OptProp(selected, "id"), id) then p else selected)
                  && r.value["loading"] == Bool(false))
  {
  }

  /**
   * DELETE_DEVICE keeps exactly the entries whose id is not the payload and sets selectedDevice
   * to null when its id is the payload.
   */
  lemma DeleteDeviceRemoves(state: Object, action: Object)
    requires KindOf(Get(action, "type")) == DeleteDevice
    ensures var devices := Get(state, "devices");
            var p := Get(action, "payload");
            var r := Reduce(state, action);
            (r.Some? <==> devices.Arr? && forall j :: 0 <= j < |devices.items| ==> !Nullish(devices.items[j]))
            && (r.Some? ==>
                  var selected := Get(state, "selectedDevice");
                  r.value["devices"].Arr? && |r.value["devices"].items| <= |devices.items|
                  && (forall v :: v in r.value["devices"].items <==> v in devices.items && !Matches(v, "id", p))
                  && Selected(devices.items, Matching("id", p, false), r.value["devices"].items)
                  && r.value["selectedDevice"] == (if StrictEq(OptProp(selected, "id"), p) then Null else selected)
                  && r.value["loading"] == Bool(false))
  {
  }

  /** ADD_REGISTER puts the payload at the end of the registers array. */
  lemma AddRegisterAppends(state: Object, action: Object)
    requires KindOf(Get(action, "type")) == AddRegister && Get(state, "registers").Arr?
    ensures var r := Reduce(state, action);
            r.Some? && r.value["registers"] == Arr(Get(state, "registers").items + [Get(action, "payload")])
            && r.value["loading"] == Bool(false)
  {
  }

  /**
   * UPDATE_REGISTER keeps the length of registers and replaces exactly the entries whose id is
   * the payload's id. It throws when registers is not an array or an entry is null or
   * undefined, and for a null or undefined payload only when there is an entry to compare:
   * the payload's id is read inside the callback.
   */
  lemma UpdateRegisterReplaces(state: Object, action: Object)
    requires KindOf(Get(action, "type")) == UpdateRegister
    ensures var registers := Get(state, "registers");
            var p := Get(action, "payload");
            var r := Reduce(state, action);
            (r.Some? <==>
               registers.Arr? && (|registers.items| == 0 || !Nullish(p))
               && forall j :: 0 <= j < |registers.items| ==> !Nullish(registers.items[j]))
            && (r.Some? ==>
                  r.value["registers"].Arr? && |r.value["registers"].items| == |registers.items|
                  && (forall j :: 0 <= j < |registers.items| ==>
                        r.value["registers"].items[j] ==
                          if Matches(registers.items[j], "id", OptProp(p, "id")) then p else registers.items[j])
                  && r.value["loading"] == Bool(false))
  {
  }

  /**
   * DELETE_REGISTER keeps exactly the registers whose id is not the payload, in their order.
   * It throws when registers is not an array or an entry is null or undefined.
   */
  lemma DeleteRegisterRemoves(state: Object, action: Object)
    requires KindOf(Get(action, "type")) == DeleteRegister
    ensures var registers := Get(state, "registers");
            var p := Get(action, "payload");
            var r := Reduce(state, action);
            (r.Some? <==> registers.Arr? && forall j :: 0 <= j < |registers.items| ==> !Nullish(registers.items[j]))
            && (r.Some? ==>
                  r.value["registers"].Arr?
                  && (forall v :: v in r.value["registers"].items <==> v in registers.items && !Matches(v, "id", p))
                  && Selected(registers.items, Matching("id", p, false), r.value["registers"].items)
                  && r.value["loading"] == Bool(false))
  {
  }

  /** LOGOUT clears the user, the token and the error. */
  lemma LogoutClearsSession(state: Object, action: Object)
    requires KindOf(Get(action, "type")) == Logout
    ensures var r := Reduce(state, action);
            r.Some? && r.value["user"] == Null && r.value["token"] == Null && r.value["error"] == Null
            && r.value["isLoading"] == Bool(false)
  {
  }

  /** LOGIN_ERROR and SET_ERROR store the payload as the error and clear their loading flag. */
  lemma ErrorsStopLoading(state: Object, action: Object)
    requires KindOf(Get(action, "type")) in {LoginError, SetError}
    ensures var r := Reduce(state, action);
            r.Some? && r.value["error"] == Get(action, "payload")
            && (KindOf(Get(action, "type")) == LoginError ==> r.value["isLoading"] == Bool(false))
            && (KindOf(Get(action, "type")) == SetError ==> r.value["loading"] == Bool(false))
  {
  }
}

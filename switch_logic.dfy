/**
 * The event-driven switch logic node: it keeps its own record of the last
 * reported `switch` value of each configured device, seeded from the hub's
 * device cache and updated from device events, aggregates the records
 * against a target value (all or any), commits the result with the time of
 * its last flip, and registers and removes its listeners on the hub's event
 * bus.
 */
module SwitchLogic {
  import opened Js
  import opened Hub
  import opened Edge

  /** The node's configuration, as the editor stores it. */
  datatype Config = Config(name: JsValue, deviceId: JsValue, targetValue: JsValue, mode: JsValue, sendEvents: JsValue)

  /** The configuration after the node's defaults are applied. */
  datatype Settings = Settings(name: JsValue, deviceId: seq<JsValue>, targetValue: JsValue, mode: JsValue, sendEvents: bool)

  /** `node.deviceId`: an array as configured, a truthy scalar wrapped, anything else none. */
  function DeviceIdList(configured: JsValue): seq<JsValue> {
    if configured.Arr? then configured.items
    else if Truthy(configured) then [configured]
    else []
  }

  function SettingsOf(config: Config): Settings {
    Settings(
      Or(config.name, Str("")),
      DeviceIdList(config.deviceId),
      Or(config.targetValue, Str("on")),
      Or(config.mode, Str("all")),
      Truthy(config.sendEvents))
  }

  /**
   * The defaults: a scalar device id becomes a one-element list and a missing
   * one the empty list; the target defaults to "on" and the mode to "all", so
   * both are always truthy, and a truthy configured value is kept as it is.
   */
  lemma SettingsDefaults(config: Config)
    ensures var s := SettingsOf(config);
      && (config.deviceId.Arr? ==> s.deviceId == config.deviceId.items)
      && (!config.deviceId.Arr? ==> s.deviceId == if Truthy(config.deviceId) then [config.deviceId] else [])
      && Truthy(s.targetValue) && Truthy(s.mode)
      && (Truthy(config.targetValue) ==> s.targetValue == config.targetValue)
      && (!Truthy(config.targetValue) ==> s.targetValue == Str("on"))
      && (Truthy(config.mode) ==> s.mode == config.mode)
      && (!Truthy(config.mode) ==> s.mode == Str("all"))
  {
  }

  // ---------------------------------------------------------------- reading a device's attribute

  /** `found.value ?? found.currentValue ?? found` */
  function PreferValue(entry: JsValue): JsValue {
    Coalesce(Get(entry, "value"), Coalesce(Get(entry, "currentValue"), entry))
  }

  /**
   * `normalizeAttributeValue(device, attrName)` for an attribute name that is
   * not an array index: undefined without attributes or without the named
   * entry; a list is searched for its first entry with the name; an object
   * entry gives `value ?? currentValue ?? entry`; any other entry is returned
   * as it is.
   */
  function NormalizeAttributeValue(device: JsValue, attrName: string): JsValue {
    var attrs := if Truthy(device) then Get(device, "attributes") else device;
    if !Truthy(attrs) then Undefined
    else if attrs.Arr? then
      var found := FindNamed(attrs.items, attrName);
      if !Truthy(found) then Undefined else PreferValue(found)
    else
      var attr := Get(attrs, attrName);
      if attr == Undefined then Undefined
      else if Truthy(attr) && (attr.Obj? || attr.Arr?) then PreferValue(attr)
      else attr
  }

  /**
   * The cases of `normalizeAttributeValue`: undefined without an attribute
   * collection or entry; in a list the first entry with the name is used; an
   * object entry yields its `value` when that is not nullish, else its
   * `currentValue` when that is not nullish, else itself; a primitive entry
   * (null included) is the value.
   */
  lemma NormalizeCases(device: JsValue, attrName: string)
    ensures var attrs := Get(device, "attributes");
      var r := NormalizeAttributeValue(device, attrName);
      && (!Truthy(device) || !Truthy(attrs) ==> r == Undefined)
      && (Truthy(device) && attrs.Arr? ==>
            var found := FindNamed(attrs.items, attrName);
            && (found == Undefined ==> r == Undefined)
            && (found != Undefined ==> r == PreferValue(found)))
      && (Truthy(device) && attrs.Obj? ==>
            var attr := Get(attrs, attrName);
            && (attr.Obj? ==> r == PreferValue(attr))
            && (IsPrimitive(attr) ==> r == attr))
  {
    var attrs := Get(device, "attributes");
    if Truthy(device) && attrs.Arr? {
      FindNamedFirst(attrs.items, attrName);
    }
  }

  /** The value the aggregate reads for a device: `deviceStates[id]`. */
  function Recorded(deviceStates: map<string, JsValue>, id: JsValue): JsValue {
    var key := ToStr(id);
    if key in deviceStates then deviceStates[key] else Undefined
  }

  /** `values.map(v => v === desired)` over the configured ids. */
  function Hits(s: Settings, deviceStates: map<string, JsValue>): (hits: seq<bool>)
    ensures |hits| == |s.deviceId|
  {
    seq(|s.deviceId|, i requires 0 <= i < |s.deviceId| => StrictEquals(Recorded(deviceStates, s.deviceId[i]), s.targetValue))
  }

  /** `computeLogicState()`: the all/any aggregate of `recorded === targetValue` over the configured ids. */
  function ComputeLogicState(s: Settings, deviceStates: map<string, JsValue>): bool {
    if |s.deviceId| == 0 then false
    else Combine(StrictEquals(s.mode, Str("all")), Hits(s, deviceStates))
  }

  /**
   * The aggregate is false for no devices; mode `all` holds exactly when
   * every configured id's recorded value is the target, any other mode when
   * one is. The target being truthy, an id with no recorded value never
   * matches, so in mode `all` one unrecorded id makes the result false.
   */
  lemma ComputeLogicStateMeaning(s: Settings, deviceStates: map<string, JsValue>)
    ensures |s.deviceId| == 0 ==> !ComputeLogicState(s, deviceStates)
    ensures StrictEquals(s.mode, Str("all")) ==> (ComputeLogicState(s, deviceStates) <==>
      |s.deviceId| > 0 && forall i :: 0 <= i < |s.deviceId| ==> StrictEquals(Recorded(deviceStates, s.deviceId[i]), s.targetValue))
    ensures !StrictEquals(s.mode, Str("all")) ==> (ComputeLogicState(s, deviceStates) <==>
      exists i :: 0 <= i < |s.deviceId| && StrictEquals(Recorded(deviceStates, s.deviceId[i]), s.targetValue))
    ensures (Truthy(s.targetValue) && StrictEquals(s.mode, Str("all"))
             && exists i :: 0 <= i < |s.deviceId| && ToStr(s.deviceId[i]) !in deviceStates)
            ==> !ComputeLogicState(s, deviceStates)
  {
    var hits := Hits(s, deviceStates);
    CombineMeaning(StrictEquals(s.mode, Str("all")), hits);
    assert forall i :: 0 <= i < |s.deviceId| ==>
      (hits[i] <==> StrictEquals(Recorded(deviceStates, s.deviceId[i]), s.targetValue));
  }

  // ---------------------------------------------------------------- events

  /** `handleDeviceEvent` acts on the event: it has a truthy `deviceId` and is a `switch` event. */
  predicate Accepted(event: JsValue) {
    Truthy(event) && Truthy(Get(event, "deviceId")) && StrictEquals(Get(event, "name"), Str("switch"))
  }

  /** The listener's patch: an event without `deviceId` but with a truthy `id` gets `deviceId = id`. */
  function PatchEvent(event: JsValue): (r: JsValue)
    ensures Truthy(event) && Get(event, "deviceId") == Undefined && Truthy(Get(event, "id")) ==>
      Get(r, "deviceId") == Get(event, "id") && Get(r, "id") == Get(event, "id")
        && forall k :: k != "deviceId" ==> Get(r, k) == Get(event, k)
    ensures !(Truthy(event) && Get(event, "deviceId") == Undefined && Truthy(Get(event, "id"))) ==> r == event
  {
    if Truthy(event) && Get(event, "deviceId") == Undefined && Truthy(Get(event, "id")) then
      var props := event.props;
      var id := Get(event, "id");
      LookupSetInOthers(props, "deviceId", id);
      Obj(SetIn(props, "deviceId", id))
    else event
  }

  // ---------------------------------------------------------------- seeding from the cache

  /** The `switch` value seeding would record under key `key`, or undefined when it records none. */
  function SeedValue(devices: Option<DeviceCache>, key: string): JsValue {
    if devices.None? || key !in devices.value.entries then Undefined
    else
      var dev := devices.value.entries[key];
      if Truthy(dev) then NormalizeAttributeValue(dev, "switch") else Undefined
  }

  /** One step of the seeding loop. */
  function SeedOne(deviceStates: map<string, JsValue>, devices: Option<DeviceCache>, id: JsValue): map<string, JsValue> {
    var val := SeedValue(devices, ToStr(id));
    if val != Undefined then deviceStates[ToStr(id) := val] else deviceStates
  }

  function Seed(deviceStates: map<string, JsValue>, devices: Option<DeviceCache>, ids: seq<JsValue>): map<string, JsValue>
    decreases |ids|
  {
    if |ids| == 0 then deviceStates else Seed(SeedOne(deviceStates, devices, ids[0]), devices, ids[1..])
  }

  /** The keys seeding records: configured devices present in the cache with a defined `switch` value. */
  function SeededKeys(devices: Option<DeviceCache>, ids: seq<JsValue>): set<string> {
    set i | 0 <= i < |ids| && SeedValue(devices, ToStr(ids[i])) != Undefined :: ToStr(ids[i])
  }

  /** The records with the cached values of `keys` laid over them. */
  function Overlay(deviceStates: map<string, JsValue>, devices: Option<DeviceCache>, keys: set<string>): map<string, JsValue> {
    map k | k in deviceStates.Keys + keys :: if k in keys then SeedValue(devices, k) else deviceStates[k]
  }

  lemma OverlayStep(deviceStates: map<string, JsValue>, devices: Option<DeviceCache>, key: string, rest: set<string>)
    ensures Overlay(deviceStates[key := SeedValue(devices, key)], devices, rest) == Overlay(deviceStates, devices, {key} + rest)
  {
    var a := Overlay(deviceStates[key := SeedValue(devices, key)], devices, rest);
    var b := Overlay(deviceStates, devices, {key} + rest);
    assert a.Keys == b.Keys;
    forall k | k in a.Keys ensures a[k] == b[k] {
    }
  }

  lemma OverlayNone(deviceStates: map<string, JsValue>, devices: Option<DeviceCache>)
    ensures Overlay(deviceStates, devices, {}) == deviceStates
  {
    var a := Overlay(deviceStates, devices, {});
    assert a.Keys == deviceStates.Keys;
  }

  /**
   * Seeding records the cached `switch` value under exactly the seeded keys
   * and leaves every other record as it was.
   */
  lemma {:induction false} SeedEffect(deviceStates: map<string, JsValue>, devices: Option<DeviceCache>, ids: seq<JsValue>)
    decreases |ids|
    ensures Seed(deviceStates, devices, ids) == Overlay(deviceStates, devices, SeededKeys(devices, ids))
  {
    if |ids| == 0 {
      assert SeededKeys(devices, ids) == {};
      OverlayNone(deviceStates, devices);
    }
    if |ids| > 0 {
      var st1 := SeedOne(deviceStates, devices, ids[0]);
      SeedEffect(st1, devices, ids[1..]);
      var rest := SeededKeys(devices, ids[1..]);
      assert forall i :: 1 <= i < |ids| ==> ids[i] == ids[1..][i - 1];
      var key := ToStr(ids[0]);
      if SeedValue(devices, key) != Undefined {
        assert SeededKeys(devices, ids) == {key} + rest;
        OverlayStep(deviceStates, devices, key, rest);
      } else {
        assert SeededKeys(devices, ids) == rest;
      }
    }
  }

  // ---------------------------------------------------------------- listeners

  /** An entry of `deviceListeners`. */
  datatype Listener = Listener(eventName: string, callback: Callback)

  /** The hub event a device's listener is registered for. */
  function EventName(key: string): string {
    "device." + key
  }

  function SubscriptionOf(l: Listener): Subscription {
    Subscription(l.eventName, l.callback)
  }

  /** The registrations the listener table stands for. */
  function Registered(listeners: map<string, Listener>): set<Subscription> {
    set k | k in listeners :: SubscriptionOf(listeners[k])
  }

  /** Adding a listener under a new key adds exactly its registration. */
  lemma RegisteredUpdate(t: map<string, Listener>, key: string, l: Listener)
    requires key !in t
    ensures Registered(t[key := l]) == Registered(t) + {SubscriptionOf(l)}
  {
    var u := t[key := l];
    forall x | x in Registered(u) ensures x in Registered(t) + {SubscriptionOf(l)} {
      var j :| j in u && x == SubscriptionOf(u[j]);
      if j != key {
        assert j in t && x == SubscriptionOf(t[j]);
      }
    }
    forall x | x in Registered(t) ensures x in Registered(u) {
      var j :| j in t && x == SubscriptionOf(t[j]);
      assert j in u && u[j] == t[j];
    }
    assert key in u && SubscriptionOf(u[key]) == SubscriptionOf(l);
  }

  lemma RegisteredEmpty()
    ensures Registered(map[]) == {}
  {
  }

  /** The listener table attaching `keys` builds, the i-th key's callback having serial `serial + i`; a repeated key keeps its last callback. */
  function Table(keys: seq<string>, owner: string, serial: nat): map<string, Listener>
    decreases |keys|
  {
    if |keys| == 0 then map[]
    else
      var n := |keys| - 1;
      Table(keys[..n], owner, serial)[keys[n] := Listener(EventName(keys[n]), Callback(owner, serial + n))]
  }

  /** The registrations attaching `keys` adds to the bus, one per key. */
  function Added(keys: seq<string>, owner: string, serial: nat): multiset<Subscription>
    decreases |keys|
  {
    if |keys| == 0 then multiset{}
    else
      var n := |keys| - 1;
      Added(keys[..n], owner, serial) + multiset{Subscription(EventName(keys[n]), Callback(owner, serial + n))}
  }

  /** `String(id)` for each configured id, in list order. */
  function KeysOf(ids: seq<JsValue>): (keys: seq<string>)
    ensures |keys| == |ids| && forall i :: 0 <= i < |ids| ==> keys[i] == ToStr(ids[i])
  {
    if |ids| == 0 then [] else [ToStr(ids[0])] + KeysOf(ids[1..])
  }


  /** Each listener is registered for the event of its own key. */
  predicate NamesMatch(listeners: map<string, Listener>) {
    forall k {:trigger listeners[k]} :: k in listeners ==> listeners[k].eventName == EventName(k)
  }

  lemma EventNameInjective(a: string, b: string)
    ensures EventName(a) == EventName(b) ==> a == b
  {
    if EventName(a) == EventName(b) {
      assert a == EventName(a)[7..];
    }
  }

  /** The table has one entry per distinct key, each registered for its own key's event. */
  lemma {:induction false} TableShape(keys: seq<string>, owner: string, serial: nat)
    decreases |keys|
    ensures Table(keys, owner, serial).Keys == set k | k in keys
    ensures NamesMatch(Table(keys, owner, serial))
  {
    if |keys| > 0 {
      var n := |keys| - 1;
      TableShape(keys[..n], owner, serial);
      assert keys == keys[..n] + [keys[n]];
    }
  }

  /** Attaching keeps every entry of the table registered for its own key's event. */
  lemma AttachKeepsNames(base: map<string, Listener>, keys: seq<string>, owner: string, serial: nat)
    requires NamesMatch(base)
    ensures NamesMatch(base + Table(keys, owner, serial))
  {
    TableShape(keys, owner, serial);
  }

  lemma MultisetOfSetAdd(a: set<Subscription>, x: Subscription)
    requires x !in a
    ensures multiset(a + {x}) == multiset(a) + multiset{x}
  {
  }

  /**
   * With distinct keys, the table records every registration attaching adds,
   * and nothing else: removing the table's registrations undoes the attach.
   */
  lemma {:induction false} TableMatchesAdded(keys: seq<string>, owner: string, serial: nat)
    requires Distinct(keys)
    decreases |keys|
    ensures multiset(Registered(Table(keys, owner, serial))) == Added(keys, owner, serial)
  {
    if |keys| > 0 {
      var n := |keys| - 1;
      var pre := keys[..n];
      assert Distinct(pre);
      TableMatchesAdded(pre, owner, serial);
      TableShape(pre, owner, serial);
      var t := Table(pre, owner, serial);
      var l := Listener(EventName(keys[n]), Callback(owner, serial + n));
      assert keys[n] !in t by {
        assert forall i :: 0 <= i < n ==> pre[i] == keys[i];
      }
      var s := SubscriptionOf(l);
      assert s !in Registered(t) by {
        forall k | k in t ensures SubscriptionOf(t[k]) != s {
          EventNameInjective(k, keys[n]);
        }
      }
      RegisteredUpdate(t, keys[n], l);
      MultisetOfSetAdd(Registered(t), s);
    }
  }

  /** The registration attaching makes for the key at position i. */
  function AddedAt(keys: seq<string>, owner: string, serial: nat, i: nat): Subscription
    requires i < |keys|
  {
    Subscription(EventName(keys[i]), Callback(owner, serial + i))
  }

  /** Attaching puts every key's registration on the bus. */
  lemma {:induction false} AddedHas(keys: seq<string>, owner: string, serial: nat, i: nat)
    requires i < |keys|
    decreases |keys|
    ensures AddedAt(keys, owner, serial, i) in Added(keys, owner, serial)
  {
    var n := |keys| - 1;
    if i < n {
      AddedHas(keys[..n], owner, serial, i);
    }
  }

  /** The table keeps, for each key, the listener of the key's last position. */
  lemma {:induction false} TableKeepsLast(keys: seq<string>, owner: string, serial: nat, k: string)
    requires k in Table(keys, owner, serial)
    decreases |keys|
    ensures exists m :: 0 <= m < |keys| && keys[m] == k
              && Table(keys, owner, serial)[k] == Listener(EventName(k), Callback(owner, serial + m))
              && forall j :: m < j < |keys| ==> keys[j] != k
  {
    var n := |keys| - 1;
    if keys[n] != k {
      var pre := keys[..n];
      TableKeepsLast(pre, owner, serial, k);
      var m :| 0 <= m < |pre| && pre[m] == k
        && Table(pre, owner, serial)[k] == Listener(EventName(k), Callback(owner, serial + m))
        && forall j :: m < j < |pre| ==> pre[j] != k;
      assert keys[m] == k;
      forall j | m < j < |keys|
        ensures keys[j] != k
      {
        if j < n {
          assert keys[j] == pre[j];
        }
      }
    }
  }

  /**
   * A key attached at positions i < j: the table keeps only the listener of
   * the later position, so the registration made at i is not among the ones
   * detaching removes and stays on the bus.
   */
  lemma RepeatedIdStaysRegistered(keys: seq<string>, owner: string, serial: nat, i: nat, j: nat)
    requires i < j < |keys| && keys[i] == keys[j]
    ensures AddedAt(keys, owner, serial, i) in Added(keys, owner, serial) - multiset(Registered(Table(keys, owner, serial)))
  {
    var t := Table(keys, owner, serial);
    var s := AddedAt(keys, owner, serial, i);
    AddedHas(keys, owner, serial, i);
    assert s !in Registered(t) by {
      forall k | k in t
        ensures SubscriptionOf(t[k]) != s
      {
        TableKeepsLast(keys, owner, serial, k);
        EventNameInjective(k, keys[i]);
      }
    }
  }

  // ---------------------------------------------------------------- the node

  class SwitchLogicNode {
    const id: string
    const settings: Settings
    /** The hub's event bus; null when no hub (or no event bus) is configured. */
    const bus: EventBus?
    var deviceStates: map<string, JsValue>
    var logicState: Option<bool>
    var lastFlip: Option<Tick>
    var listeners: map<string, Listener>
    var systemStart: Option<Callback>
    /** Tells apart the callbacks this node creates. */
    var nextSerial: nat

    function Current(): Committed
      reads this
    {
      Committed(logicState, lastFlip)
    }

    ghost predicate Valid()
      reads this
    {
      NamesMatch(listeners)
    }

    constructor (id: string, config: Config, bus: EventBus?)
      ensures this.id == id && this.bus == bus && settings == SettingsOf(config)
      ensures deviceStates == map[] && Current() == Initial
      ensures listeners == map[] && systemStart == None && Valid()
    {
      this.id := id;
      this.bus := bus;
      settings := SettingsOf(config);
      deviceStates := map[];
      logicState := None;
      lastFlip := None;
      listeners := map[];
      systemStart := None;
      nextSerial := 0;
    }

    /**
     * `initializeFromCache()`: record the cached `switch` value of each
     * configured device, then commit the aggregate without counting it as a
     * flip. `devices` is the hub's device map, None when there is none.
     */
    method InitializeFromCache(devices: Option<DeviceCache>)
      modifies this
      ensures deviceStates == Seed(old(deviceStates), devices, settings.deviceId)
      ensures Current() == Settle(old(Current()), ComputeLogicState(settings, deviceStates))
      ensures listeners == old(listeners) && systemStart == old(systemStart) && nextSerial == old(nextSerial)
    {
      var ids := settings.deviceId;
      var i := 0;
      while i < |ids|
        invariant 0 <= i <= |ids|
        invariant Seed(deviceStates, devices, ids[i..]) == Seed(old(deviceStates), devices, ids)
        invariant Current() == old(Current())
        invariant listeners == old(listeners) && systemStart == old(systemStart) && nextSerial == old(nextSerial)
      {
        assert ids[i..][0] == ids[i] && ids[i..][1..] == ids[i + 1..];
        var dev := if devices.Some? then DeviceAt(devices.value, ids[i]) else Undefined;
        if Truthy(dev) {
          var val := NormalizeAttributeValue(dev, "switch");
          if val != Undefined {
            deviceStates := deviceStates[ToStr(ids[i]) := val];
          }
        }
        i := i + 1;
      }
      assert ids[i..] == [];
      logicState := Some(ComputeLogicState(settings, deviceStates));
    }

    /**
     * `handleDeviceEvent(event)`: an accepted event sets only the record of
     * `String(event.deviceId)`, after which the aggregate is recomputed and
     * committed. The result says whether `{payload: true}` is sent: on a
     * change to true, when `sendEvents` is set.
     */
    method HandleDeviceEvent(event: JsValue, now: Tick) returns (sent: bool)
      modifies this
      ensures !Accepted(event) ==> deviceStates == old(deviceStates) && Current() == old(Current()) && !sent
      ensures Accepted(event) ==>
        var key := ToStr(Get(event, "deviceId"));
        var v := ComputeLogicState(settings, deviceStates);
        && deviceStates == old(deviceStates)[key := Get(event, "value")]
        && Current() == Evaluate(old(Current()), v, now)
        && sent == (Rising(old(Current()), v) && settings.sendEvents)
      ensures listeners == old(listeners) && systemStart == old(systemStart) && nextSerial == old(nextSerial)
    {
      sent := false;
      if !Truthy(event) || !Truthy(Get(event, "deviceId")) {
        return;
      }
      var deviceId := ToStr(Get(event, "deviceId"));
      if !StrictEquals(Get(event, "name"), Str("switch")) {
        return;
      }
      deviceStates := deviceStates[deviceId := Get(event, "value")];
      var newState := ComputeLogicState(settings, deviceStates);
      if Some(newState) != logicState {
        logicState := Some(newState);
        lastFlip := Some(now);
        if newState && settings.sendEvents {
          sent := true;
        }
      }
    }

    /** A device listener: the event, patched with `deviceId` when it has only `id`, goes to `handleDeviceEvent`. */
    method DeviceCallback(event: JsValue, now: Tick) returns (sent: bool)
      modifies this
      ensures !Accepted(PatchEvent(event)) ==> deviceStates == old(deviceStates) && Current() == old(Current()) && !sent
      ensures Accepted(PatchEvent(event)) ==>
        var e := PatchEvent(event);
        var v := ComputeLogicState(settings, deviceStates);
        && deviceStates == old(deviceStates)[ToStr(Get(e, "deviceId")) := Get(e, "value")]
        && Current() == Evaluate(old(Current()), v, now)
        && sent == (Rising(old(Current()), v) && settings.sendEvents)
      ensures listeners == old(listeners) && systemStart == old(systemStart) && nextSerial == old(nextSerial)
    {
      sent := HandleDeviceEvent(PatchEvent(event), now);
    }

    /** The `input` handler: forward `msg` when the aggregate holds, `null` otherwise; nothing is committed. */
    method Input(msg: JsValue) returns (out: InputOutcome)
      ensures ComputeLogicState(settings, deviceStates) <==> out == Forwarded(msg)
      ensures !ComputeLogicState(settings, deviceStates) <==> out == SentNull
    {
      if ComputeLogicState(settings, deviceStates) {
        out := Forwarded(msg);
      } else {
        out := SentNull;
      }
    }

    /**
     * `attachListeners()`: one listener per configured id, keyed by
     * `String(id)` and registered for `device.<id>`, then the start-up
     * listener. Without an event bus nothing happens.
     */
    method AttachListeners()
      requires Valid()
      modifies this, bus
      ensures Valid()
      ensures bus == null ==> listeners == old(listeners) && systemStart == old(systemStart)
      ensures bus != null ==>
        var keys := KeysOf(settings.deviceId);
        var start := Callback(id, old(nextSerial) + |keys|);
        && listeners == old(listeners) + Table(keys, id, old(nextSerial))
        && systemStart == Some(start)
        && bus.subscriptions == old(bus.subscriptions) + Added(keys, id, old(nextSerial))
             + multiset{Subscription("systemStart", start)}
      ensures deviceStates == old(deviceStates) && logicState == old(logicState) && lastFlip == old(lastFlip)
    {
      if bus == null {
        return;
      }
      var keys := KeysOf(settings.deviceId);
      AttachDevices(keys);
      AttachKeepsNames(old(listeners), keys, id, old(nextSerial));
      assert deviceStates == old(deviceStates) && logicState == old(logicState) && lastFlip == old(lastFlip);
      var start := Callback(id, nextSerial);
      nextSerial := nextSerial + 1;
      systemStart := Some(start);
      bus.On("systemStart", start);
    }

    /** `node.deviceId.forEach(...)`: the listeners of the configured devices, in list order. */
    method AttachDevices(keys: seq<string>)
      requires bus != null
      modifies this, bus
      ensures nextSerial == old(nextSerial) + |keys|
      ensures listeners == old(listeners) + Table(keys, id, old(nextSerial))
      ensures bus.subscriptions == old(bus.subscriptions) + Added(keys, id, old(nextSerial))
      ensures systemStart == old(systemStart)
      ensures deviceStates == old(deviceStates) && logicState == old(logicState) && lastFlip == old(lastFlip)
    {
      var s0 := nextSerial;
      var i := 0;
      while i < |keys|
        invariant 0 <= i <= |keys| && nextSerial == s0 + i
        invariant listeners == old(listeners) + Table(keys[..i], id, s0)
        invariant bus.subscriptions == old(bus.subscriptions) + Added(keys[..i], id, s0)
        invariant systemStart == old(systemStart)
        invariant deviceStates == old(deviceStates) && logicState == old(logicState) && lastFlip == old(lastFlip)
      {
        AttachNext(old(listeners), old(bus.subscriptions), keys, i, s0);
        i := i + 1;
      }
      assert keys[..i] == keys;
    }

    /** One step of the attaching loop: the table and the bus grow by the i-th key's listener. */
    method AttachNext(ghost base: map<string, Listener>, ghost subs: multiset<Subscription>, keys: seq<string>, i: nat,
                      ghost s0: nat)
      requires bus != null && i < |keys| && nextSerial == s0 + i
      requires listeners == base + Table(keys[..i], id, s0)
      requires bus.subscriptions == subs + Added(keys[..i], id, s0)
      modifies this, bus
      ensures nextSerial == s0 + i + 1
      ensures listeners == base + Table(keys[..i + 1], id, s0)
      ensures bus.subscriptions == subs + Added(keys[..i + 1], id, s0)
      ensures systemStart == old(systemStart)
      ensures deviceStates == old(deviceStates) && logicState == old(logicState) && lastFlip == old(lastFlip)
    {
      AttachStep(base, subs, keys, i, id, s0);
      ghost var next := base + Table(keys[..i + 1], id, s0);
      AttachDevice(keys[i]);
      assert listeners == next;
    }

    /** The listener of one configured device, keyed by `String(id)`. */
    method AttachDevice(deviceId: string)
      requires bus != null
      modifies this, bus
      ensures var callback := Callback(id, old(nextSerial));
        && listeners == old(listeners)[deviceId := Listener(EventName(deviceId), callback)]
        && bus.subscriptions == old(bus.subscriptions) + multiset{Subscription(EventName(deviceId), callback)}
      ensures nextSerial == old(nextSerial) + 1
      ensures systemStart == old(systemStart)
      ensures deviceStates == old(deviceStates) && logicState == old(logicState) && lastFlip == old(lastFlip)
    {
      var callback := Callback(id, nextSerial);
      nextSerial := nextSerial + 1;
      var eventName := EventName(deviceId);
      listeners := listeners[deviceId := Listener(eventName, callback)];
      bus.On(eventName, callback);
    }

    /**
     * `detachListeners()`: every registration in the listener table and the
     * start-up listener are removed from the bus, and the table is emptied.
     * Without an event bus nothing happens.
     */
    method DetachListeners()
      requires Valid()
      modifies this, bus
      ensures bus == null ==> listeners == old(listeners) && systemStart == old(systemStart)
      ensures bus != null ==>
        && listeners == map[] && systemStart == None
        && bus.subscriptions == old(bus.subscriptions) - multiset(Registered(old(listeners)))
             - (if old(systemStart).Some? then multiset{Subscription("systemStart", old(systemStart).value)} else multiset{})
      ensures deviceStates == old(deviceStates) && logicState == old(logicState) && lastFlip == old(lastFlip)
    {
      if bus == null {
        return;
      }
      RemoveRegistered(bus, listeners);
      assert deviceStates == old(deviceStates);
      listeners := map[];
      if systemStart.Some? {
        bus.RemoveListener("systemStart", systemStart.value);
        systemStart := None;
      }
    }
  }

  /** `Object.keys(deviceListeners).forEach(...)`: each entry's registration is removed from the bus. */
  method RemoveRegistered(bus: EventBus, listeners: map<string, Listener>)
    requires NamesMatch(listeners)
    modifies bus
    ensures bus.subscriptions == old(bus.subscriptions) - multiset(Registered(listeners))
  {
    ghost var start := bus.subscriptions;
    var remaining := listeners.Keys;
    RestrictNone(listeners, start);
    while remaining != {}
      invariant remaining <= listeners.Keys
      invariant bus.subscriptions == Without(start, listeners, listeners.Keys - remaining)
      decreases remaining
    {
      var k :| k in remaining;
      TakeOne(listeners.Keys, remaining, k);
      RemoveListenerOf(bus, listeners, listeners.Keys - remaining, k, start);
      remaining := remaining - {k};
    }
    RestrictAll(listeners, start);
  }

  /** What is left of `start` once the registrations of the table's entries under `keys` are removed. */
  ghost function Without(start: multiset<Subscription>, listeners: map<string, Listener>, keys: set<string>): multiset<Subscription> {
    start - multiset(Registered(RestrictTo(listeners, keys)))
  }

  lemma RestrictNone(listeners: map<string, Listener>, start: multiset<Subscription>)
    ensures Without(start, listeners, listeners.Keys - listeners.Keys) == start
  {
    assert RestrictTo(listeners, listeners.Keys - listeners.Keys) == map[];
    RegisteredEmpty();
  }

  lemma RestrictAll(listeners: map<string, Listener>, start: multiset<Subscription>)
    ensures Without(start, listeners, listeners.Keys - {}) == start - multiset(Registered(listeners))
  {
    assert RestrictTo(listeners, listeners.Keys - {}) == listeners;
  }

  /** The loop step for one key: its registration is removed, extending the removed part of the table. */
  method RemoveListenerOf(bus: EventBus, listeners: map<string, Listener>, ghost removed: set<string>, k: string,
                          ghost start: multiset<Subscription>)
    requires NamesMatch(listeners) && k in listeners && k !in removed
    requires bus.subscriptions == Without(start, listeners, removed)
    modifies bus
    ensures bus.subscriptions == Without(start, listeners, removed + {k})
  {
    var entry := listeners[k];
    RemoveOneMore(listeners, removed, k);
    SubtractMore(start, multiset(Registered(RestrictTo(listeners, removed))), SubscriptionOf(entry));
    bus.RemoveListener(entry.eventName, entry.callback);
  }

  /** Taking key k out of the keys still to visit adds it to the keys visited. */
  lemma TakeOne(keys: set<string>, remaining: set<string>, k: string)
    requires remaining <= keys && k in remaining
    ensures k !in keys - remaining && (keys - remaining) + {k} == keys - (remaining - {k})
  {
  }

  /** Attaching one more key extends the table by that key's listener and the bus by its registration. */
  lemma AttachStep(base: map<string, Listener>, subs: multiset<Subscription>, keys: seq<string>, i: nat,
                    owner: string, serial: nat)
    requires i < |keys|
    ensures var l := Listener(EventName(keys[i]), Callback(owner, serial + i));
      && base + Table(keys[..i + 1], owner, serial) == (base + Table(keys[..i], owner, serial))[keys[i] := l]
      && subs + Added(keys[..i + 1], owner, serial) == subs + Added(keys[..i], owner, serial) + multiset{SubscriptionOf(l)}
  {
    assert keys[..i + 1][..i] == keys[..i];
  }


  lemma SubtractMore(a: multiset<Subscription>, r: multiset<Subscription>, x: Subscription)
    ensures a - r - multiset{x} == a - (r + multiset{x})
  {
  }

  /** The part of a listener table under the given keys. */
  function RestrictTo(listeners: map<string, Listener>, keys: set<string>): map<string, Listener> {
    map k | k in listeners && k in keys :: listeners[k]
  }

  /** Removing one more key's registration extends the removed part of the table by exactly that registration. */
  lemma RemoveOneMore(listeners: map<string, Listener>, removed: set<string>, k: string)
    requires NamesMatch(listeners) && k in listeners && k !in removed
    ensures multiset(Registered(RestrictTo(listeners, removed + {k})))
      == multiset(Registered(RestrictTo(listeners, removed))) + multiset{SubscriptionOf(listeners[k])}
  {
    var s := SubscriptionOf(listeners[k]);
    var before := RestrictTo(listeners, removed);
    assert s !in Registered(before) by {
      forall j | j in before ensures SubscriptionOf(before[j]) != s {
        EventNameInjective(j, k);
      }
    }
    assert RestrictTo(listeners, removed + {k}) == before[k := listeners[k]];
    RegisteredUpdate(before, k, listeners[k]);
  }

  /**
   * Attaching a node's listeners and detaching them again restores the bus,
   * provided no two configured ids have the same string form.
   */
  lemma AttachThenDetach(bus: multiset<Subscription>, keys: seq<string>, owner: string, serial: nat)
    requires Distinct(keys)
    ensures var start := Subscription("systemStart", Callback(owner, serial + |keys|));
      bus + Added(keys, owner, serial) + multiset{start}
        - multiset(Registered(map[] + Table(keys, owner, serial))) - multiset{start} == bus
  {
    TableMatchesAdded(keys, owner, serial);
    assert map[] + Table(keys, owner, serial) == Table(keys, owner, serial);
  }

  /** What the `input` handler sends. */
  datatype InputOutcome = Forwarded(msg: JsValue) | SentNull
}

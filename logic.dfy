/**
 * The cache-driven logic node: it reads one attribute per configured device
 * from the hub's device cache, aggregates the matches with the target value
 * (all or any), commits the result as `logicState` with the time of its last
 * flip, notifies on a change to true and gates input messages on the
 * committed result.
 *
 * A JavaScript TypeError raised while reading the cache is the `None` of an
 * `Option` result: the handler that raised it stops without effect.
 */
module Logic {
  import opened Js
  import opened Hub
  import opened Edge

  /** The node's configuration, as the editor stores it. */
  datatype Config = Config(
    name: JsValue,
    deviceType: JsValue,
    deviceId: JsValue,
    targetValue: JsValue,
    mode: JsValue,
    sendEvents: JsValue)

  /** The device types the node understands; each reads the attribute of the same name. */
  const DEVICE_TYPES: set<string> := {"switch", "motion", "lock", "contact", "presence"}

  /** `attrMap[node.deviceType]` */
  function AttributeFor(deviceType: JsValue): (attr: Option<string>)
    ensures attr.Some? <==> ToStr(deviceType) in DEVICE_TYPES
    ensures attr.Some? ==> attr.value == ToStr(deviceType)
  {
    var t := ToStr(deviceType);
    if t in DEVICE_TYPES then Some(t) else None
  }

  /**
   * `getDeviceState(deviceId)`: null for an unknown device, an unknown device
   * type or a missing attribute; otherwise the attribute's `currentValue`,
   * else its `value`, else the attribute itself. None when the device has no
   * attribute collection to index (a TypeError).
   */
  function GetDeviceState(cache: DeviceCache, deviceType: JsValue, deviceId: JsValue): Option<JsValue> {
    var device := DeviceAt(cache, deviceId);
    if !Truthy(device) then Some(Null)
    else match AttributeFor(deviceType)
      case None => Some(Null)
      case Some(attr) =>
        var attrs := Get(device, "attributes");
        if IsNullish(attrs) then None
        else
          var attribute := if attrs.Arr? then FindNamed(attrs.items, attr) else Get(attrs, attr);
          if !Truthy(attribute) then Some(Null)
          else if (attribute.Obj? || attribute.Arr?) && Get(attribute, "currentValue") != Undefined then
            Some(Get(attribute, "currentValue"))
          else if Get(attribute, "value") != Undefined then Some(Get(attribute, "value"))
          else Some(attribute)
  }

  /** The attribute entry the state is read from, when the device has a collection. */
  function AttributeEntry(attrs: JsValue, attr: string): JsValue {
    if attrs.Arr? then FindNamed(attrs.items, attr) else Get(attrs, attr)
  }

  /**
   * The cases of `getDeviceState`: null without a device, a known type or an
   * attribute entry; a list is searched for its first entry with the name;
   * `currentValue` is preferred over `value`, which is preferred over the
   * entry itself.
   */
  lemma DeviceStateCases(cache: DeviceCache, deviceType: JsValue, deviceId: JsValue)
    ensures var device := DeviceAt(cache, deviceId);
      var r := GetDeviceState(cache, deviceType, deviceId);
      && (!Truthy(device) ==> r == Some(Null))
      && (Truthy(device) && ToStr(deviceType) !in DEVICE_TYPES ==> r == Some(Null))
      && (Truthy(device) && ToStr(deviceType) in DEVICE_TYPES ==>
            var attrs := Get(device, "attributes");
            var entry := AttributeEntry(attrs, ToStr(deviceType));
            && (IsNullish(attrs) <==> r == None)
            && (!IsNullish(attrs) && !Truthy(entry) ==> r == Some(Null))
            && (!IsNullish(attrs) && entry.Obj? && Get(entry, "currentValue") != Undefined ==>
                  r == Some(Get(entry, "currentValue")))
            && (!IsNullish(attrs) && Truthy(entry) && Get(entry, "currentValue") == Undefined ==>
                  r == Some(if Get(entry, "value") != Undefined then Get(entry, "value") else entry)))
  {
  }

  /**
   * `matchesTargetValue(state)`: a null or undefined state never matches; the
   * lock special cases compare with the same strings the target holds.
   */
  predicate MatchesTargetValue(deviceType: JsValue, targetValue: JsValue, state: JsValue) {
    if IsNullish(state) then false
    else if StrictEquals(deviceType, Str("lock")) && StrictEquals(targetValue, Str("unlocked with timeout")) then
      StrictEquals(state, Str("unlocked with timeout"))
    else if StrictEquals(deviceType, Str("lock")) && StrictEquals(targetValue, Str("unknown")) then
      StrictEquals(state, Str("unknown"))
    else StrictEquals(state, targetValue)
  }

  /** The lock special cases add nothing: matching is strict equality with the target for every device type. */
  lemma MatchesIsStrictEquality(deviceType: JsValue, targetValue: JsValue, state: JsValue)
    ensures MatchesTargetValue(deviceType, targetValue, state) <==> !IsNullish(state) && StrictEquals(state, targetValue)
  {
  }

  /** `ids.map(getDeviceState)`: None when one of the lookups throws. */
  function States(cache: DeviceCache, deviceType: JsValue, ids: seq<JsValue>): (r: Option<seq<JsValue>>)
    ensures r.None? <==> exists i :: 0 <= i < |ids| && GetDeviceState(cache, deviceType, ids[i]).None?
    ensures r.Some? ==>
      (|r.value| == |ids| && forall i :: 0 <= i < |ids| ==> GetDeviceState(cache, deviceType, ids[i]) == Some(r.value[i]))
  {
    if |ids| == 0 then Some([])
    else
      var rest := States(cache, deviceType, ids[1..]);
      assert forall i :: 1 <= i < |ids| ==> ids[i] == ids[1..][i - 1];
      match GetDeviceState(cache, deviceType, ids[0])
      case None => None
      case Some(v) =>
        match rest
        case None => None
        case Some(vs) => Some([v] + vs)
  }

  /** Whether each state matches the target. */
  function Hits(config: Config, states: seq<JsValue>): (hits: seq<bool>)
    ensures |hits| == |states|
  {
    seq(|states|, i requires 0 <= i < |states| => MatchesTargetValue(config.deviceType, config.targetValue, states[i]))
  }

  /**
   * `computeLogicState()`: false without configured devices; otherwise the
   * all/any aggregate of the configured devices' matches. None when it
   * throws (a device list that is not an array, or a failed lookup).
   */
  function ComputeLogicState(cache: DeviceCache, config: Config): Option<bool> {
    var ids := config.deviceId;
    if !Truthy(ids) || StrictEquals(Length(ids), Num(0)) then Some(false)
    else if !ids.Arr? then None
    else match States(cache, config.deviceType, ids.items)
      case None => None
      case Some(states) => Some(Combine(StrictEquals(config.mode, Str("all")), Hits(config, states)))
  }

  /** A device the aggregate looks at matches: its state is read without error and equals the target. */
  predicate DeviceMatches(cache: DeviceCache, config: Config, id: JsValue) {
    var s := GetDeviceState(cache, config.deviceType, id);
    s.Some? && MatchesTargetValue(config.deviceType, config.targetValue, s.value)
  }

  /**
   * Without configured devices the result is false. For a configured list
   * whose lookups all succeed, mode `all` holds exactly when every device
   * matches, any other mode exactly when some device matches.
   */
  lemma ComputeLogicStateMeaning(cache: DeviceCache, config: Config)
    ensures !Truthy(config.deviceId) || config.deviceId == Arr([]) ==> ComputeLogicState(cache, config) == Some(false)
    ensures config.deviceId.Arr? && States(cache, config.deviceType, config.deviceId.items).Some? ==>
      var ids := config.deviceId.items;
      && ComputeLogicState(cache, config).Some?
      && (StrictEquals(config.mode, Str("all")) ==>
            (ComputeLogicState(cache, config).value <==>
               |ids| > 0 && forall i :: 0 <= i < |ids| ==> DeviceMatches(cache, config, ids[i])))
      && (!StrictEquals(config.mode, Str("all")) ==>
            (ComputeLogicState(cache, config).value <==>
               exists i :: 0 <= i < |ids| && DeviceMatches(cache, config, ids[i])))
  {
    if config.deviceId.Arr? && States(cache, config.deviceType, config.deviceId.items).Some? {
      var ids := config.deviceId.items;
      var states := States(cache, config.deviceType, ids).value;
      var hits := Hits(config, states);
      CombineMeaning(StrictEquals(config.mode, Str("all")), hits);
      assert forall i :: 0 <= i < |ids| ==> (hits[i] <==> DeviceMatches(cache, config, ids[i]));
    }
  }

  /** `ids.includes(x)` (SameValueZero, which is `===` on the values modelled). */
  predicate Includes(ids: seq<JsValue>, x: JsValue) {
    exists i :: 0 <= i < |ids| && StrictEquals(ids[i], x)
  }

  /** `{payload: {...event, state}, topic}` */
  datatype Notification = Notification(payload: seq<(string, JsValue)>, topic: JsValue)

  /** What the `input` handler sends or reports. */
  datatype InputOutcome =
    | Rejected(errorMsg: string)   // reported through `done`, nothing sent
    | Abandoned                    // the cache refresh failed: returned quietly, nothing sent, `done` not called
    | Threw                        // the handler threw before sending
    | Forwarded(msg: JsValue)      // `send(msg)`
    | SentNull                     // `send(null)`

  const UNDEFINED_IDS: string := "Undefined device ID(s)"

  class LogicNode {
    const config: Config
    var logicState: Option<bool>
    var lastFlip: Option<Tick>

    function Current(): Committed
      reads this
    {
      Committed(logicState, lastFlip)
    }

    constructor (config: Config)
      ensures this.config == config && Current() == Initial
    {
      this.config := config;
      logicState := None;
      lastFlip := None;
    }

    /** Start-up: the predicate is committed without counting as a flip. */
    method Startup(cache: DeviceCache)
      modifies this
      ensures ComputeLogicState(cache, config).None? ==> Current() == old(Current())
      ensures ComputeLogicState(cache, config).Some? ==>
        Current() == Settle(old(Current()), ComputeLogicState(cache, config).value)
    {
      var v := ComputeLogicState(cache, config);
      if v.Some? {
        logicState := v;
      }
    }

    /**
     * `eventCallback(event)`, registered only when the configured device list
     * is an array. `refreshFailed` says that the cache needed initialising
     * and that failed. Events for other devices change nothing; otherwise the
     * predicate is recomputed and committed, and a notification is due on a
     * change to true when `sendEvents` is set.
     */
    method OnEvent(cache: DeviceCache, event: seq<(string, JsValue)>, refreshFailed: bool, now: Tick)
      returns (note: Option<Notification>)
      requires config.deviceId.Arr?
      modifies this
      ensures var eventId := Lookup(event, "deviceId");
        var state := GetDeviceState(cache, config.deviceType, eventId);
        var v := ComputeLogicState(cache, config);
        if refreshFailed || !Includes(config.deviceId.items, eventId) || state.None? || v.None? then
          Current() == old(Current()) && note == None
        else
          && Current() == Evaluate(old(Current()), v.value, now)
          && note == (if Rising(old(Current()), v.value) && Truthy(config.sendEvents)
                      then Some(Notification(SetIn(event, "state", state.value), config.name))
                      else None)
    {
      note := None;
      if refreshFailed {
        return;
      }
      var eventId := Lookup(event, "deviceId");
      if !Includes(config.deviceId.items, eventId) {
        return;
      }
      var state := GetDeviceState(cache, config.deviceType, eventId);
      if state.None? {
        return;
      }
      var newState := ComputeLogicState(cache, config);
      if newState.None? {
        return;
      }
      if newState != logicState {
        logicState := newState;
        lastFlip := Some(now);
        if newState.value && Truthy(config.sendEvents) {
          note := Some(Notification(SetIn(event, "state", state.value), config.name));
        }
      }
    }

    /**
     * The `input` handler. The device list is `msg.deviceId` when present,
     * the configured one otherwise; an empty list is reported and nothing is
     * sent. The predicate itself is always over the configured devices; after
     * committing it, `msg` is forwarded when it holds and `null` is sent when
     * it does not.
     */
    method Input(cache: DeviceCache, msg: JsValue, refreshFailed: bool, now: Tick) returns (out: InputOutcome)
      modifies this
      ensures var ids := if Get(msg, "deviceId") != Undefined then Get(msg, "deviceId") else config.deviceId;
        var v := ComputeLogicState(cache, config);
        if refreshFailed then Current() == old(Current()) && out == Abandoned
        else if !Truthy(ids) || StrictEquals(Length(ids), Num(0)) then
          Current() == old(Current()) && out == Rejected(UNDEFINED_IDS)
        else if !ids.Arr? || States(cache, config.deviceType, ids.items).None? || v.None? then
          Current() == old(Current()) && out == Threw
        else
          && Current() == Evaluate(old(Current()), v.value, now)
          && out == (if v.value then Forwarded(msg) else SentNull)
    {
      if refreshFailed {
        return Abandoned;
      }
      var deviceIds := if Get(msg, "deviceId") != Undefined then Get(msg, "deviceId") else config.deviceId;
      if !Truthy(deviceIds) || StrictEquals(Length(deviceIds), Num(0)) {
        return Rejected(UNDEFINED_IDS);
      }
      if !deviceIds.Arr? {
        return Threw;
      }
      var states := States(cache, config.deviceType, deviceIds.items);
      if states.None? {
        return Threw;
      }
      var newState := ComputeLogicState(cache, config);
      if newState.None? {
        return Threw;
      }
      if newState != logicState {
        logicState := newState;
        lastFlip := Some(now);
      }
      if logicState == Some(true) {
        out := Forwarded(msg);
      } else {
        out := SentNull;
      }
    }
  }
}

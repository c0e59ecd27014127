/**
 * The restore node (nodes/restore.js). On input it reads, for each configured
 * device, the state saved under `hubitat_state_<hub>_<device>` in the flow
 * store; a device without one is skipped. A saved state is turned into a plan
 * of hub commands (or a validation error) by its shape (switch only, dimmer,
 * colour bulb) and the entry is cleared. A failed plan produces an error
 * record. The planned commands are then sent to the hub one at a time under
 * the hub's command lock; a device's commands stop at the first HTTP error
 * status. On close, when the node is removed, it clears the entries of its
 * configured devices.
 */
module Restore {
  import opened Js
  import opened Hub
  import opened Encoding
  import Capture

  // ---------------------------------------------------------------- configuration

  /**
   * `configuredDeviceList()`: `config.devices` when it is a non-empty array;
   * else a truthy `config.deviceId`, as a list (a copy of an array, or the
   * value alone); else nothing.
   */
  function ConfiguredDeviceList(devices: JsValue, deviceId: JsValue): seq<JsValue> {
    if devices.Arr? && |devices.items| > 0 then devices.items
    else if Truthy(deviceId) then (if deviceId.Arr? then deviceId.items else [deviceId])
    else []
  }

  /** The list is empty exactly when neither setting names a device, and every entry comes from one of them. */
  lemma ConfiguredDevices(devices: JsValue, deviceId: JsValue)
    ensures ConfiguredDeviceList(devices, deviceId) == [] <==>
      !(devices.Arr? && |devices.items| > 0) && (!Truthy(deviceId) || deviceId == Arr([]))
    ensures forall x :: x in ConfiguredDeviceList(devices, deviceId) ==>
      (devices.Arr? && x in devices.items) || (deviceId.Arr? && x in deviceId.items) || x == deviceId
  {
  }

  // ---------------------------------------------------------------- the hub's key segment

  /** The fields of the hub connection `getSafeHubId` reads. */
  datatype HubConfig = HubConfig(name: JsValue, host: JsValue, id: JsValue)

  /**
   * The value `getSafeHubId` starts from: the trimmed name unless it is empty,
   * else the host when truthy, else the id. None when the name is truthy but
   * not a string: `trim` then throws.
   */
  function HubIdSource(hub: HubConfig): Option<JsValue> {
    if Truthy(hub.name) && !hub.name.Str? then None
    else if Truthy(hub.name) && Trim(hub.name.s) != "" then Some(Str(Trim(hub.name.s)))
    else if Truthy(hub.host) then Some(hub.host)
    else Some(hub.id)
  }

  /** The length of a string in UTF-16 code units, the length JavaScript reports. */
  function Utf16Length(s: string): nat {
    if |s| == 0 then 0 else (if s[0] as int >= 0x10000 then 2 else 1) + Utf16Length(s[1..])
  }

  /**
   * `s.replace(/[^a-zA-Z0-9]/g, '_')`. The pattern works on UTF-16 code units,
   * so a character outside the Basic Multilingual Plane, two code units,
   * becomes two underscores.
   */
  function Sanitise(s: string): (r: string)
    ensures forall i :: 0 <= i < |r| ==> IsAsciiAlnum(r[i]) || r[i] == '_'
    ensures |r| == Utf16Length(s)
  {
    if |s| == 0 then ""
    else
      var head := if IsAsciiAlnum(s[0]) then [s[0]] else if s[0] as int >= 0x10000 then "__" else "_";
      head + Sanitise(s[1..])
  }

  predicate IsKeySafe(s: string) {
    forall i :: 0 <= i < |s| ==> IsAsciiAlnum(s[i]) || s[i] == '_'
  }

  /** Sanitising changes exactly the strings that hold a character other than a letter, digit or underscore. */
  lemma {:induction false} SanitiseFixes(s: string)
    ensures Sanitise(s) == s <==> IsKeySafe(s)
  {
    if |s| > 0 {
      SanitiseFixes(s[1..]);
      if IsKeySafe(s) {
        assert IsKeySafe(s[1..]);
        assert s == [s[0]] + s[1..];
      }
    }
  }

  /** Sanitising twice is sanitising once. */
  lemma SanitiseIdempotent(s: string)
    ensures Sanitise(Sanitise(s)) == Sanitise(s)
  {
    SanitiseFixes(Sanitise(s));
  }

  /** `getSafeHubId(node.hubitat)`; None when it throws. */
  function SafeHubId(hub: HubConfig): (r: Option<string>)
    ensures r.None? <==> HubIdSource(hub).None?
    ensures r.Some? ==> IsKeySafe(r.value) && |r.value| == Utf16Length(ToStr(HubIdSource(hub).value))
  {
    match HubIdSource(hub)
    case None => None
    case Some(v) => Some(Sanitise(ToStr(v)))
  }

  /** The store key of a device's saved state: the template `hubitat_state_${hubId}_${deviceId}`. */
  function StateKey(hubId: string, deviceId: JsValue): string {
    "hubitat_state_" + hubId + "_" + ToStr(deviceId)
  }

  /** Under one hub, two entries share a key exactly when they print the same. */
  lemma StateKeyInjective(hubId: string, a: JsValue, b: JsValue)
    ensures StateKey(hubId, a) == StateKey(hubId, b) <==> ToStr(a) == ToStr(b)
  {
    var p := "hubitat_state_" + hubId + "_";
    if StateKey(hubId, a) == StateKey(hubId, b) {
      assert StateKey(hubId, a)[|p|..] == ToStr(a);
      assert StateKey(hubId, b)[|p|..] == ToStr(b);
    }
  }

  /** No key the capture node writes is a key the restore node reads: the ninth characters differ. */
  lemma CaptureKeysAreNotStateKeys(id: JsValue, hubId: string, deviceId: JsValue)
    ensures Capture.StoreKey(id) != StateKey(hubId, deviceId)
  {
    assert Capture.StoreKey(id)[8] == 'd';
    assert StateKey(hubId, deviceId)[8] == 's';
  }

  // ---------------------------------------------------------------- the planner

  /** The fields of a saved state the planner reads; undefined marks an absent one. */
  datatype Saved = Saved(
    switch: JsValue, level: JsValue, colorMode: JsValue,
    colorTemperature: JsValue, hue: JsValue, saturation: JsValue)

  function SavedOf(state: JsValue): Saved {
    Saved(Get(state, "switch"), Get(state, "level"), Get(state, "colorMode"),
          Get(state, "colorTemperature"), Get(state, "hue"), Get(state, "saturation"))
  }

  /** A hub command; `arguments` is undefined for a command without arguments. */
  datatype Command = Command(deviceId: JsValue, command: JsValue, arguments: JsValue)

  datatype Plan = Plan(commands: seq<Command>, error: bool, errorMsg: string)

  /** The three kinds of device a saved state can describe, and a state that describes none. */
  datatype Shape = SwitchOnly | Dimmer | Colour | Blank

  /** A colour mode makes a colour bulb, else a level makes a dimmer, else a switch value makes a switch. */
  function ShapeOf(s: Saved): Shape {
    if s.colorMode != Undefined then Colour
    else if s.level != Undefined then Dimmer
    else if s.switch != Undefined then SwitchOnly
    else Blank
  }

  function Plain(deviceId: JsValue, name: string): Command {
    Command(deviceId, Str(name), Undefined)
  }

  function Commands(commands: seq<Command>): Plan {
    Plan(commands, false, "")
  }

  function CtMissing(s: Saved): string {
    "Missing colorTemperature (" + ToStr(s.colorTemperature) + ") or level (" + ToStr(s.level) + ") for setColorTemperature"
  }

  const RGB_MISSING: string := "Missing hue, saturation, or level for setColor"

  function ColourArguments(s: Saved): JsValue {
    Obj([("hue", s.hue), ("saturation", s.saturation), ("level", s.level)])
  }

  /** The plan for a saved state, by shape. */
  function PlanFor(deviceId: JsValue, s: Saved): Plan {
    var off := StrictEquals(s.switch, Str("off"));
    match ShapeOf(s)
    case Blank => Commands([])
    case SwitchOnly => Commands([Command(deviceId, s.switch, Undefined)])
    case Dimmer =>
      if off then Commands([Plain(deviceId, "off")])
      else Commands([Plain(deviceId, "on"), Command(deviceId, Str("setLevel"), Arr([s.level]))])
    case Colour =>
      if off then Commands([Plain(deviceId, "off")])
      else if !StrictEquals(s.switch, Str("on")) then Commands([])
      else if StrictEquals(s.colorMode, Str("CT")) then
        if !IsNullish(s.colorTemperature) && !IsNullish(s.level) then
          Commands([Command(deviceId, Str("setColorTemperature"),
                            Str(ToStr(s.colorTemperature) + "," + ToStr(s.level)))])
        else Plan([], true, CtMissing(s))
      else if StrictEquals(s.colorMode, Str("RGB")) then
        if s.hue != Undefined && s.saturation != Undefined && s.level != Undefined then
          Commands([Command(deviceId, Str("setColor"), ColourArguments(s))])
        else Plan([], true, RGB_MISSING)
      else Commands([])
  }

  /**
   * The planner as written: three checks in a row, each appending to the
   * command list or raising the error flag. The checks are exclusive, so the
   * result is the plan of the state's one shape.
   */
  method PlanCommands(deviceId: JsValue, state: JsValue) returns (p: Plan)
    ensures p == PlanFor(deviceId, SavedOf(state))
  {
    var commands: seq<Command> := [];
    var error := false;
    var errorMsg := "";
    var sw := Get(state, "switch");
    var level := Get(state, "level");
    var colorMode := Get(state, "colorMode");

    if sw != Undefined && level == Undefined && colorMode == Undefined {
      commands := commands + [Command(deviceId, sw, Undefined)];
    }

    if level != Undefined && colorMode == Undefined {
      if StrictEquals(sw, Str("off")) {
        commands := commands + [Plain(deviceId, "off")];
      } else {
        commands := commands + [Plain(deviceId, "on")];
        if level != Undefined {
          commands := commands + [Command(deviceId, Str("setLevel"), Arr([level]))];
        } else {
          error := true;
          errorMsg := "Missing level for setLevel";
        }
      }
    }

    if colorMode != Undefined {
      if StrictEquals(sw, Str("off")) {
        commands := commands + [Plain(deviceId, "off")];
      } else if StrictEquals(sw, Str("on")) {
        if StrictEquals(colorMode, Str("CT")) {
          var ct := Get(state, "colorTemperature");
          if !IsNullish(ct) && !IsNullish(level) {
            commands := commands + [Command(deviceId, Str("setColorTemperature"), Str(ToStr(ct) + "," + ToStr(level)))];
          } else {
            error := true;
            errorMsg := CtMissing(SavedOf(state));
          }
        } else if StrictEquals(colorMode, Str("RGB")) {
          var hue := Get(state, "hue");
          var saturation := Get(state, "saturation");
          if hue != Undefined && saturation != Undefined && level != Undefined {
            commands := commands + [Command(deviceId, Str("setColor"), Obj([("hue", hue), ("saturation", saturation), ("level", level)]))];
          } else {
            error := true;
            errorMsg := RGB_MISSING;
          }
        }
      }
    }
    p := Plan(commands, error, errorMsg);
  }

  /**
   * A plan has at most two commands, all for the planned device; an error
   * comes with no commands and a message, and no error with no message.
   */
  lemma PlanBounds(deviceId: JsValue, s: Saved)
    ensures var p := PlanFor(deviceId, s);
      && |p.commands| <= 2
      && (forall c :: c in p.commands ==> c.deviceId == deviceId)
      && (p.error ==> p.commands == [] && p.errorMsg != "")
      && (!p.error ==> p.errorMsg == "")
  {
  }

  /** A state with no switch, level or colour mode plans nothing and is no error. */
  lemma BlankPlan(deviceId: JsValue, s: Saved)
    requires s.switch == Undefined && s.level == Undefined && s.colorMode == Undefined
    ensures PlanFor(deviceId, s) == Plan([], false, "")
  {
  }

  /** A switch-only state replays its switch value verbatim as the command name. */
  lemma SwitchOnlyPlan(deviceId: JsValue, s: Saved)
    requires s.switch != Undefined && s.level == Undefined && s.colorMode == Undefined
    ensures PlanFor(deviceId, s) == Plan([Command(deviceId, s.switch, Undefined)], false, "")
  {
  }

  /** A dimmer is never an error: `off` when it was off, else `on` followed by `setLevel [level]`. */
  lemma DimmerPlan(deviceId: JsValue, s: Saved)
    requires s.level != Undefined && s.colorMode == Undefined
    ensures var p := PlanFor(deviceId, s);
      && !p.error
      && (s.switch == Str("off") ==> p.commands == [Plain(deviceId, "off")])
      && (s.switch != Str("off") ==>
            p.commands == [Plain(deviceId, "on"), Command(deviceId, Str("setLevel"), Arr([s.level]))])
  {
  }

  /**
   * A colour bulb: `off` when off; when on, in colour-temperature mode it
   * needs a temperature and a level that are neither undefined nor null, in
   * RGB mode a hue, saturation and level that are not undefined; any other
   * switch value or mode plans nothing and is no error.
   */
  lemma ColourPlan(deviceId: JsValue, s: Saved)
    requires s.colorMode != Undefined
    ensures var p := PlanFor(deviceId, s);
      && (s.switch == Str("off") ==> p == Plan([Plain(deviceId, "off")], false, ""))
      && (s.switch != Str("off") && s.switch != Str("on") ==> p == Plan([], false, ""))
      && (s.switch == Str("on") && s.colorMode == Str("CT") ==>
            && (p.error <==> IsNullish(s.colorTemperature) || IsNullish(s.level))
            && (p.error ==> p.errorMsg == CtMissing(s))
            && (!p.error ==> p.commands == [Command(deviceId, Str("setColorTemperature"),
                                                    Str(ToStr(s.colorTemperature) + "," + ToStr(s.level)))]))
      && (s.switch == Str("on") && s.colorMode == Str("RGB") ==>
            && (p.error <==> s.hue == Undefined || s.saturation == Undefined || s.level == Undefined)
            && (p.error ==> p.errorMsg == RGB_MISSING)
            && (!p.error ==> p.commands == [Command(deviceId, Str("setColor"), ColourArguments(s))]))
      && (s.switch == Str("on") && s.colorMode != Str("CT") && s.colorMode != Str("RGB") ==> p == Plan([], false, ""))
  {
  }

  /** Only a colour bulb that was on, in CT or RGB mode, can fail to plan. */
  lemma ErrorsAreColourOnly(deviceId: JsValue, s: Saved)
    ensures PlanFor(deviceId, s).error ==>
      s.colorMode != Undefined && s.switch == Str("on") && (s.colorMode == Str("CT") || s.colorMode == Str("RGB"))
  {
  }

  /** A null level fails a colour-temperature restore but passes an RGB one. */
  lemma NullLevel(deviceId: JsValue, s: Saved)
    requires s.switch == Str("on") && s.level == Null && s.hue != Undefined && s.saturation != Undefined
    ensures PlanFor(deviceId, s.(colorMode := Str("CT"))).error
    ensures !PlanFor(deviceId, s.(colorMode := Str("RGB"))).error
  {
  }

  /** A snapshot the capture node takes is a saved state whose fields are the device's attribute values. */
  lemma CapturedSnapshotPlan(device: JsValue, owner: string)
    ensures Truthy(Capture.SnapshotOf(device, owner))
    ensures SavedOf(Capture.SnapshotOf(device, owner)) ==
      Saved(Capture.AttrValue(device, "switch"), Capture.AttrValue(device, "level"),
            Capture.AttrValue(device, "colorMode"), Capture.AttrValue(device, "colorTemperature"),
            Capture.AttrValue(device, "hue"), Capture.AttrValue(device, "saturation"))
  {
    Capture.SnapshotAttr(device, owner, "switch");
    Capture.SnapshotAttr(device, owner, "level");
    Capture.SnapshotAttr(device, owner, "colorMode");
    Capture.SnapshotAttr(device, owner, "colorTemperature");
    Capture.SnapshotAttr(device, owner, "hue");
    Capture.SnapshotAttr(device, owner, "saturation");
  }

  // ---------------------------------------------------------------- arguments and request path

  /**
   * The argument text of a command: a colour-temperature string as it is, the
   * colour object or any non-empty arguments as JSON, otherwise nothing.
   */
  function CommandArgs(cmd: Command): string {
    if StrictEquals(cmd.command, Str("setColorTemperature")) && cmd.arguments.Str? then cmd.arguments.s
    else if StrictEquals(cmd.command, Str("setColor")) && (cmd.arguments.Null? || cmd.arguments.Arr? || cmd.arguments.Obj?) then
      Json(cmd.arguments)
    else if Truthy(cmd.arguments) && Truthy(Length(cmd.arguments)) then Json(cmd.arguments)
    else ""
  }

  /** `command`, or `command/<encoded arguments>` when there are arguments. */
  function CommandWithArgs(command: string, args: string): string {
    if args != "" then command + "/" + EncodeUriComponent(args) else command
  }

  // The argument texts of the commands the planner makes.

  /** `on`, `off` and a replayed switch value carry no arguments. */
  lemma PlainArguments(deviceId: JsValue, command: JsValue)
    ensures CommandArgs(Command(deviceId, command, Undefined)) == ""
  {
  }

  /** `setLevel [level]` sends the one-element array as JSON. */
  lemma SetLevelArguments(deviceId: JsValue, level: JsValue)
    ensures CommandArgs(Command(deviceId, Str("setLevel"), Arr([level]))) == "[" + Json(level) + "]"
  {
    JsonSingleton(level);
  }

  /** `setColorTemperature` sends its `"<ct>,<level>"` text as it is. */
  lemma ColorTemperatureArguments(deviceId: JsValue, text: string)
    ensures CommandArgs(Command(deviceId, Str("setColorTemperature"), Str(text))) == text
  {
  }

  /** `setColor` sends the `{hue, saturation, level}` object as JSON. */
  lemma SetColorArguments(deviceId: JsValue, s: Saved)
    requires s.hue != Undefined && s.saturation != Undefined && s.level != Undefined
    ensures CommandArgs(Command(deviceId, Str("setColor"), ColourArguments(s)))
      == "{" + (Member("hue", Json(s.hue)) + "," + (Member("saturation", Json(s.saturation)) + "," + Member("level", Json(s.level)))) + "}"
  {
    JsonObject3("hue", s.hue, "saturation", s.saturation, "level", s.level);
  }

  /**
   * With arguments, the command part of the path is the command name and one
   * more segment that holds no `/` and decodes back to the argument text.
   */
  lemma ArgumentsSegment(command: string, args: string)
    requires args != ""
    ensures var segment := CommandWithArgs(command, args)[|command| + 1..];
      && CommandWithArgs(command, args) == command + "/" + segment
      && (forall i :: 0 <= i < |segment| ==> segment[i] != '/')
      && Utf8Decode(PercentDecode(segment)) == CodePoints(args)
  {
    var encoded := EncodeUriComponent(args);
    assert CommandWithArgs(command, args)[|command| + 1..] == encoded;
    UriComponentRoundTrip(args);
  }

  // ---------------------------------------------------------------- reading, planning and clearing

  /** What the node sends. */
  datatype RestoreOutput =
    | PassThrough(msg: JsValue)
      // `{...msg, error: true, deviceId, deviceState, errorMsg, restored: false}`
    | RestoreError(msg: JsValue, deviceId: JsValue, deviceState: JsValue, errorMsg: string)
      // `{...msg, deviceId, command, requestArguments, responseStatus, response}`
    | Dispatched(msg: JsValue, deviceId: JsValue, command: string, requestArguments: string,
                 responseStatus: int, response: JsValue)

  /** The commands planned for the configured entry at position `device`. */
  datatype Job = Job(device: nat, requests: seq<Request>)

  /** The store after reading and clearing, the error records sent, and the commands still to run. */
  datatype Prepared = Prepared(store: map<string, JsValue>, errors: seq<RestoreOutput>, jobs: seq<Job>)

  function Read(store: map<string, JsValue>, key: string): JsValue {
    if key in store then store[key] else Undefined
  }

  /** One configured entry, up to its first request. */
  function PrepareOne(store: map<string, JsValue>, hubId: string, msg: JsValue, raw: JsValue, index: nat): Prepared {
    var key := StateKey(hubId, raw);
    var state := Read(store, key);
    if !Truthy(state) then Prepared(store, [], [])
    else
      var plan := PlanFor(raw, SavedOf(state));
      if plan.error then Prepared(store - {key}, [RestoreError(msg, raw, state, plan.errorMsg)], [])
      else Prepared(store - {key}, [], [Job(index, RequestsOf(plan.commands))])
  }

  /**
   * The configured entries from position `index` on. Each callback of
   * `Promise.all` runs to its first request before the next one starts, so
   * all reading, planning and clearing happens before any command is sent.
   */
  function PrepareAll(store: map<string, JsValue>, hubId: string, msg: JsValue, raws: seq<JsValue>, index: nat): Prepared
    decreases |raws|
  {
    if |raws| == 0 then Prepared(store, [], [])
    else
      var one := PrepareOne(store, hubId, msg, raws[0], index);
      var rest := PrepareAll(one.store, hubId, msg, raws[1..], index + 1);
      Prepared(rest.store, one.errors + rest.errors, one.jobs + rest.jobs)
  }

  lemma PrepareAllFrom(store: map<string, JsValue>, hubId: string, msg: JsValue, raws: seq<JsValue>, i: nat)
    requires i < |raws|
    ensures var one := PrepareOne(store, hubId, msg, raws[i], i);
      var rest := PrepareAll(one.store, hubId, msg, raws[i + 1..], i + 1);
      PrepareAll(store, hubId, msg, raws[i..], i) == Prepared(rest.store, one.errors + rest.errors, one.jobs + rest.jobs)
  {
    assert raws[i..][0] == raws[i] && raws[i..][1..] == raws[i + 1..];
  }

  /** The loop's bookkeeping: the store, records and jobs so far, followed by those still to come from position i. */
  function ContinuePrep(done: Prepared, hubId: string, msg: JsValue, raws: seq<JsValue>, i: nat): Prepared
    requires i <= |raws|
  {
    var rest := PrepareAll(done.store, hubId, msg, raws[i..], i);
    Prepared(rest.store, done.errors + rest.errors, done.jobs + rest.jobs)
  }

  lemma PrepareStep(done: Prepared, hubId: string, msg: JsValue, raws: seq<JsValue>, i: nat, one: Prepared)
    requires i < |raws| && one == PrepareOne(done.store, hubId, msg, raws[i], i)
    ensures ContinuePrep(done, hubId, msg, raws, i)
      == ContinuePrep(Prepared(one.store, done.errors + one.errors, done.jobs + one.jobs), hubId, msg, raws, i + 1)
  {
    PrepareAllFrom(done.store, hubId, msg, raws, i);
    var rest := PrepareAll(one.store, hubId, msg, raws[i + 1..], i + 1);
    assert done.errors + (one.errors + rest.errors) == (done.errors + one.errors) + rest.errors;
    assert done.jobs + (one.jobs + rest.jobs) == (done.jobs + one.jobs) + rest.jobs;
  }

  lemma PrepareDone(done: Prepared, hubId: string, msg: JsValue, raws: seq<JsValue>)
    ensures ContinuePrep(done, hubId, msg, raws, |raws|) == done
  {
    assert raws[|raws|..] == [];
    assert done.errors + [] == done.errors && done.jobs + [] == done.jobs;
  }

  /**
   * One entry: without a truthy saved state nothing happens; with one, its key
   * is cleared whatever the plan, and the device gets either an error record
   * and no commands, or its planned commands and no record.
   */
  lemma PrepareOneEffect(store: map<string, JsValue>, hubId: string, msg: JsValue, raw: JsValue, index: nat)
    ensures var key := StateKey(hubId, raw);
      var r := PrepareOne(store, hubId, msg, raw, index);
      && (!Truthy(Read(store, key)) ==> r == Prepared(store, [], []))
      && (Truthy(Read(store, key)) ==>
            var plan := PlanFor(raw, SavedOf(store[key]));
            && r.store == store - {key}
            && (plan.error ==> r.errors == [RestoreError(msg, raw, store[key], plan.errorMsg)] && r.jobs == [])
            && (!plan.error ==> r.errors == [] && r.jobs == [Job(index, RequestsOf(plan.commands))]))
  {
  }

  /** The keys of the configured entries' saved states. */
  function StateKeys(hubId: string, raws: seq<JsValue>): set<string> {
    set r | r in raws :: StateKey(hubId, r)
  }

  /**
   * Reading removes exactly the configured keys that held a truthy state;
   * every other entry keeps its value.
   */
  lemma {:induction false} PrepareAllStore(store: map<string, JsValue>, hubId: string, msg: JsValue, raws: seq<JsValue>, index: nat)
    decreases |raws|
    ensures var st := PrepareAll(store, hubId, msg, raws, index).store;
      forall k :: (k in st <==> k in store && !(k in StateKeys(hubId, raws) && Truthy(store[k])))
        && (k in st ==> st[k] == store[k])
  {
    if |raws| > 0 {
      var st1 := PrepareOne(store, hubId, msg, raws[0], index).store;
      PrepareAllStore(st1, hubId, msg, raws[1..], index + 1);
      assert StateKeys(hubId, raws) == {StateKey(hubId, raws[0])} + StateKeys(hubId, raws[1..]);
    }
  }

  // ---------------------------------------------------------------- sending the commands

  /** The hub's answer to a request: the request threw, or a status with the body as text and as JSON (None: not JSON). */
  datatype Response = Thrown | Answered(status: int, text: string, json: Option<JsValue>)

  type Answers = (nat, nat) -> Response

  predicate IsHttpError(r: Response) {
    r.Answered? && r.status >= 400
  }

  /**
   * What the loop computes from a command before sending it:
   * `String(cmd.deviceId)`, `String(cmd.command)` and the argument text.
   */
  datatype Request = Request(deviceId: string, command: string, arguments: string)

  function RequestOf(cmd: Command): Request {
    Request(ToStr(cmd.deviceId), ToStr(cmd.command), CommandArgs(cmd))
  }

  function RequestsOf(cmds: seq<Command>): (r: seq<Request>)
    ensures |r| == |cmds| && forall i :: 0 <= i < |cmds| ==> r[i] == RequestOf(cmds[i])
  {
    if |cmds| == 0 then [] else [RequestOf(cmds[0])] + RequestsOf(cmds[1..])
  }

  /** What one request sends on, and whether the device's loop stops there. */
  datatype Step = Step(sent: seq<RestoreOutput>, stop: bool)

  /**
   * An error status sends the text of the answer and ends the device's loop;
   * a JSON answer is sent on; a request that throws, or an answer that is not
   * JSON, sends nothing and the loop goes on.
   */
  function Outcome(msg: JsValue, req: Request, r: Response): (step: Step)
    ensures step.stop <==> IsHttpError(r)
  {
    match r
    case Thrown => Step([], false)
    case Answered(status, text, json) =>
      if status >= 400 then Step([Dispatched(msg, Str(req.deviceId), req.command, req.arguments, status, Str(text))], true)
      else if json.None? then Step([], false)
      else Step([Dispatched(msg, Str(req.deviceId), req.command, req.arguments, status, json.value)], false)
  }

  /** The outputs sent and the requests made, in order. */
  datatype Dispatch = Dispatch(sent: seq<RestoreOutput>, requests: seq<Request>)

  /** A device's requests from position j on; `answer(device, j)` is the hub's answer to its j-th request. */
  function DispatchFrom(msg: JsValue, reqs: seq<Request>, answer: Answers, device: nat, j: nat): Dispatch
    decreases |reqs| - j
  {
    if j >= |reqs| then Dispatch([], [])
    else
      var step := Outcome(msg, reqs[j], answer(device, j));
      if step.stop then Dispatch(step.sent, [reqs[j]])
      else
        var rest := DispatchFrom(msg, reqs, answer, device, j + 1);
        Dispatch(step.sent + rest.sent, [reqs[j]] + rest.requests)
  }

  /** The devices' commands, one device after another. */
  function DispatchJobs(msg: JsValue, jobs: seq<Job>, answer: Answers): Dispatch {
    if |jobs| == 0 then Dispatch([], [])
    else
      var first := DispatchFrom(msg, jobs[0].requests, answer, jobs[0].device, 0);
      var rest := DispatchJobs(msg, jobs[1..], answer);
      Dispatch(first.sent + rest.sent, first.requests + rest.requests)
  }

  /** The loop's bookkeeping: the outputs and requests so far, followed by those still to come from position j. */
  function Continue(done: Dispatch, msg: JsValue, reqs: seq<Request>, answer: Answers, device: nat, j: nat): Dispatch {
    var rest := DispatchFrom(msg, reqs, answer, device, j);
    Dispatch(done.sent + rest.sent, done.requests + rest.requests)
  }

  lemma DispatchStep(msg: JsValue, reqs: seq<Request>, answer: Answers, device: nat, j: nat,
                     sent: seq<RestoreOutput>, requests: seq<Request>)
    requires j < |reqs|
    ensures var step := Outcome(msg, reqs[j], answer(device, j));
      var next := Dispatch(sent + step.sent, requests + [reqs[j]]);
      && (step.stop ==> Continue(Dispatch(sent, requests), msg, reqs, answer, device, j) == next)
      && (!step.stop ==> Continue(Dispatch(sent, requests), msg, reqs, answer, device, j)
                           == Continue(next, msg, reqs, answer, device, j + 1))
  {
    var step := Outcome(msg, reqs[j], answer(device, j));
    var rest := DispatchFrom(msg, reqs, answer, device, j + 1);
    assert sent + (step.sent + rest.sent) == (sent + step.sent) + rest.sent;
    assert requests + ([reqs[j]] + rest.requests) == (requests + [reqs[j]]) + rest.requests;
  }

  lemma DispatchDone(msg: JsValue, reqs: seq<Request>, answer: Answers, device: nat, j: nat,
                     sent: seq<RestoreOutput>, requests: seq<Request>)
    requires j >= |reqs|
    ensures Continue(Dispatch(sent, requests), msg, reqs, answer, device, j) == Dispatch(sent, requests)
  {
    assert sent + [] == sent && requests + [] == requests;
  }

  /** The outer loop's bookkeeping: the outputs and requests so far, followed by those of the jobs from position i. */
  function ContinueJobs(done: Dispatch, msg: JsValue, jobs: seq<Job>, answer: Answers, i: nat): Dispatch
    requires i <= |jobs|
  {
    var rest := DispatchJobs(msg, jobs[i..], answer);
    Dispatch(done.sent + rest.sent, done.requests + rest.requests)
  }

  lemma DispatchJobsStep(msg: JsValue, jobs: seq<Job>, answer: Answers, i: nat, sent: seq<RestoreOutput>, requests: seq<Request>)
    requires i < |jobs|
    ensures var one := DispatchFrom(msg, jobs[i].requests, answer, jobs[i].device, 0);
      ContinueJobs(Dispatch(sent, requests), msg, jobs, answer, i)
        == ContinueJobs(Dispatch(sent + one.sent, requests + one.requests), msg, jobs, answer, i + 1)
  {
    assert jobs[i..][0] == jobs[i] && jobs[i..][1..] == jobs[i + 1..];
    var one := DispatchFrom(msg, jobs[i].requests, answer, jobs[i].device, 0);
    var rest := DispatchJobs(msg, jobs[i + 1..], answer);
    assert sent + (one.sent + rest.sent) == (sent + one.sent) + rest.sent;
    assert requests + (one.requests + rest.requests) == (requests + one.requests) + rest.requests;
  }

  lemma DispatchJobsDone(msg: JsValue, jobs: seq<Job>, answer: Answers, sent: seq<RestoreOutput>, requests: seq<Request>)
    ensures ContinueJobs(Dispatch(sent, requests), msg, jobs, answer, |jobs|) == Dispatch(sent, requests)
  {
    assert jobs[|jobs|..] == [];
    assert sent + [] == sent && requests + [] == requests;
  }

  /** A device's loop requests its commands in plan order, each at most once. */
  lemma {:induction false} DispatchInOrder(msg: JsValue, reqs: seq<Request>, answer: Answers, device: nat, j: nat)
    requires j <= |reqs|
    decreases |reqs| - j
    ensures var made := DispatchFrom(msg, reqs, answer, device, j).requests;
      && |made| <= |reqs| - j
      && forall k :: 0 <= k < |made| ==> made[k] == reqs[j + k]
  {
    if j < |reqs| && !IsHttpError(answer(device, j)) {
      DispatchInOrder(msg, reqs, answer, device, j + 1);
      var rest := DispatchFrom(msg, reqs, answer, device, j + 1).requests;
      var made := DispatchFrom(msg, reqs, answer, device, j).requests;
      assert made == [reqs[j]] + rest;
      assert forall k :: 1 <= k < |made| ==> made[k] == rest[k - 1];
    }
  }

  /**
   * A device's loop stops after the first error status: every request but the
   * last got no error status, and the loop ends before the last command only
   * on one.
   */
  lemma {:induction false} DispatchStopsAtFirstError(msg: JsValue, reqs: seq<Request>, answer: Answers, device: nat, j: nat)
    requires j <= |reqs|
    decreases |reqs| - j
    ensures var n := |DispatchFrom(msg, reqs, answer, device, j).requests|;
      && (forall k :: j <= k < j + n - 1 ==> !IsHttpError(answer(device, k)))
      && (n < |reqs| - j ==> n > 0 && IsHttpError(answer(device, j + n - 1)))
  {
    if j < |reqs| && !IsHttpError(answer(device, j)) {
      DispatchStopsAtFirstError(msg, reqs, answer, device, j + 1);
    }
  }

  /** Each request holds the lock once: an acquisition and then a release. */
  function LockPairs(n: nat): seq<LockEvent> {
    if n == 0 then [] else LockPairs(n - 1) + [Acquire, Release]
  }

  /** Acquisitions and releases alternate, starting with an acquisition, so every acquisition is followed by exactly one release. */
  lemma {:induction false} LockPairsAlternate(n: nat)
    ensures |LockPairs(n)| == 2 * n
    ensures forall i :: 0 <= i < 2 * n ==> LockPairs(n)[i] == if i % 2 == 0 then Acquire else Release
  {
    if n > 0 {
      LockPairsAlternate(n - 1);
    }
  }

  /** The log after one more command of a loop, regrouped. */
  lemma LockPairsNext(prefix: seq<LockEvent>, j: nat)
    ensures (prefix + LockPairs(j)) + [Acquire, Release] == prefix + LockPairs(j + 1)
  {
    assert (prefix + LockPairs(j)) + [Acquire, Release] == prefix + (LockPairs(j) + [Acquire, Release]);
  }

  /** The log after one more device's loop, regrouped. */
  lemma LockPairsAfter(prefix: seq<LockEvent>, m: nat, n: nat)
    ensures (prefix + LockPairs(m)) + LockPairs(n) == prefix + LockPairs(m + n)
  {
    LockPairsAdd(m, n);
    assert (prefix + LockPairs(m)) + LockPairs(n) == prefix + (LockPairs(m) + LockPairs(n));
  }

  lemma {:induction false} LockPairsAdd(m: nat, n: nat)
    ensures LockPairs(m) + LockPairs(n) == LockPairs(m + n)
  {
    if n > 0 {
      LockPairsAdd(m, n - 1);
      assert LockPairs(m) + (LockPairs(n - 1) + [Acquire, Release]) == (LockPairs(m) + LockPairs(n - 1)) + [Acquire, Release];
    } else {
      assert LockPairs(m) + [] == LockPairs(m);
    }
  }

  // ---------------------------------------------------------------- the node

  class RestoreNode {
    const hub: HubConfig
    const configDevices: JsValue
    const configDeviceId: JsValue
    /** `node.devices` */
    const devices: seq<JsValue>
    const store: FlowStore
    const lock: CommandLock

    constructor (hub: HubConfig, configDevices: JsValue, configDeviceId: JsValue, store: FlowStore, lock: CommandLock)
      ensures this.hub == hub && this.configDevices == configDevices && this.configDeviceId == configDeviceId
      ensures this.store == store && this.lock == lock
      ensures devices == ConfiguredDeviceList(configDevices, configDeviceId)
    {
      this.hub := hub;
      this.configDevices := configDevices;
      this.configDeviceId := configDeviceId;
      this.store := store;
      this.lock := lock;
      this.devices := ConfiguredDeviceList(configDevices, configDeviceId);
    }

    /**
     * The `input` handler; `answer(d, j)` is the hub's answer to the j-th
     * request made for the d-th configured entry.
     */
    method Input(msg: JsValue, answer: Answers) returns (outs: seq<RestoreOutput>, requests: seq<Request>)
      requires !lock.held
      modifies store, lock
      ensures !lock.held
      ensures var ids := ConfiguredDeviceList(configDevices, configDeviceId);
        && (ids == [] ==>
              outs == [PassThrough(msg)] && requests == []
              && store.entries == old(store.entries) && lock.log == old(lock.log))
        && (ids != [] && SafeHubId(hub).None? ==>
              outs == [] && requests == []
              && store.entries == old(store.entries) && lock.log == old(lock.log))
        && (ids != [] && SafeHubId(hub).Some? ==>
              var p := PrepareAll(old(store.entries), SafeHubId(hub).value, msg, ids, 0);
              var d := DispatchJobs(msg, p.jobs, answer);
              && store.entries == p.store && outs == p.errors + d.sent && requests == d.requests
              && lock.log == old(lock.log) + LockPairs(|d.requests|))
    {
      var toRestore := ConfiguredDeviceList(configDevices, configDeviceId);
      if |toRestore| == 0 {
        return [PassThrough(msg)], [];
      }
      var hubId := SafeHubId(hub);
      if hubId.None? {
        // every callback throws in `getSafeHubId`; the outer handler reports the error
        return [], [];
      }
      var errors, jobs := PrepareDevices(hubId.value, msg, toRestore);
      var d := DispatchAll(msg, jobs, answer);
      outs := errors + d.sent;
      requests := d.requests;
    }

    /** Reading, planning and clearing for every configured entry, in list order. */
    method PrepareDevices(hubId: string, msg: JsValue, raws: seq<JsValue>) returns (errors: seq<RestoreOutput>, jobs: seq<Job>)
      modifies store
      ensures Prepared(store.entries, errors, jobs) == PrepareAll(old(store.entries), hubId, msg, raws, 0)
    {
      ghost var final := PrepareAll(store.entries, hubId, msg, raws, 0);
      errors, jobs := [], [];
      assert raws[0..] == raws;
      var i := 0;
      while i < |raws|
        invariant 0 <= i <= |raws|
        invariant final == ContinuePrep(Prepared(store.entries, errors, jobs), hubId, msg, raws, i)
      {
        ghost var done := Prepared(store.entries, errors, jobs);
        var e, j := PrepareDevice(hubId, msg, raws[i], i);
        PrepareStep(done, hubId, msg, raws, i, Prepared(store.entries, e, j));
        errors := errors + e;
        jobs := jobs + j;
        i := i + 1;
      }
      PrepareDone(Prepared(store.entries, errors, jobs), hubId, msg, raws);
    }

    /** One entry up to its first request: read the saved state, plan, clear the key, report a failed plan. */
    method PrepareDevice(hubId: string, msg: JsValue, raw: JsValue, index: nat) returns (errors: seq<RestoreOutput>, jobs: seq<Job>)
      modifies store
      ensures Prepared(store.entries, errors, jobs) == PrepareOne(old(store.entries), hubId, msg, raw, index)
    {
      var key := StateKey(hubId, raw);
      var state := store.Get(key);
      if !Truthy(state) {
        return [], [];
      }
      var plan := PlanCommands(raw, state);
      store.Set(key, Undefined);
      if plan.error {
        return [RestoreError(msg, raw, state, plan.errorMsg)], [];
      }
      return [], [Job(index, RequestsOf(plan.commands))];
    }

    /** The devices' command loops, one device after another. */
    method DispatchAll(msg: JsValue, jobs: seq<Job>, answer: Answers) returns (d: Dispatch)
      requires !lock.held
      modifies lock
      ensures d == DispatchJobs(msg, jobs, answer)
      ensures !lock.held && lock.log == old(lock.log) + LockPairs(|d.requests|)
    {
      var sent: seq<RestoreOutput> := [];
      var requests: seq<Request> := [];
      var i := 0;
      while i < |jobs|
        invariant 0 <= i <= |jobs|
        invariant !lock.held && lock.log == old(lock.log) + LockPairs(|requests|)
        invariant DispatchJobs(msg, jobs, answer) == ContinueJobs(Dispatch(sent, requests), msg, jobs, answer, i)
      {
        DispatchJobsStep(msg, jobs, answer, i, sent, requests);
        var one := DispatchDevice(msg, jobs[i], answer);
        LockPairsAfter(old(lock.log), |requests|, |one.requests|);
        sent := sent + one.sent;
        requests := requests + one.requests;
        i := i + 1;
      }
      DispatchJobsDone(msg, jobs, answer, sent, requests);
      d := Dispatch(sent, requests);
    }

    /** The `for` loop over one device's commands; it returns at the first error status. */
    method DispatchDevice(msg: JsValue, job: Job, answer: Answers) returns (d: Dispatch)
      requires !lock.held
      modifies lock
      ensures d == DispatchFrom(msg, job.requests, answer, job.device, 0)
      ensures !lock.held && lock.log == old(lock.log) + LockPairs(|d.requests|)
    {
      var reqs := job.requests;
      ghost var final := DispatchFrom(msg, reqs, answer, job.device, 0);
      var sent: seq<RestoreOutput> := [];
      var requests: seq<Request> := [];
      var j := 0;
      while j < |reqs|
        invariant 0 <= j <= |reqs| && |requests| == j
        invariant !lock.held && lock.log == old(lock.log) + LockPairs(j)
        invariant final == Continue(Dispatch(sent, requests), msg, reqs, answer, job.device, j)
      {
        var req := reqs[j];
        DispatchStep(msg, reqs, answer, job.device, j, sent, requests);
        var step := RunCommand(msg, req, answer(job.device, j));
        LockPairsNext(old(lock.log), j);
        sent := sent + step.sent;
        requests := requests + [req];
        if step.stop {
          return Dispatch(sent, requests);
        }
        j := j + 1;
      }
      DispatchDone(msg, reqs, answer, job.device, j, sent, requests);
      d := Dispatch(sent, requests);
    }

    /** One pass of the loop body: take the lock, send the request, report, release the lock. */
    method RunCommand(msg: JsValue, req: Request, r: Response) returns (step: Step)
      requires !lock.held
      modifies lock
      ensures step == Outcome(msg, req, r)
      ensures !lock.held && lock.log == old(lock.log) + [Acquire, Release]
    {
      var deviceId := Str(req.deviceId);
      var command := req.command;
      var args := req.arguments;
      lock.AcquireLock();
      match r {
        case Thrown =>
          step := Step([], false);
        case Answered(status, text, json) =>
          if status >= 400 {
            step := Step([Dispatched(msg, deviceId, command, args, status, Str(text))], true);
          } else if json.None? {
            step := Step([], false);
          } else {
            step := Step([Dispatched(msg, deviceId, command, args, status, json.value)], false);
          }
      }
      lock.ReleaseLock();
    }

    /** The `close` handler: when the node is removed, clear the saved state of every configured entry. */
    method Close(removed: bool)
      modifies store
      ensures !removed || SafeHubId(hub).None? ==> store.entries == old(store.entries)
      ensures removed && SafeHubId(hub).Some? ==>
        store.entries == old(store.entries) - StateKeys(SafeHubId(hub).value, ConfiguredDeviceList(configDevices, configDeviceId))
    {
      if !removed {
        return;
      }
      var hubId := SafeHubId(hub);
      if hubId.None? {
        return;
      }
      var cleanup := ConfiguredDeviceList(configDevices, configDeviceId);
      var i := 0;
      while i < |cleanup|
        invariant 0 <= i <= |cleanup|
        invariant store.entries == old(store.entries) - StateKeys(hubId.value, cleanup[..i])
      {
        StateKeysSnoc(hubId.value, cleanup, i);
        store.Set(StateKey(hubId.value, cleanup[i]), Undefined);
        i := i + 1;
      }
      assert cleanup[..i] == cleanup;
    }
  }

  lemma StateKeysSnoc(hubId: string, raws: seq<JsValue>, i: nat)
    requires i < |raws|
    ensures StateKeys(hubId, raws[..i + 1]) == StateKeys(hubId, raws[..i]) + {StateKey(hubId, raws[i])}
  {
    assert raws[..i + 1] == raws[..i] + [raws[i]];
  }
}

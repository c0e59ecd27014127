# Hubitat flow nodes: capture, restore and the two logic nodes

A Dafny model of four Node-RED nodes that talk to a Hubitat hub. All four
read the hub connection's device cache or its event bus, and some of them
also use the flow-scoped key/value store.

- **capture** (`nodes/capture.js`) resolves each configured device in the
  cache. It looks up the exact key, then the numeric key, then scans the
  devices' id, deviceId, name and label. For each device it finds, it stores
  an owned snapshot of up to nine attributes under
  `hubitat_device_state_<id>` and sends one `{id, name}` summary. On close it
  clears only the snapshots it owns.
- **restore** (`nodes/restore.js`) reads a saved state under
  `hubitat_state_<hub>_<device>` and clears it. It classifies the state as
  switch-only, dimmer or colour bulb, and turns it into a plan of at most two
  hub commands or a validation error.
  - A failed plan produces an error record.
  - The planned commands are sent one at a time under the hub's command lock.
    A device's commands stop at the first HTTP status of 400 or more.
  - A command's arguments are sent as a string or as JSON, percent-encoded
    into one path segment.
- **logic** (`nodes/logic.js`) reads one attribute per configured device from
  the cache. It aggregates the matches with a target value, in mode `all` or
  `any`.
  - It commits the result as `logicState`, with the time of the last flip.
  - It sends a notification when the result changes to true.
  - It forwards or blocks input messages according to the committed result.
- **switch logic** (`nodes/switch-logic.js`) computes the same aggregate, but
  over its own record of `switch` values. Those values are seeded from the
  cache and updated by device events. It also keeps a table of the listeners
  it registers on the hub's event bus and removes them on close.

## Modules

| File | Module | Models |
|---|---|---|
| `js.dfy` | `Js` | JavaScript values and the language operations the nodes use: truthiness, `||`, `??`, `===`, property access and assignment, `String(x)`, `Number(x)`, `trim`. |
| `hub.dfy` | `Hub` | The collaborators: the device cache, the flow store (a class over a map), the command lock and the event bus (both classes). |
| `edge.dfy` | `Edge` | The all/any aggregate and the committed result (`logicState`, `lastFlip`) that both logic nodes share. |
| `capture.dfy` | `Capture` | The capture node. |
| `logic.dfy` | `Logic` | The logic node. |
| `switch_logic.dfy` | `SwitchLogic` | The switch logic node. |
| `encoding.dfy` | `Encoding` | `JSON.stringify` and `encodeURIComponent` on command arguments, each with its inverse. |
| `restore.dfy` | `Restore` | The restore node. |

Imperative handlers are methods of a class per node: `CaptureNode`,
`RestoreNode`, `LogicNode` and `SwitchLogicNode`. Each method is proved
against a function that specifies it; the properties the source promises are
lemmas about those functions. Storage, the lock and the event bus are class
instances whose fields the handlers update in place.

Some behaviour of the source is proved as it is written, though it may not be
what the authors intended:

- The capture node's keys can never be keys the restore node reads
  (`Restore.CaptureKeysAreNotStateKeys`). So a snapshot is never restored
  through the store; `Restore.CapturedSnapshotPlan` relates the two only as
  functions.
- In the switch logic node, an id that is configured twice (or two ids with
  the same string form) leaves its first registration on the event bus after
  close (`SwitchLogic.RepeatedIdStaysRegistered`).
- The dimmer's "Missing level for setLevel" branch can never run
  (`Restore.DimmerPlan`).

## Model

| member | source | states |
|---|---|---|
| Js.TrimEmpty | nodes/capture.js:10 | A string trims to the empty string exactly when every character in it is JavaScript whitespace. |
| Js.NumberOfDecimal | nodes/capture.js:51 | `Number(String(n))` is `n` for every integer. |
| Js.LookupSetInOthers | nodes/switch-logic.js:128 | After `obj[key] = value`, `key` reads `value` and every other property reads as before. |
| Hub.DeviceAt | nodes/logic.js:58 | Indexing the device cache gives undefined when no entry has the key's string form. |
| Hub.FindNamedFirst | nodes/logic.js:72 | `find(a => a && a.name === name)` gives the first entry with the name, and undefined exactly when there is none. |
| Hub.FlowStore.Get | nodes/restore.js:51 | Reading a key that is not stored gives undefined. |
| Hub.FlowStore.Set | nodes/restore.js:119 | Setting undefined deletes the key. Any other value is written. No other key changes. |
| Hub.CommandLock.AcquireLock | nodes/restore.js:166 | Acquiring needs a free lock; it holds the lock and logs an acquisition. |
| Hub.CommandLock.ReleaseLock | nodes/restore.js:189-196 | Releasing frees the lock and logs a release. |
| Hub.EventBus.On | nodes/switch-logic.js:135 | `on` adds exactly one registration. |
| Hub.EventBus.RemoveListener | nodes/switch-logic.js:149 | `removeListener` removes exactly one registration of that event and callback. |
| Edge.EveryAll | nodes/logic.js:101 | `every` holds exactly when every element holds. |
| Edge.AnyExists | nodes/logic.js:103 | `some` holds exactly when some element holds. |
| Edge.CombineMeaning | nodes/logic.js:100-104 | The aggregate is false for no devices. In mode all it holds exactly when every hit holds; in any other mode, exactly when some hit does. |
| Edge.Evaluate | nodes/logic.js:119-129 | After an evaluation the new value is committed. `lastFlip` becomes `now` only when `logicState` changed; otherwise nothing changes. |
| Edge.Settle | nodes/logic.js:165 | A start-up commit sets `logicState` and keeps `lastFlip`. |
| Edge.RunCommitsLast | nodes/logic.js:120-122 | After a run of evaluations the committed value is the last one evaluated. |
| Edge.NotifiedAreRisingEdges | nodes/logic.js:120-126 | Over a run of evaluations, a notification is due exactly at positions where the value is true and the previous committed value was not. |
| Edge.NotificationsSeparated | nodes/logic.js:124-126 | Between two notifications the value was false at least once. |
| Edge.UnchangedRun | nodes/logic.js:127-129 | A run in which no evaluation changes the value leaves `logicState` and `lastFlip` untouched. |
| Edge.LastFlipIsLastChange | nodes/logic.js:120-122 | `lastFlip` is the tick of the last evaluation that changed the value. |
| Capture.DisplayNameShape | nodes/capture.js:9-11 | The label is `<name> (<N>)`. `<name>` is the configured name unless it is blank after trimming, then `capture`. N is the configured list's length, or 0 when it is not an array. |
| Capture.ConfiguredDeviceList | nodes/capture.js:20-22 | The configured list when it is an array, else nothing. |
| Capture.NormalizeRawId | nodes/capture.js:90 | An object entry with a truthy `id` stands for it, else one with a truthy `deviceId` for that. Any other entry stands for itself. |
| Capture.FindDevice | nodes/capture.js:44-66 | `findDevice` returns `Resolve`: undefined without a map, then the exact key, then the numeric key, then the scan. |
| Capture.ScanDevices | nodes/capture.js:56-65 | The scan loop returns the first truthy value whose id, deviceId, name or label equals the wanted id as a string, or undefined. |
| Capture.ScanFindsFirst | nodes/capture.js:56-65 | The scan is undefined exactly when no value is accepted. Otherwise it returns an accepted value with no accepted value before it. |
| Capture.ResolveScanMiss | nodes/capture.js:44-66 | Over a cache whose enumeration lists each cached key once, an id that misses the exact and the numeric key finds nothing exactly when no cached device has a truthy record naming it by id, deviceId, name or label. Otherwise it finds such a cached device. |
| Capture.ResolveExactFirst | nodes/capture.js:45-49 | Without a device map nothing is found. An existing exact key is returned before any fallback. |
| Capture.ResolveCanonical | nodes/capture.js:51-54 | For a number or a canonical decimal string, the numeric key is the exact key, so a miss goes straight to the scan. |
| Capture.NumericKeyExample | nodes/capture.js:51-54 | The id `"012"` finds the entry under key `"12"` through the numeric key. |
| Capture.AttrValuePriority | nodes/capture.js:98-106 | The exact-name entry wins over the lower-cased one. Within it `value` wins over `currentValue`. Without an entry the device's own field is used. |
| Capture.BuildSnapshot | nodes/capture.js:96-107 | Building the captured object field by field gives `SnapshotOf(device, owner)`. |
| Capture.SnapshotBase | nodes/capture.js:96 | A snapshot has `id` = the device's id, `name` = label, else name, else `""`, and `owner` = the capturing node. |
| Capture.SnapshotAttr | nodes/capture.js:97-107 | A snapshot holds each listed attribute with the value `AttrValue` finds. |
| Capture.SnapshotKeys | nodes/capture.js:96-107 | A snapshot has no keys besides id, name, owner and the nine listed attributes. A listed attribute is a key exactly when its value is defined: an undefined attribute is left out. |
| Capture.CaptureOneEffect | nodes/capture.js:91-110 | An unresolved entry writes nothing and adds no summary. A resolved one writes only its key, holding `SnapshotOf(device, node)`, owned by the node, and adds one `{id, name}` summary. |
| Capture.CaptureAllSummaries | nodes/capture.js:109-110 | The summaries are exactly the resolved devices' `{id, name}`, in configured order. |
| Capture.CaptureAllStore | nodes/capture.js:89-111 | Keys of no resolved device keep their value. Every written key holds the snapshot, owned by the node, of the last resolved device in list order stored under that key. |
| Capture.ReleaseAllEffect | nodes/capture.js:128-135 | Close removes exactly the configured keys whose stored snapshot this node owns. Every other entry keeps its value. |
| Capture.CaptureNode.constructor | nodes/capture.js:9-11 | The node's label is `DisplayName` of its configuration. |
| Capture.CaptureNode.Input | nodes/capture.js:73-114 | With no configured devices the message passes through and the store is unchanged. Otherwise the store and the summaries are those of `CaptureAll` in list order. |
| Capture.CaptureNode.CaptureEntries | nodes/capture.js:89-111 | The callbacks run one after another in list order and give `CaptureAll`. |
| Capture.CaptureNode.CaptureEntry | nodes/capture.js:90-110 | One callback gives `CaptureOne`: resolve, snapshot, write, summary. |
| Capture.CaptureNode.Close | nodes/capture.js:121-136 | The close loop leaves the store as `ReleaseAll` defines. |
| Logic.AttributeFor | nodes/logic.js:61-69 | An attribute is known exactly for the five device types, and it is the type's own name. |
| Logic.DeviceStateCases | nodes/logic.js:57-81 | `getDeviceState` is null without a device, a known type or an attribute entry, and throws without an attribute collection. It prefers `currentValue`, then `value`, then the entry itself. |
| Logic.MatchesIsStrictEquality | nodes/logic.js:83-95 | A state matches exactly when it is not null or undefined and is strictly equal to the target; the lock special cases add nothing. |
| Logic.States | nodes/logic.js:99 | Mapping `getDeviceState` throws exactly when one lookup throws. Otherwise it gives each device's state in order. |
| Logic.ComputeLogicStateMeaning | nodes/logic.js:97-105 | False for a missing or empty device list. Mode all needs every configured device to match; any other mode needs one. |
| Logic.LogicNode.constructor | nodes/logic.js:27-28 | `logicState` and `lastFlip` start out null. |
| Logic.LogicNode.Startup | nodes/logic.js:158-167 | Start-up commits the predicate without setting `lastFlip`, and changes nothing when it throws. |
| Logic.LogicNode.OnEvent | nodes/logic.js:107-130 | A failed cache refresh, an event for an unconfigured device, or a lookup that throws changes nothing and sends nothing. Otherwise the predicate is committed by `Evaluate`. `{payload: {...event, state}, topic}` is sent only on a change to true with `sendEvents` set. |
| Logic.LogicNode.Input | nodes/logic.js:169-198 | The ids are `msg.deviceId` when defined, else the configured ones. A failed refresh returns quietly and changes nothing. A falsy or empty id list is reported and nothing is sent. A lookup that throws changes nothing. Otherwise the predicate over the configured devices is committed by `Evaluate`, then `msg` is forwarded when it holds and `null` is sent when it does not. |
| SwitchLogic.SettingsDefaults | nodes/switch-logic.js:8-15 | A scalar device id is wrapped and a missing one becomes `[]`. The target defaults to `'on'` and the mode to `'all'`, so both are truthy. |
| SwitchLogic.NormalizeCases | nodes/switch-logic.js:25-41 | Undefined without attributes or the entry. A list gives its first entry with the name. An object entry gives `value ?? currentValue ?? entry`; a primitive entry is itself. |
| SwitchLogic.ComputeLogicStateMeaning | nodes/switch-logic.js:69-78 | False for no ids. Mode all needs every recorded value to be the target; any other mode needs one. With a truthy target, an unrecorded id makes mode all false. |
| SwitchLogic.PatchEvent | nodes/switch-logic.js:127-129 | An event with only a truthy `id` gets `deviceId = id`, and everything else is unchanged. Any other event is left as it is. |
| SwitchLogic.SeedEffect | nodes/switch-logic.js:53-61 | Seeding records the cached `switch` value only for configured devices present in the cache with a defined value. Every other record is unchanged. |
| SwitchLogic.TableShape | nodes/switch-logic.js:124-136 | The listener table has one entry per distinct `String(id)`, each for event `device.<id>`. |
| SwitchLogic.TableMatchesAdded | nodes/switch-logic.js:124-136 | With distinct ids, the table's registrations are exactly those attaching added to the bus. |
| SwitchLogic.TableKeepsLast | nodes/switch-logic.js:134 | The table's listener for a key is the one made at the key's last position in the list. |
| SwitchLogic.RepeatedIdStaysRegistered | nodes/switch-logic.js:124-151 | For any key list in which positions i < j hold the same `String(id)`, the registration attaching made at i is not in the table, so removing the table's registrations leaves it on the bus. |
| SwitchLogic.AttachThenDetach | nodes/switch-logic.js:121-157 | With distinct ids, attaching and then detaching leaves the event bus as it was. |
| SwitchLogic.SwitchLogicNode.constructor | nodes/switch-logic.js:8-23 | Settings with defaults, no records, no committed result, an empty listener table and no start-up callback. |
| SwitchLogic.SwitchLogicNode.InitializeFromCache | nodes/switch-logic.js:43-67 | The records become `Seed` of the configured ids. The aggregate is committed without touching `lastFlip`. |
| SwitchLogic.SwitchLogicNode.HandleDeviceEvent | nodes/switch-logic.js:96-119 | Events without a truthy `deviceId` or not named `switch` change nothing. Otherwise only the record of `String(deviceId)` changes and the aggregate is committed by `Evaluate`. `{payload: true}` is sent only on a change to true with `sendEvents` set. |
| SwitchLogic.SwitchLogicNode.DeviceCallback | nodes/switch-logic.js:126-131 | A device listener handles the patched event as `HandleDeviceEvent` does. |
| SwitchLogic.SwitchLogicNode.Input | nodes/switch-logic.js:173-184 | `msg` is forwarded exactly when the aggregate holds, `null` is sent otherwise, and nothing is committed. |
| SwitchLogic.SwitchLogicNode.AttachListeners | nodes/switch-logic.js:121-142 | Without a bus nothing happens. Otherwise the table gains one listener per configured id, and the bus gains those registrations plus the start-up one. |
| SwitchLogic.SwitchLogicNode.AttachDevices | nodes/switch-logic.js:124-136 | The `forEach` adds `Table` of the ids to the listener table and `Added` of the ids to the bus. |
| SwitchLogic.SwitchLogicNode.AttachDevice | nodes/switch-logic.js:125-135 | One id: a fresh callback, registered in the table under `String(id)` and on the bus for `device.<id>`. |
| SwitchLogic.SwitchLogicNode.DetachListeners | nodes/switch-logic.js:144-157 | Without a bus nothing happens. Otherwise every tabled registration and the start-up one are removed, the table is emptied and the start-up callback is cleared. |
| SwitchLogic.RemoveRegistered | nodes/switch-logic.js:146-151 | Visiting the table's keys removes exactly the table's registrations from the bus. |
| Encoding.UnescapeEscape | nodes/restore.js:151 | Reading back the escaped body of a JSON string literal gives the string. |
| Encoding.JsonSingleton | nodes/restore.js:74 | The JSON of `[x]` is `[` + JSON of x + `]`. |
| Encoding.JsonObject3 | nodes/restore.js:104-108 | The JSON of an object with three defined members lists them in order as `"key":value`, comma-separated, in braces. |
| Encoding.EscapePlain | nodes/restore.js:151 | Text with no quote, backslash or control character is quoted as it is. |
| Encoding.EncodeUriComponent | nodes/restore.js:158 | `encodeURIComponent` output holds only unreserved characters and `%`. |
| Encoding.PercentDecodeEncode | nodes/restore.js:158 | Undoing the percent escapes gives the UTF-8 bytes of the text. |
| Encoding.Utf8Char | nodes/restore.js:158 | A character's UTF-8 bytes announce their length and decode back to the character. |
| Encoding.UriComponentRoundTrip | nodes/restore.js:158 | Percent-decoding, then UTF-8 decoding, the encoded text gives back its characters. |
| Restore.ConfiguredDevices | nodes/restore.js:12-16 | The list is empty exactly when `devices` is not a non-empty array and `deviceId` is falsy or `[]`. Every entry comes from one of the two settings. |
| Restore.Sanitise | nodes/restore.js:47 | The result has only ASCII letters, digits and `_`, and as many characters as the input has UTF-16 code units. |
| Restore.SanitiseFixes | nodes/restore.js:47 | Sanitising leaves a string unchanged exactly when it already holds only letters, digits and `_`. |
| Restore.SanitiseIdempotent | nodes/restore.js:47 | Sanitising twice is sanitising once. |
| Restore.SafeHubId | nodes/restore.js:38-48 | Throws exactly when the name is truthy but not a string. Otherwise the result is key-safe and as long as `String(hubId)`, where hubId is the trimmed name, else the host, else the id. |
| Restore.StateKeyInjective | nodes/restore.js:50 | Under one hub, two entries share a key exactly when they print the same. |
| Restore.CaptureKeysAreNotStateKeys | nodes/restore.js:50 | No key the capture node writes is a key the restore node reads. |
| Restore.PlanCommands | nodes/restore.js:58-116 | The three checks as written, the unreachable dimmer error included, compute `PlanFor` of the state's shape. |
| Restore.PlanBounds | nodes/restore.js:58-116 | At most two commands, all for the planned device. An error has no commands and a message. |
| Restore.BlankPlan | nodes/restore.js:58-116 | No switch, level or colour mode: an empty plan and no error. |
| Restore.SwitchOnlyPlan | nodes/restore.js:63-65 | Switch-only: one command named by the captured switch value, verbatim. |
| Restore.DimmerPlan | nodes/restore.js:68-80 | A dimmer never errors. `off` gives `[off]`; anything else gives `[on, setLevel [level]]`. |
| Restore.ColourPlan | nodes/restore.js:83-116 | Colour: `off` gives `[off]`; a switch other than on/off gives nothing. CT needs a temperature and a level that are not nullish, giving `setColorTemperature "<ct>,<level>"`. RGB rejects only undefined values, giving `setColor {hue, saturation, level}`. Any other mode gives nothing. |
| Restore.ErrorsAreColourOnly | nodes/restore.js:83-116 | Only a colour bulb that was on, in CT or RGB mode, can fail to plan. |
| Restore.NullLevel | nodes/restore.js:88-100 | A null level fails a CT restore but passes an RGB one. |
| Restore.CapturedSnapshotPlan | nodes/restore.js:63 | A capture snapshot is a truthy saved state whose planner fields are the device's attribute values. |
| Restore.PlainArguments | nodes/restore.js:146-154 | Commands without arguments send no argument text. |
| Restore.SetLevelArguments | nodes/restore.js:152-153 | `setLevel [level]` sends the JSON of the one-element array. |
| Restore.ColorTemperatureArguments | nodes/restore.js:147-148 | `setColorTemperature` sends its string verbatim. |
| Restore.SetColorArguments | nodes/restore.js:149-151 | `setColor` sends `{"hue":…,"saturation":…,"level":…}` as JSON. |
| Restore.ArgumentsSegment | nodes/restore.js:156-159 | With arguments, the command part is the name plus one segment without `/` that decodes back to the argument text. |
| Restore.PrepareOneEffect | nodes/restore.js:51-138 | Without a truthy saved state nothing happens. With one, the key is cleared whatever the plan. An error then gives one error record and no commands; success gives the plan's commands and no record. |
| Restore.PrepareAllStore | nodes/restore.js:119 | Reading removes exactly the configured keys that held a truthy state. Every other entry keeps its value. |
| Restore.Outcome | nodes/restore.js:165-188 | A request's loop stops exactly on an answer with status ≥ 400. |
| Restore.DispatchInOrder | nodes/restore.js:143 | A device's requests are its planned commands, in plan order, each at most once. |
| Restore.DispatchStopsAtFirstError | nodes/restore.js:175-182 | Every request but the last got no error status. The loop ends early only after an error status. |
| Restore.LockPairsAlternate | nodes/restore.js:166-196 | Acquisitions and releases alternate, starting with an acquisition: each acquire is followed by exactly one release. |
| Restore.RestoreNode.constructor | nodes/restore.js:18 | `node.devices` is the configured list. |
| Restore.RestoreNode.Input | nodes/restore.js:25-205 | With no devices the message passes through. When the hub id throws, nothing changes. Otherwise: the store is read and cleared as `PrepareAll` says; the error records come first, then each request's output; the lock log is one acquire/release pair per request. |
| Restore.RestoreNode.PrepareDevices | nodes/restore.js:37-140 | Reading, planning and clearing for every entry in list order gives `PrepareAll`. |
| Restore.RestoreNode.PrepareDevice | nodes/restore.js:49-138 | One entry gives `PrepareOne`. |
| Restore.RestoreNode.DispatchAll | nodes/restore.js:37 | The devices' loops one after another give `DispatchJobs`, with one lock pair per request. |
| Restore.RestoreNode.DispatchDevice | nodes/restore.js:143-198 | The `for` loop gives `DispatchFrom`: it stops after the first error status, with one lock pair per request. |
| Restore.RestoreNode.RunCommand | nodes/restore.js:165-197 | One request: acquire, answer as `Outcome` says, release. |
| Restore.RestoreNode.Close | nodes/restore.js:207-228 | Only when the node is removed and the hub id does not throw, the saved states of all configured entries are deleted. |

## Left out

- HTTP: the base URL, the access token, `fetch`, and parsing the response as
  text or JSON (`nodes/restore.js:161-183`). The hub's answer to the j-th
  request of the d-th configured entry is an input function: it is thrown,
  or a status with its text and its JSON body, if any. Only the part of the
  path below `devices/<id>/` is modelled (`Restore.CommandWithArgs`).
- The pacing of `releaseLock` with `setTimeout` (`nodes/restore.js:190-196`).
  The release is logged at once.
- Restore.RestoreNode.Input: the `Promise.all` interleaving of the devices'
  command loops is not modelled. Each callback runs to its first `await`
  before the next starts, so the model keeps the real order of the reading,
  planning, clearing and error records. The loops are then run one device
  after another. The model requires the lock to be free when a run starts.
- Cache refresh (`devicesFetcher`, `devicesInitialized`, `initializeDevices`).
  The cache is a parameter. A failed refresh before an event or an input of
  the logic node is the `refreshFailed` flag.
- Node-RED plumbing: `createNode`, `registerType`, `done`, `doneWithId`,
  `warn`, `error`, `log`, and `status` with its text built from `Date`.
  Also the websocket status handlers (`nodes/logic.js:148-156`) and the
  outer `catch` reports (`nodes/restore.js:201-204`,
  `nodes/capture.js:115-118`).
- Capture, restore and logic nodes without a hub configuration: they return before registering any handler (`nodes/capture.js:14-17`, `nodes/restore.js:20-23`, `nodes/logic.js:22-25`). The switch logic node still registers its `input` and `close` handlers (`nodes/switch-logic.js:159-193`). Without a hub it has no records and no bus, and that is what `SwitchLogic.SwitchLogicNode.Input` and `DetachListeners` model.
- The logic node's listener registration and removal
  (`nodes/logic.js:141-146`, `nodes/logic.js:200-211`). It registers one
  shared callback per configured id; the event-bus registry is modelled for
  the switch logic node.
- Numbers are unbounded integers: no fractions, NaN or infinities. `Number`
  reads only decimal integers, not hexadecimal, exponent or fraction forms.
- `...msg` in the outputs is kept as the input message in a field of the
  output record, not spread into it.
- `ToLowerAscii` lower-cases only ASCII letters; the attribute names it is
  applied to are ASCII.
- `SwitchLogic.NormalizeAttributeValue` treats an array of attributes by
  name only; an attribute name that is an array index is not modelled.
- SwitchLogic.PatchEvent: returns a patched copy of the event. The source
  assigns `event.deviceId` on the shared event object
  (`nodes/switch-logic.js:127-129`), so later listeners on the bus see the
  change. That aliasing is not modelled.
- Encoding.EncodeUriComponent: strings are sequences of Unicode scalar
  values, so a lone surrogate cannot occur. The `URIError` that
  `encodeURIComponent` throws on one (`nodes/restore.js:158`) is not
  modelled.

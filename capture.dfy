/**
 * The capture node (nodes/capture.js). On input it resolves each configured
 * device in the hub's device cache, snapshots a fixed set of its attributes
 * into the flow store under `hubitat_device_state_<id>`, tagged with the
 * node's id, and outputs one `{id, name}` summary per captured device. On close
 * it clears the snapshots of its configured devices that it owns.
 */
module Capture {
  import opened Js
  import opened Hub

  /** The attributes a snapshot records, in the order they are read. */
  const ATTRS: seq<string> :=
    ["switch", "level", "color", "hue", "RGB", "colorTemperature", "saturation", "colorMode", "colorName"]

  /** The keys every snapshot carries besides its attributes. */
  const BASE_KEYS: seq<string> := ["id", "name", "owner"]

  const KEY_PREFIX: string := "hubitat_device_state_"

  /** The store key of a device's snapshot: the template `hubitat_device_state_${id}`. */
  function StoreKey(id: JsValue): string {
    KEY_PREFIX + ToStr(id)
  }

  // ---------------------------------------------------------------- configuration

  /** The node's label: the configured name unless it is blank, then the configured list's length. */
  function DisplayName(configName: string, configDeviceId: JsValue): string {
    var count := if configDeviceId.Arr? then |configDeviceId.items| else 0;
    var base := if configName != "" && |Trim(configName)| != 0 then configName else "capture";
    base + " (" + IntToDecimal(count) + ")"
  }

  lemma DisplayNameShape(configName: string, configDeviceId: JsValue)
    ensures var count := if configDeviceId.Arr? then |configDeviceId.items| else 0;
      && (AllWhitespace(configName) ==> DisplayName(configName, configDeviceId) == "capture (" + NatToDecimal(count) + ")")
      && (!AllWhitespace(configName) ==> DisplayName(configName, configDeviceId) == configName + " (" + NatToDecimal(count) + ")")
  {
    TrimEmpty(configName);
  }

  /** `configuredDeviceList()`: a copy of the configured list, or empty when it is not an array. */
  function ConfiguredDeviceList(configDeviceId: JsValue): (ids: seq<JsValue>)
    ensures configDeviceId.Arr? ==> ids == configDeviceId.items
    ensures !configDeviceId.Arr? ==> ids == []
  {
    if configDeviceId.Arr? then configDeviceId.items else []
  }

  /**
   * A configured entry that is an object with a truthy `id` (else `deviceId`)
   * stands for that field; any other entry stands for itself.
   */
  function NormalizeRawId(raw: JsValue): (id: JsValue)
    ensures !raw.Obj? ==> id == raw
    ensures raw.Obj? && Truthy(Get(raw, "id")) ==> id == Get(raw, "id")
    ensures raw.Obj? && !Truthy(Get(raw, "id")) && Truthy(Get(raw, "deviceId")) ==> id == Get(raw, "deviceId")
    ensures raw.Obj? && !Truthy(Get(raw, "id")) && !Truthy(Get(raw, "deviceId")) ==> id == raw
  {
    var field := Or(Get(raw, "id"), Get(raw, "deviceId"));
    if Truthy(raw) && (raw.Arr? || raw.Obj?) && Truthy(field) then field else raw
  }

  // ---------------------------------------------------------------- findDevice

  /** `Object.values(devicesMap)`, in enumeration order. */
  function Values(cache: DeviceCache): seq<JsValue> {
    ValuesOf(cache.entries, cache.order)
  }

  function ValuesOf(entries: map<string, JsValue>, keys: seq<string>): seq<JsValue> {
    if |keys| == 0 then []
    else (if keys[0] in entries then [entries[keys[0]]] else []) + ValuesOf(entries, keys[1..])
  }

  /** A device record names the wanted identifier by its id, deviceId, name or label (compared as strings). */
  predicate Identifies(d: JsValue, want: string) {
    || ToStr(Get(d, "id")) == want
    || ToStr(Get(d, "deviceId")) == want
    || ToStr(Get(d, "name")) == want
    || ToStr(Get(d, "label")) == want
  }

  /** The linear scan accepts a value that is truthy and identifies the wanted id. */
  predicate ScanHit(d: JsValue, want: string) {
    Truthy(d) && Identifies(d, want)
  }

  /** The first value the scan accepts, or undefined. */
  function Scan(values: seq<JsValue>, want: string): JsValue {
    if |values| == 0 then Undefined
    else if ScanHit(values[0], want) then values[0]
    else Scan(values[1..], want)
  }

  /** The device `findDevice(deviceId, devicesMap)` returns; undefined when none. */
  function Resolve(devicesMap: Option<DeviceCache>, deviceId: JsValue): JsValue {
    if devicesMap.None? then Undefined
    else
      var entries := devicesMap.value.entries;
      var key := ToStr(deviceId);
      var num := ToNumber(deviceId);
      if key in entries then entries[key]
      else if num.Some? && IntToDecimal(num.value) in entries then entries[IntToDecimal(num.value)]
      else Scan(Values(devicesMap.value), key)
  }

  /**
   * `findDevice`: the exact key, then the numeric key, then a scan of the
   * cached devices in enumeration order that returns at the first hit.
   */
  method FindDevice(deviceId: JsValue, devicesMap: Option<DeviceCache>) returns (d: JsValue)
    ensures d == Resolve(devicesMap, deviceId)
  {
    if devicesMap.None? {
      return Undefined;
    }
    var entries := devicesMap.value.entries;
    var key := ToStr(deviceId);
    if key in entries {
      return entries[key];
    }
    var numId := ToNumber(deviceId);
    if numId.Some? && IntToDecimal(numId.value) in entries {
      return entries[IntToDecimal(numId.value)];
    }
    d := ScanDevices(Values(devicesMap.value), key);
  }

  /** The `for (const dev of Object.values(devicesMap))` loop: the first accepted value, or undefined. */
  method ScanDevices(values: seq<JsValue>, key: string) returns (d: JsValue)
    ensures d == Scan(values, key)
  {
    var i := 0;
    while i < |values|
      invariant 0 <= i <= |values|
      invariant Scan(values[i..], key) == Scan(values, key)
    {
      assert values[i..][1..] == values[i + 1..];
      if ScanHit(values[i], key) {
        return values[i];
      }
      i := i + 1;
    }
    return Undefined;
  }

  /**
   * The scan returns the first accepted value: some value is accepted exactly
   * when the result is not undefined, and then no earlier value is accepted.
   */
  lemma {:induction false} ScanFindsFirst(values: seq<JsValue>, want: string)
    ensures Scan(values, want) == Undefined <==> forall i :: 0 <= i < |values| ==> !ScanHit(values[i], want)
    ensures Scan(values, want) != Undefined ==>
      exists i :: 0 <= i < |values| && values[i] == Scan(values, want) && ScanHit(values[i], want)
        && forall j :: 0 <= j < i ==> !ScanHit(values[j], want)
  {
    if |values| > 0 {
      ScanFindsFirst(values[1..], want);
      if !ScanHit(values[0], want) {
        assert forall i :: 1 <= i < |values| ==> values[i] == values[1..][i - 1];
        if Scan(values, want) != Undefined {
          var i :| 0 <= i < |values[1..]| && values[1..][i] == Scan(values, want) && ScanHit(values[1..][i], want)
            && forall j :: 0 <= j < i ==> !ScanHit(values[1..][j], want);
          assert values[i + 1] == Scan(values, want);
        }
      } else {
        assert values[0] == Scan(values, want);
      }
    }
  }

  /** Every cached device whose key is enumerated is among the values, and every value is a cached device. */
  lemma {:induction false} ValuesOfMembers(entries: map<string, JsValue>, keys: seq<string>)
    ensures forall k :: k in keys && k in entries ==> entries[k] in ValuesOf(entries, keys)
    ensures forall v :: v in ValuesOf(entries, keys) ==> exists k :: k in keys && k in entries && entries[k] == v
  {
    if |keys| > 0 {
      ValuesOfMembers(entries, keys[1..]);
      var head := if keys[0] in entries then [entries[keys[0]]] else [];
      assert ValuesOf(entries, keys) == head + ValuesOf(entries, keys[1..]);
      forall k | k in keys && k in entries
        ensures entries[k] in ValuesOf(entries, keys)
      {
        if k != keys[0] {
          assert k in keys[1..];
        }
      }
      forall v | v in ValuesOf(entries, keys)
        ensures exists k :: k in keys && k in entries && entries[k] == v
      {
        if v in head {
          assert keys[0] in keys && keys[0] in entries && entries[keys[0]] == v;
        } else {
          var k :| k in keys[1..] && k in entries && entries[k] == v;
          assert k in keys;
        }
      }
    }
  }

  /**
   * Over a well-formed cache, an id that misses both the exact and the
   * numeric key finds nothing exactly when no cached device is accepted by
   * the scan; otherwise it finds a cached device the scan accepts.
   */
  lemma ResolveScanMiss(cache: DeviceCache, deviceId: JsValue)
    requires WellFormed(cache)
    requires ToStr(deviceId) !in cache.entries
    requires ToNumber(deviceId).None? || IntToDecimal(ToNumber(deviceId).value) !in cache.entries
    ensures Resolve(Some(cache), deviceId) == Undefined <==>
      forall k :: k in cache.entries ==> !ScanHit(cache.entries[k], ToStr(deviceId))
    ensures Resolve(Some(cache), deviceId) != Undefined ==>
      exists k :: k in cache.entries && cache.entries[k] == Resolve(Some(cache), deviceId)
        && ScanHit(cache.entries[k], ToStr(deviceId))
  {
    var want := ToStr(deviceId);
    var values := Values(cache);
    ValuesOfMembers(cache.entries, cache.order);
    ScanFindsFirst(values, want);
    assert Resolve(Some(cache), deviceId) == Scan(values, want);
    if Scan(values, want) == Undefined {
      forall k | k in cache.entries
        ensures !ScanHit(cache.entries[k], want)
      {
        assert cache.entries[k] in values;
        var i :| 0 <= i < |values| && values[i] == cache.entries[k];
      }
    } else {
      var i :| 0 <= i < |values| && values[i] == Scan(values, want) && ScanHit(values[i], want)
        && forall j :: 0 <= j < i ==> !ScanHit(values[j], want);
      assert values[i] in values;
    }
  }

  /** Without a device map nothing is found; an exact key is found before anything else. */
  lemma ResolveExactFirst(devicesMap: Option<DeviceCache>, deviceId: JsValue)
    ensures devicesMap.None? ==> Resolve(devicesMap, deviceId) == Undefined
    ensures devicesMap.Some? && ToStr(deviceId) in devicesMap.value.entries ==>
      Resolve(devicesMap, deviceId) == devicesMap.value.entries[ToStr(deviceId)]
  {
  }

  /** A number, or a string that is a number written canonically, has its own string as numeric key. */
  lemma NumericKeyIsKey(deviceId: JsValue)
    requires deviceId.Num? || (deviceId.Str? && exists n :: deviceId.s == IntToDecimal(n))
    ensures ToNumber(deviceId).Some? && IntToDecimal(ToNumber(deviceId).value) == ToStr(deviceId)
  {
    if deviceId.Str? {
      var n :| deviceId.s == IntToDecimal(n);
      NumberOfDecimal(n);
    }
  }

  /**
   * A numeric id, or a canonical decimal string, never reaches a different
   * entry through the numeric key than through the exact one: missing the
   * exact key, the lookup goes straight to the scan.
   */
  lemma ResolveCanonical(devicesMap: DeviceCache, deviceId: JsValue)
    requires deviceId.Num? || (deviceId.Str? && exists n :: deviceId.s == IntToDecimal(n))
    ensures Resolve(Some(devicesMap), deviceId) ==
      if ToStr(deviceId) in devicesMap.entries then devicesMap.entries[ToStr(deviceId)]
      else Scan(Values(devicesMap), ToStr(deviceId))
  {
    NumericKeyIsKey(deviceId);
  }

  /** A zero-padded id reaches its entry through the numeric key. */
  lemma NumericKeyExample(d: JsValue)
    ensures Resolve(Some(DeviceCache(map["12" := d], ["12"])), Str("012")) == d
  {
    var s := "012";
    assert Trim(s) == s by {
      assert TrimStart(s) == s;
      assert TrimEnd(s) == s;
    }
    assert AllDigits(s);
    assert s[..|s| - 1] == "01" && "01"[..1] == "0" && "0"[..0] == "";
    assert DecimalValue("0") == 0;
    assert DecimalValue("01") == 1;
    assert DecimalValue(s) == 12;
    assert IntToDecimal(12) == "12";
  }

  // ---------------------------------------------------------------- the snapshot

  /**
   * The value a snapshot records for `attr`, undefined when the key is left
   * out: the attribute entry under the exact name, else under the lower-cased
   * name, and within it `value`, then `currentValue`; failing both, the
   * device's own field of that name.
   */
  function AttrValue(device: JsValue, attr: string): JsValue {
    var attrs := Or(Get(device, "attributes"), Obj([]));
    var found := Or(Get(attrs, attr), Get(attrs, ToLowerAscii(attr)));
    if Truthy(found) && Get(found, "value") != Undefined then Get(found, "value")
    else if Truthy(found) && Get(found, "currentValue") != Undefined then Get(found, "currentValue")
    else Get(device, attr)
  }

  lemma AttrValuePriority(device: JsValue, attr: string)
    ensures var attrs := Or(Get(device, "attributes"), Obj([]));
      var exact := Get(attrs, attr);
      var lower := Get(attrs, ToLowerAscii(attr));
      var found := if Truthy(exact) then exact else lower;
      && (Truthy(exact) ==> found == exact)
      && (Truthy(found) && Get(found, "value") != Undefined ==> AttrValue(device, attr) == Get(found, "value"))
      && (Truthy(found) && Get(found, "value") == Undefined && Get(found, "currentValue") != Undefined ==>
            AttrValue(device, attr) == Get(found, "currentValue"))
      && (!Truthy(found) ==> AttrValue(device, attr) == Get(device, attr))
  {
  }

  /** The display name a snapshot records: label, else name, else the empty string. */
  function NameOf(device: JsValue): JsValue {
    Or(Or(Get(device, "label"), Get(device, "name")), Str(""))
  }

  /** The property one attribute contributes to a snapshot: none when its value is undefined. */
  function AttrProp(device: JsValue, attr: string): seq<(string, JsValue)> {
    var v := AttrValue(device, attr);
    if v == Undefined then [] else [(attr, v)]
  }

  /** The attribute properties of a snapshot, in the order of `attrs`. */
  function AttrProps(device: JsValue, attrs: seq<string>): seq<(string, JsValue)> {
    if |attrs| == 0 then [] else AttrProp(device, attrs[0]) + AttrProps(device, attrs[1..])
  }

  lemma {:induction false} AttrPropsSnoc(device: JsValue, attrs: seq<string>, attr: string)
    ensures AttrProps(device, attrs + [attr]) == AttrProps(device, attrs) + AttrProp(device, attr)
  {
    if |attrs| > 0 {
      assert (attrs + [attr])[1..] == attrs[1..] + [attr];
      AttrPropsSnoc(device, attrs[1..], attr);
    } else {
      assert AttrProps(device, [attr]) == AttrProp(device, attr) + AttrProps(device, []);
    }
  }

  function BaseProps(device: JsValue, owner: string): seq<(string, JsValue)> {
    [("id", Get(device, "id")), ("name", NameOf(device)), ("owner", Str(owner))]
  }

  /** The object the capture node stores for `device`. */
  function SnapshotOf(device: JsValue, owner: string): JsValue {
    Obj(BaseProps(device, owner) + AttrProps(device, ATTRS))
  }

  /** The property names of an object, in order. */
  function KeysOf(props: seq<(string, JsValue)>): (keys: seq<string>)
    ensures |keys| == |props| && forall i :: 0 <= i < |props| ==> keys[i] == props[i].0
  {
    if |props| == 0 then [] else [props[0].0] + KeysOf(props[1..])
  }

  lemma {:induction false} KeysOfAppend(a: seq<(string, JsValue)>, b: seq<(string, JsValue)>)
    ensures KeysOf(a + b) == KeysOf(a) + KeysOf(b)
  {
    if |a| > 0 {
      assert (a + b)[1..] == a[1..] + b;
      KeysOfAppend(a[1..], b);
    } else {
      assert a + b == b;
    }
  }

  lemma AttrsDistinct()
    ensures Distinct(BASE_KEYS + ATTRS)
  {
  }

  /** Assigning a property the object does not have yet appends it. */
  lemma {:induction false} SetInFresh(props: seq<(string, JsValue)>, key: string, value: JsValue)
    requires key !in KeysOf(props)
    ensures SetIn(props, key, value) == props + [(key, value)]
  {
    if |props| > 0 {
      assert props[0].0 == KeysOf(props)[0];
      assert KeysOf(props[1..]) == KeysOf(props)[1..];
      SetInFresh(props[1..], key, value);
      assert props == [props[0]] + props[1..];
    }
  }

  /** An attribute is a key of the attribute properties exactly when it is listed and its value is defined. */
  lemma {:induction false} AttrPropsKeys(device: JsValue, attrs: seq<string>)
    ensures forall k :: k in KeysOf(AttrProps(device, attrs)) <==> k in attrs && AttrValue(device, k) != Undefined
  {
    if |attrs| > 0 {
      AttrPropsKeys(device, attrs[1..]);
      KeysOfAppend(AttrProp(device, attrs[0]), AttrProps(device, attrs[1..]));
      assert forall k :: k in attrs <==> k == attrs[0] || k in attrs[1..];
    }
  }

  lemma {:induction false} LookupAppend(a: seq<(string, JsValue)>, b: seq<(string, JsValue)>, key: string)
    ensures key !in KeysOf(a) ==> Lookup(a + b, key) == Lookup(b, key)
    ensures key in KeysOf(a) ==> Lookup(a + b, key) == Lookup(a, key)
  {
    if |a| > 0 {
      assert a[0].0 == KeysOf(a)[0];
      assert (a + b)[0] == a[0];
      assert (a + b)[1..] == a[1..] + b;
      assert KeysOf(a) == [a[0].0] + KeysOf(a[1..]);
      LookupAppend(a[1..], b, key);
    } else {
      assert a + b == b;
    }
  }

  lemma {:induction false} LookupAttrProps(device: JsValue, attrs: seq<string>, key: string)
    requires Distinct(attrs)
    ensures Lookup(AttrProps(device, attrs), key) == if key in attrs then AttrValue(device, key) else Undefined
  {
    if |attrs| > 0 {
      var head := AttrProp(device, attrs[0]);
      assert Distinct(attrs[1..]) by {
        forall i, j | 0 <= i < j < |attrs[1..]| ensures attrs[1..][i] != attrs[1..][j] {
          assert attrs[1..][i] == attrs[i + 1] && attrs[1..][j] == attrs[j + 1];
        }
      }
      LookupAttrProps(device, attrs[1..], key);
      LookupAppend(head, AttrProps(device, attrs[1..]), key);
      if key == attrs[0] {
        assert key !in attrs[1..] by {
          forall j | 0 <= j < |attrs[1..]| ensures attrs[1..][j] != key {
            assert attrs[1..][j] == attrs[j + 1];
          }
        }
      }
    }
  }

  lemma AttrsSeparate()
    ensures Distinct(ATTRS)
    ensures forall k :: k in ATTRS ==> k !in BASE_KEYS
  {
  }

  /** A snapshot has `id` = the device's id, `name` = label || name || "" and `owner` = the capturing node. */
  lemma SnapshotBase(device: JsValue, owner: string)
    ensures Get(SnapshotOf(device, owner), "id") == Get(device, "id")
    ensures Get(SnapshotOf(device, owner), "name") == NameOf(device)
    ensures Get(SnapshotOf(device, owner), "owner") == Str(owner)
  {
    var base := BaseProps(device, owner);
    assert KeysOf(base) == BASE_KEYS;
    LookupAppend(base, AttrProps(device, ATTRS), "id");
    LookupAppend(base, AttrProps(device, ATTRS), "name");
    LookupAppend(base, AttrProps(device, ATTRS), "owner");
    assert base[1..][1..] == [("owner", Str(owner))];
    assert Lookup(base[1..][1..], "owner") == Str(owner);
    assert Lookup(base[1..], "owner") == Str(owner);
  }

  /** A snapshot records each listed attribute as `AttrValue` finds it (undefined meaning the key is absent). */
  lemma SnapshotAttr(device: JsValue, owner: string, key: string)
    requires key in ATTRS
    ensures Get(SnapshotOf(device, owner), key) == AttrValue(device, key)
  {
    AttrsSeparate();
    var base := BaseProps(device, owner);
    assert KeysOf(base) == BASE_KEYS;
    LookupAttrProps(device, ATTRS, key);
    LookupAppend(base, AttrProps(device, ATTRS), key);
  }

  /**
   * A snapshot has no keys besides id, name, owner and the listed
   * attributes, and a listed attribute is a key exactly when its value is
   * defined: an undefined attribute is left out, not stored as undefined.
   */
  lemma SnapshotKeys(device: JsValue, owner: string)
    ensures forall k :: k in KeysOf(SnapshotOf(device, owner).props) ==> k in BASE_KEYS || k in ATTRS
    ensures forall k :: k in ATTRS ==> (k in KeysOf(SnapshotOf(device, owner).props) <==> AttrValue(device, k) != Undefined)
  {
    AttrsSeparate();
    var base := BaseProps(device, owner);
    AttrPropsKeys(device, ATTRS);
    KeysOfAppend(base, AttrProps(device, ATTRS));
    assert KeysOf(base) == BASE_KEYS;
  }

  /** The attribute at position i is not yet a key of the object built from the attributes before it. */
  lemma AttrFresh(device: JsValue, owner: string, i: nat)
    requires i < |ATTRS|
    ensures ATTRS[i] !in KeysOf(BaseProps(device, owner) + AttrProps(device, ATTRS[..i]))
  {
    AttrsDistinct();
    AttrPropsKeys(device, ATTRS[..i]);
    var base := BaseProps(device, owner);
    KeysOfAppend(base, AttrProps(device, ATTRS[..i]));
    forall j | 0 <= j < i ensures ATTRS[..i][j] != ATTRS[i] {
      assert (BASE_KEYS + ATTRS)[j + 3] == ATTRS[j] && (BASE_KEYS + ATTRS)[i + 3] == ATTRS[i];
    }
    forall j | 0 <= j < 3 ensures BASE_KEYS[j] != ATTRS[i] {
      assert (BASE_KEYS + ATTRS)[j] == BASE_KEYS[j] && (BASE_KEYS + ATTRS)[i + 3] == ATTRS[i];
    }
    assert KeysOf(base) == BASE_KEYS;
  }

  /** The snapshot's properties after the attributes before position i have been handled. */
  function PartialProps(device: JsValue, owner: string, i: nat): seq<(string, JsValue)>
    requires i <= |ATTRS|
  {
    BaseProps(device, owner) + AttrProps(device, ATTRS[..i])
  }

  /** Handling the attribute at position i adds its value under its name when it has one. */
  lemma BuildStep(device: JsValue, owner: string, i: nat)
    requires i < |ATTRS|
    ensures var v := AttrValue(device, ATTRS[i]);
      PartialProps(device, owner, i + 1) ==
        if v != Undefined then SetIn(PartialProps(device, owner, i), ATTRS[i], v) else PartialProps(device, owner, i)
  {
    AttrPropsSnoc(device, ATTRS[..i], ATTRS[i]);
    assert ATTRS[..i + 1] == ATTRS[..i] + [ATTRS[i]];
    if AttrValue(device, ATTRS[i]) != Undefined {
      AttrFresh(device, owner, i);
      SetInFresh(PartialProps(device, owner, i), ATTRS[i], AttrValue(device, ATTRS[i]));
    }
  }

  /** The `forEach` over ATTRS that fills in the captured object one attribute at a time. */
  method BuildSnapshot(device: JsValue, owner: string) returns (captured: JsValue)
    ensures captured == SnapshotOf(device, owner)
  {
    var props := BaseProps(device, owner);
    var i := 0;
    assert ATTRS[..0] == [];
    while i < |ATTRS|
      invariant 0 <= i <= |ATTRS|
      invariant props == PartialProps(device, owner, i)
    {
      var v := AttrValue(device, ATTRS[i]);
      BuildStep(device, owner, i);
      if v != Undefined {
        props := SetIn(props, ATTRS[i], v);
      }
      i := i + 1;
    }
    assert ATTRS[..i] == ATTRS;
    captured := Obj(props);
  }

  // ---------------------------------------------------------------- capture into the store

  datatype Summary = Summary(id: JsValue, name: JsValue)

  datatype CaptureOutput =
    | PassThrough(msg: JsValue)             // no devices configured: the input message is sent on
    | Summaries(summaries: seq<Summary>)    // `{payload: summaries}`

  /** The device a configured entry resolves to (falsy when unresolved). */
  function DeviceFor(raw: JsValue, cache: DeviceCache): JsValue {
    Resolve(Some(cache), NormalizeRawId(raw))
  }

  /** One configured entry: a resolved device writes its snapshot and adds a summary; an unresolved one does nothing. */
  function CaptureOne(store: map<string, JsValue>, raw: JsValue, cache: DeviceCache, owner: string)
    : (map<string, JsValue>, seq<Summary>)
  {
    var device := DeviceFor(raw, cache);
    if !Truthy(device) then (store, [])
    else
      (store[StoreKey(Get(device, "id")) := SnapshotOf(device, owner)],
       [Summary(Get(device, "id"), NameOf(device))])
  }

  /** The configured entries handled one after another, in list order. */
  function CaptureAll(store: map<string, JsValue>, raws: seq<JsValue>, cache: DeviceCache, owner: string)
    : (map<string, JsValue>, seq<Summary>)
    decreases |raws|
  {
    if |raws| == 0 then (store, [])
    else
      var (st1, s1) := CaptureOne(store, raws[0], cache, owner);
      var (st2, s2) := CaptureAll(st1, raws[1..], cache, owner);
      (st2, s1 + s2)
  }

  /** Handling the entry at position i, then the ones after it, is handling the entries from i on. */
  lemma CaptureAllFrom(store: map<string, JsValue>, raws: seq<JsValue>, i: nat, cache: DeviceCache, owner: string)
    requires i < |raws|
    ensures var one := CaptureOne(store, raws[i], cache, owner);
      var rest := CaptureAll(one.0, raws[i + 1..], cache, owner);
      CaptureAll(store, raws[i..], cache, owner) == (rest.0, one.1 + rest.1)
  {
    assert raws[i..][0] == raws[i] && raws[i..][1..] == raws[i + 1..];
  }

  /** What a capture run comes to once the entries before position i have produced `sums` and left `store`. */
  function ContinueCapture(sums: seq<Summary>, store: map<string, JsValue>, raws: seq<JsValue>, i: nat, cache: DeviceCache, owner: string)
    : (map<string, JsValue>, seq<Summary>)
    requires i <= |raws|
  {
    var rest := CaptureAll(store, raws[i..], cache, owner);
    (rest.0, sums + rest.1)
  }

  lemma CaptureStep(sums: seq<Summary>, store: map<string, JsValue>, raws: seq<JsValue>, i: nat, cache: DeviceCache, owner: string,
                    one: (map<string, JsValue>, seq<Summary>))
    requires i < |raws| && one == CaptureOne(store, raws[i], cache, owner)
    ensures ContinueCapture(sums, store, raws, i, cache, owner) == ContinueCapture(sums + one.1, one.0, raws, i + 1, cache, owner)
  {
    CaptureAllFrom(store, raws, i, cache, owner);
    var rest := CaptureAll(one.0, raws[i + 1..], cache, owner);
    assert sums + (one.1 + rest.1) == (sums + one.1) + rest.1;
  }

  lemma CaptureDone(sums: seq<Summary>, store: map<string, JsValue>, raws: seq<JsValue>, cache: DeviceCache, owner: string)
    ensures ContinueCapture(sums, store, raws, |raws|, cache, owner) == (store, sums)
  {
    assert raws[|raws|..] == [];
    assert sums + [] == sums;
  }

  /** The devices the configured entries resolve to, unresolved entries dropped, in list order. */
  function ResolvedDevices(raws: seq<JsValue>, cache: DeviceCache): seq<JsValue> {
    if |raws| == 0 then []
    else
      var d := DeviceFor(raws[0], cache);
      (if Truthy(d) then [d] else []) + ResolvedDevices(raws[1..], cache)
  }

  /** The store keys a capture of these entries writes. */
  function WrittenKeys(raws: seq<JsValue>, cache: DeviceCache): set<string> {
    if |raws| == 0 then {}
    else
      var d := DeviceFor(raws[0], cache);
      (if Truthy(d) then {StoreKey(Get(d, "id"))} else {}) + WrittenKeys(raws[1..], cache)
  }

  /** One entry: an unresolved one changes nothing; a resolved one writes its owned snapshot and one summary. */
  lemma CaptureOneEffect(store: map<string, JsValue>, raw: JsValue, cache: DeviceCache, owner: string)
    ensures var (st, sums) := CaptureOne(store, raw, cache, owner);
      var d := DeviceFor(raw, cache);
      var key := StoreKey(Get(d, "id"));
      && (!Truthy(d) ==> st == store && sums == [])
      && (Truthy(d) ==>
            && key in st && st == store[key := st[key]]
            && st[key] == SnapshotOf(d, owner) && Get(st[key], "owner") == Str(owner)
            && sums == [Summary(Get(d, "id"), NameOf(d))])
  {
    var d := DeviceFor(raw, cache);
    if Truthy(d) {
      SnapshotBase(d, owner);
    }
  }

  /** The summaries are exactly the resolved devices, in configured order. */
  lemma {:induction false} CaptureAllSummaries(store: map<string, JsValue>, raws: seq<JsValue>, cache: DeviceCache, owner: string)
    decreases |raws|
    ensures var sums := CaptureAll(store, raws, cache, owner).1;
      var devices := ResolvedDevices(raws, cache);
      && |sums| == |devices|
      && forall i :: 0 <= i < |sums| ==> sums[i] == Summary(Get(devices[i], "id"), NameOf(devices[i]))
  {
    if |raws| > 0 {
      var one := CaptureOne(store, raws[0], cache, owner);
      CaptureAllSummaries(one.0, raws[1..], cache, owner);
      var d := DeviceFor(raws[0], cache);
      var head := if Truthy(d) then [d] else [];
      assert one.1 == if Truthy(d) then [Summary(Get(d, "id"), NameOf(d))] else [];
      var sums := CaptureAll(one.0, raws[1..], cache, owner).1;
      var devices := ResolvedDevices(raws[1..], cache);
      assert CaptureAll(store, raws, cache, owner).1 == one.1 + sums;
      assert ResolvedDevices(raws, cache) == head + devices;
    }
  }

  /** Position i holds the last of the resolved devices stored under `key`. */
  predicate LastStoredAt(devices: seq<JsValue>, key: string, i: int) {
    && 0 <= i < |devices|
    && StoreKey(Get(devices[i], "id")) == key
    && forall j :: i < j < |devices| ==> StoreKey(Get(devices[j], "id")) != key
  }

  /** Every resolved device's key is a written key. */
  lemma {:induction false} ResolvedKeysWritten(raws: seq<JsValue>, cache: DeviceCache)
    decreases |raws|
    ensures forall d :: d in ResolvedDevices(raws, cache) ==> StoreKey(Get(d, "id")) in WrittenKeys(raws, cache)
  {
    if |raws| > 0 {
      ResolvedKeysWritten(raws[1..], cache);
      var d := DeviceFor(raws[0], cache);
      var head := if Truthy(d) then [d] else [];
      assert ResolvedDevices(raws, cache) == head + ResolvedDevices(raws[1..], cache);
      assert WrittenKeys(raws, cache) == (if Truthy(d) then {StoreKey(Get(d, "id"))} else {}) + WrittenKeys(raws[1..], cache);
    }
  }

  /** A key no resolved device maps to is left as it was. */
  lemma {:induction false} CaptureAllUntouched(store: map<string, JsValue>, raws: seq<JsValue>, cache: DeviceCache, owner: string)
    decreases |raws|
    ensures var st := CaptureAll(store, raws, cache, owner).0;
      forall k :: k !in WrittenKeys(raws, cache) ==> (k in st <==> k in store) && (k in st ==> st[k] == store[k])
  {
    if |raws| > 0 {
      var st1 := CaptureOne(store, raws[0], cache, owner).0;
      CaptureOneEffect(store, raws[0], cache, owner);
      CaptureAllUntouched(st1, raws[1..], cache, owner);
    }
  }

  /** Every written key holds the snapshot of the last resolved device stored under it. */
  lemma {:induction false} CaptureAllLast(store: map<string, JsValue>, raws: seq<JsValue>, cache: DeviceCache, owner: string)
    decreases |raws|
    ensures var st := CaptureAll(store, raws, cache, owner).0;
      forall k :: k in WrittenKeys(raws, cache) ==> k in st && LastSnapshot(st[k], ResolvedDevices(raws, cache), k, owner)
  {
    if |raws| > 0 {
      var d := DeviceFor(raws[0], cache);
      var st1 := CaptureOne(store, raws[0], cache, owner).0;
      var rest := raws[1..];
      CaptureOneEffect(store, raws[0], cache, owner);
      CaptureAllLast(st1, rest, cache, owner);
      CaptureAllUntouched(st1, rest, cache, owner);
      ResolvedKeysWritten(rest, cache);
      var st := CaptureAll(st1, rest, cache, owner).0;
      assert CaptureAll(store, raws, cache, owner).0 == st;
      var head := if Truthy(d) then [d] else [];
      var later := ResolvedDevices(rest, cache);
      assert ResolvedDevices(raws, cache) == head + later;
      forall k | k in WrittenKeys(raws, cache)
        ensures k in st && LastSnapshot(st[k], head + later, k, owner)
      {
        if k in WrittenKeys(rest, cache) {
          LastSnapshotShift(head, later, k, owner, st[k]);
        } else {
          LastSnapshotFirst(d, later, k, owner);
        }
      }
    }
  }

  /** `v` is the snapshot of the last of `devices` stored under `key`. */
  predicate LastSnapshot(v: JsValue, devices: seq<JsValue>, key: string, owner: string) {
    exists i :: 0 <= i < |devices| && LastStoredAt(devices, key, i) && v == SnapshotOf(devices[i], owner)
  }

  lemma LastSnapshotShift(head: seq<JsValue>, later: seq<JsValue>, key: string, owner: string, v: JsValue)
    requires LastSnapshot(v, later, key, owner)
    ensures LastSnapshot(v, head + later, key, owner)
  {
    var i :| 0 <= i < |later| && LastStoredAt(later, key, i) && v == SnapshotOf(later[i], owner);
    LastStoredShift(head, later, key, i);
  }

  lemma LastStoredShift(head: seq<JsValue>, later: seq<JsValue>, key: string, i: int)
    requires LastStoredAt(later, key, i)
    ensures LastStoredAt(head + later, key, i + |head|) && (head + later)[i + |head|] == later[i]
  {
    var all, n := head + later, |head|;
    forall j | i + n < j < |all|
      ensures StoreKey(Get(all[j], "id")) != key
    {
      assert all[j] == later[j - n];
    }
  }

  lemma LastSnapshotFirst(d: JsValue, later: seq<JsValue>, key: string, owner: string)
    requires StoreKey(Get(d, "id")) == key
    requires forall e :: e in later ==> StoreKey(Get(e, "id")) != key
    ensures LastSnapshot(SnapshotOf(d, owner), [d] + later, key, owner)
  {
    forall j | 0 < j < |[d] + later|
      ensures StoreKey(Get(([d] + later)[j], "id")) != key
    {
      assert ([d] + later)[j] == later[j - 1];
    }
    assert ([d] + later)[0] == d;
    assert LastStoredAt([d] + later, key, 0);
  }

  /**
   * A key no resolved device maps to is left as it was; every written key
   * holds the snapshot, owned by the capturing node, of the last resolved
   * device stored under it.
   */
  lemma CaptureAllStore(store: map<string, JsValue>, raws: seq<JsValue>, cache: DeviceCache, owner: string)
    ensures var st := CaptureAll(store, raws, cache, owner).0;
      var devices := ResolvedDevices(raws, cache);
      && (forall k :: k !in WrittenKeys(raws, cache) ==> (k in st <==> k in store) && (k in st ==> st[k] == store[k]))
      && (forall k :: k in WrittenKeys(raws, cache) ==>
            && k in st && Get(st[k], "owner") == Str(owner)
            && LastSnapshot(st[k], devices, k, owner))
  {
    CaptureAllUntouched(store, raws, cache, owner);
    CaptureAllLast(store, raws, cache, owner);
    LastSnapshotOwned(CaptureAll(store, raws, cache, owner).0, ResolvedDevices(raws, cache), WrittenKeys(raws, cache), owner);
  }

  lemma LastSnapshotOwned(st: map<string, JsValue>, devices: seq<JsValue>, keys: set<string>, owner: string)
    requires forall k :: k in keys ==> k in st && LastSnapshot(st[k], devices, k, owner)
    ensures forall k :: k in keys ==> Get(st[k], "owner") == Str(owner)
  {
    forall k | k in keys
      ensures Get(st[k], "owner") == Str(owner)
    {
      var i :| 0 <= i < |devices| && LastStoredAt(devices, k, i) && st[k] == SnapshotOf(devices[i], owner);
      SnapshotBase(devices[i], owner);
    }
  }

  // ---------------------------------------------------------------- release on close

  /** The stored value is a snapshot owned by `owner`: `existing && existing.owner === node.id`. */
  predicate OwnedBy(existing: JsValue, owner: string) {
    Truthy(existing) && StrictEquals(Get(existing, "owner"), Str(owner))
  }

  /** The close handler's step for one configured entry. */
  function ReleaseOne(store: map<string, JsValue>, raw: JsValue, owner: string): map<string, JsValue> {
    var key := StoreKey(NormalizeRawId(raw));
    if key in store && OwnedBy(store[key], owner) then store - {key} else store
  }

  function ReleaseAll(store: map<string, JsValue>, raws: seq<JsValue>, owner: string): map<string, JsValue> {
    if |raws| == 0 then store else ReleaseAll(ReleaseOne(store, raws[0], owner), raws[1..], owner)
  }

  /** The keys the close handler looks at: one per configured entry, from the entry itself. */
  function ConfiguredKeys(raws: seq<JsValue>): set<string> {
    set r | r in raws :: StoreKey(NormalizeRawId(r))
  }

  /**
   * Close removes exactly the configured keys whose stored snapshot this node
   * owns; every other entry, including configured keys owned by other nodes,
   * keeps its value.
   */
  lemma {:induction false} ReleaseAllEffect(store: map<string, JsValue>, raws: seq<JsValue>, owner: string)
    ensures var st := ReleaseAll(store, raws, owner);
      forall k :: (k in st <==> k in store && !(k in ConfiguredKeys(raws) && OwnedBy(store[k], owner)))
        && (k in st ==> st[k] == store[k])
  {
    if |raws| > 0 {
      var st1 := ReleaseOne(store, raws[0], owner);
      ReleaseAllEffect(st1, raws[1..], owner);
      assert ConfiguredKeys(raws) == {StoreKey(NormalizeRawId(raws[0]))} + ConfiguredKeys(raws[1..]);
    }
  }

  // ---------------------------------------------------------------- the node

  class CaptureNode {
    const id: string
    const name: string
    const configDeviceId: JsValue
    const store: FlowStore

    constructor (id: string, configName: string, configDeviceId: JsValue, store: FlowStore)
      ensures this.id == id && this.configDeviceId == configDeviceId && this.store == store
      ensures name == DisplayName(configName, configDeviceId)
    {
      this.id := id;
      this.configDeviceId := configDeviceId;
      this.store := store;
      this.name := DisplayName(configName, configDeviceId);
    }

    /** The `input` handler, after the cache refresh: `devices` is the hub's device map (or `{}`). */
    method Input(msg: JsValue, devices: DeviceCache) returns (out: CaptureOutput)
      modifies store
      ensures ConfiguredDeviceList(configDeviceId) == [] ==>
        out == PassThrough(msg) && store.entries == old(store.entries)
      ensures ConfiguredDeviceList(configDeviceId) != [] ==>
        var (st, sums) := CaptureAll(old(store.entries), ConfiguredDeviceList(configDeviceId), devices, id);
        store.entries == st && out == Summaries(sums)
    {
      var toCapture := ConfiguredDeviceList(configDeviceId);
      if |toCapture| == 0 {
        return PassThrough(msg);
      }
      var summaries := CaptureEntries(toCapture, devices);
      return Summaries(summaries);
    }

    /** `Promise.all(toCapture.map(...))`: the callbacks do not wait, so they run one after another in list order. */
    method CaptureEntries(toCapture: seq<JsValue>, devices: DeviceCache) returns (summaries: seq<Summary>)
      modifies store
      ensures (store.entries, summaries) == CaptureAll(old(store.entries), toCapture, devices, id)
    {
      ghost var final := CaptureAll(store.entries, toCapture, devices, id);
      summaries := [];
      assert toCapture[0..] == toCapture && summaries + final.1 == final.1;
      var i := 0;
      while i < |toCapture|
        invariant 0 <= i <= |toCapture|
        invariant final == ContinueCapture(summaries, store.entries, toCapture, i, devices, id)
      {
        ghost var before := store.entries;
        var added := CaptureEntry(toCapture[i], devices);
        CaptureStep(summaries, before, toCapture, i, devices, id, (store.entries, added));
        summaries := summaries + added;
        i := i + 1;
      }
      CaptureDone(summaries, store.entries, toCapture, devices, id);
    }

    /** The body of the `Promise.all` callback for one configured entry. */
    method CaptureEntry(rawId: JsValue, devices: DeviceCache) returns (added: seq<Summary>)
      modifies store
      ensures (store.entries, added) == CaptureOne(old(store.entries), rawId, devices, id)
    {
      var deviceId := NormalizeRawId(rawId);
      var device := FindDevice(deviceId, Some(devices));
      if !Truthy(device) {
        return [];
      }
      var captured := BuildSnapshot(device, id);
      SnapshotBase(device, id);
      store.Set(StoreKey(Get(device, "id")), captured);
      added := [Summary(Get(device, "id"), Get(captured, "name"))];
    }

    /** The `close` handler: clear each configured device's entry that this node owns. */
    method Close()
      modifies store
      ensures store.entries == ReleaseAll(old(store.entries), ConfiguredDeviceList(configDeviceId), id)
    {
      var cleanup := ConfiguredDeviceList(configDeviceId);
      var i := 0;
      while i < |cleanup|
        invariant 0 <= i <= |cleanup|
        invariant ReleaseAll(store.entries, cleanup[i..], id) == ReleaseAll(old(store.entries), cleanup, id)
      {
        assert cleanup[i..][0] == cleanup[i] && cleanup[i..][1..] == cleanup[i + 1..];
        var key := StoreKey(NormalizeRawId(cleanup[i]));
        var existing := store.Get(key);
        if Truthy(existing) && StrictEquals(Get(existing, "owner"), Str(id)) {
          store.Set(key, Undefined);
        }
        i := i + 1;
      }
      assert cleanup[i..] == [];
    }
  }
}

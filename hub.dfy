/**
 * What the nodes consume from their collaborators: the hub connection's device
 * cache, its command lock and its event bus, and the host's flow-scoped
 * key/value store. Only the interface the nodes use is modelled.
 */
module Hub {
  import opened Js

  /**
   * The hub connection's device cache, a JavaScript object keyed by device id.
   * `order` is the order in which `Object.values` enumerates it; keys listed
   * there that are not in `entries` are ignored.
   */
  datatype DeviceCache = DeviceCache(entries: map<string, JsValue>, order: seq<string>)

  /** A cache as `Object.values` enumerates it: `order` lists each key of `entries` exactly once. */
  predicate WellFormed(c: DeviceCache) {
    && Distinct(c.order)
    && (forall k :: k in c.order ==> k in c.entries)
    && (forall k :: k in c.entries ==> k in c.order)
  }

  /** `devices[key]`: the key is coerced to a string; undefined when there is no such entry. */
  function DeviceAt(cache: DeviceCache, key: JsValue): (d: JsValue)
    ensures ToStr(key) !in cache.entries ==> d == Undefined
  {
    var k := ToStr(key);
    if k in cache.entries then cache.entries[k] else Undefined
  }

  /** An entry of a device's attribute list carrying the given name. */
  predicate Named(a: JsValue, name: string) {
    Truthy(a) && StrictEquals(Get(a, "name"), Str(name))
  }

  /** `items.find(a => a && a.name === name)` over a device's attribute list. */
  function FindNamed(items: seq<JsValue>, name: string): JsValue {
    if |items| == 0 then Undefined
    else if Named(items[0], name) then items[0]
    else FindNamed(items[1..], name)
  }

  /** `find` yields the first entry with the name, and undefined exactly when there is none. */
  lemma {:induction false} FindNamedFirst(items: seq<JsValue>, name: string)
    ensures FindNamed(items, name) == Undefined <==> forall i :: 0 <= i < |items| ==> !Named(items[i], name)
    ensures FindNamed(items, name) != Undefined ==>
      exists i :: 0 <= i < |items| && FindNamed(items, name) == items[i] && Named(items[i], name)
        && forall j :: 0 <= j < i ==> !Named(items[j], name)
  {
    if |items| > 0 && !Named(items[0], name) {
      FindNamedFirst(items[1..], name);
      assert forall i :: 1 <= i < |items| ==> items[i] == items[1..][i - 1];
      if FindNamed(items, name) != Undefined {
        var k :| 0 <= k < |items[1..]| && FindNamed(items[1..], name) == items[1..][k] && Named(items[1..][k], name)
          && forall j :: 0 <= j < k ==> !Named(items[1..][j], name);
        assert forall j :: 1 <= j < k + 1 ==> items[j] == items[1..][j - 1];
        assert FindNamed(items, name) == items[k + 1];
      }
    }
  }

  /**
   * The host's flow-scoped store. Setting a key to undefined deletes it, so
   * a key is present exactly when it holds a value.
   */
  class FlowStore {
    var entries: map<string, JsValue>

    constructor ()
      ensures entries == map[]
    {
      entries := map[];
    }

    /** `flow.get(key)` */
    function Get(key: string): (v: JsValue)
      reads this
      ensures key !in entries ==> v == Undefined
    {
      if key in entries then entries[key] else Undefined
    }

    /** `flow.set(key, value)` */
    method Set(key: string, value: JsValue)
      modifies this
      ensures entries == if value == Undefined then old(entries) - {key} else old(entries)[key := value]
    {
      if value == Undefined {
        entries := entries - {key};
      } else {
        entries := entries[key := value];
      }
    }
  }

  datatype LockEvent = Acquire | Release

  /**
   * The hub connection's command lock, held or free, with the history of
   * acquisitions and releases made through it.
   */
  class CommandLock {
    var held: bool
    var log: seq<LockEvent>

    constructor ()
      ensures !held && log == []
    {
      held := false;
      log := [];
    }

    /** `acquireLock()`: in a sequential run the lock is free when a command starts. */
    method AcquireLock()
      requires !held
      modifies this
      ensures held && log == old(log) + [Acquire]
    {
      held := true;
      log := log + [Acquire];
    }

    /** `releaseLock()`, after the pacing delay if one is configured. */
    method ReleaseLock()
      requires held
      modifies this
      ensures !held && log == old(log) + [Release]
    {
      held := false;
      log := log + [Release];
    }
  }

  /** A callback registered by node `owner`; `serial` tells apart the closures one node creates. */
  datatype Callback = Callback(owner: string, serial: nat)

  datatype Subscription = Subscription(eventName: string, callback: Callback)

  /** The hub connection's event emitter: `on` adds one registration, `removeListener` removes one. */
  class EventBus {
    var subscriptions: multiset<Subscription>

    constructor ()
      ensures subscriptions == multiset{}
    {
      subscriptions := multiset{};
    }

    method On(eventName: string, callback: Callback)
      modifies this
      ensures subscriptions == old(subscriptions) + multiset{Subscription(eventName, callback)}
    {
      subscriptions := subscriptions + multiset{Subscription(eventName, callback)};
    }

    method RemoveListener(eventName: string, callback: Callback)
      modifies this
      ensures subscriptions == old(subscriptions) - multiset{Subscription(eventName, callback)}
    {
      subscriptions := subscriptions - multiset{Subscription(eventName, callback)};
    }
  }
}

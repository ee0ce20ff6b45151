/** The `useLocalStorage` hook (src/hooks/use-local-storage.ts): a state
    cell mirrored into the browser's key-value storage. Serialising and
    parsing (`JSON.stringify`, `JSON.parse`) are abstract functions given to
    each cell; a parse that throws is a `None`. */
module LocalStorage {
  import opened Types

  /** The browser's `localStorage`: string items under string keys. The two
      flags stand for an environment in which `getItem` or `setItem` throws
      (storage disabled, quota exceeded, serialisation error). */
  class Storage {
    var items: map<string, string>
    var failsReads: bool
    var failsWrites: bool

    constructor (items: map<string, string>, failsReads: bool, failsWrites: bool)
      ensures this.items == items && this.failsReads == failsReads && this.failsWrites == failsWrites
    {
      this.items := items;
      this.failsReads := failsReads;
      this.failsWrites := failsWrites;
    }
  }

  /** `getItem`: the stored string, or `null` when the key has no item. */
  function GetItem(items: map<string, string>, key: string): (r: Option<string>)
    ensures r.Some? <==> key in items
    ensures r.Some? ==> r.value == items[key]
  {
    if key in items then Some(items[key]) else None
  }

  /** The argument of `setValue`: a plain value or an updater function. */
  datatype SetAction<!T> = Assign(value: T) | Update(f: T -> T)

  /** The value `setValue` computes from its argument and the current state. */
  function NextValue<T>(action: SetAction<T>, current: T): (r: T)
    ensures action.Assign? ==> r == action.value
    ensures action.Update? ==> r == action.f(current)
  {
    match action
    case Assign(v) => v
    case Update(f) => f(current)
  }

  /** What the load effect leaves in the cell, given the item read under the
      key (if any), whether reading threw, and the parser. The cell changes
      only when an item exists and parses; every failure keeps `current`. */
  function Loaded<T>(current: T, item: Option<string>, readFails: bool, parse: string -> Option<T>): (r: T)
    ensures readFails || item.None? ==> r == current
    ensures !readFails && item.Some? && parse(item.value).None? ==> r == current
    ensures !readFails && item.Some? && parse(item.value).Some? ==> r == parse(item.value).value
  {
    if readFails || item.None? then current
    else match parse(item.value)
      case Some(v) => v
      case None => current
  }

  /** Reading back what was written: when parsing undoes serialising, a load
      of the item written for `v` yields `v`, whatever the cell held. */
  lemma LoadAfterWriteYieldsValue<T>(current: T, v: T, serialise: T -> string, parse: string -> Option<T>)
    requires parse(serialise(v)) == Some(v)
    ensures Loaded(current, Some(serialise(v)), false, parse) == v
  {
  }

  /** One `useLocalStorage(key, initialValue)` instance. */
  class Cell<T> {
    const key: string
    const initialValue: T
    const serialise: T -> string
    const parse: string -> Option<T>
    const storage: Storage
    var storedValue: T

    /** `useState(initialValue)`: the first render always sees the fallback. */
    constructor (key: string, initialValue: T, serialise: T -> string, parse: string -> Option<T>, storage: Storage)
      ensures this.key == key && this.initialValue == initialValue
      ensures this.serialise == serialise && this.parse == parse && this.storage == storage
      ensures storedValue == initialValue
    {
      this.key := key;
      this.initialValue := initialValue;
      this.serialise := serialise;
      this.parse := parse;
      this.storage := storage;
      storedValue := initialValue;
    }

    /** The load effect: replace the state by the parsed stored item, if there
        is one; a read or parse error is swallowed and nothing changes. */
    method LoadEffect()
      modifies this`storedValue
      ensures storedValue == Loaded(old(storedValue), GetItem(storage.items, key), storage.failsReads, parse)
    {
      if !storage.failsReads {
        var item := GetItem(storage.items, key);
        if item.Some? {
          var parsed := parse(item.value);
          if parsed.Some? {
            storedValue := parsed.value;
          }
        }
      }
    }

    /** `setValue`: the state is updated first and kept even when writing to
        storage fails; on success the item under the key is the serialised
        new value and no other item changes. */
    method SetValue(action: SetAction<T>)
      modifies this`storedValue, storage`items
      ensures storedValue == NextValue(action, old(storedValue))
      ensures storage.failsWrites ==> storage.items == old(storage.items)
      ensures !storage.failsWrites ==> storage.items == old(storage.items)[key := serialise(storedValue)]
    {
      SetValueFromRender(action, storedValue);
    }

    /** `setValue` as a render created it: the callback closes over the
        `storedValue` of that render, and an updater is applied to that
        value, whatever the state has become since. `SetValue` is the call
        made from the latest render. */
    method SetValueFromRender(action: SetAction<T>, rendered: T)
      modifies this`storedValue, storage`items
      ensures storedValue == NextValue(action, rendered)
      ensures storage.failsWrites ==> storage.items == old(storage.items)
      ensures !storage.failsWrites ==> storage.items == old(storage.items)[key := serialise(storedValue)]
    {
      var newValue := NextValue(action, rendered);
      storedValue := newValue;
      if !storage.failsWrites {
        storage.items := storage.items[key := serialise(newValue)];
      }
    }
  }

  /** A reload after a successful write: a fresh cell on the same storage and
      key, once its load effect has run, holds the value written. */
  method ReloadAfterWrite<T>(storage: Storage, key: string, initialValue: T, serialise: T -> string,
                             parse: string -> Option<T>, v: T) returns (reloaded: T)
    requires !storage.failsReads && !storage.failsWrites
    requires parse(serialise(v)) == Some(v)
    modifies storage`items
    ensures reloaded == v
  {
    var before := new Cell(key, initialValue, serialise, parse, storage);
    before.SetValue(Assign(v));
    var after := new Cell(key, initialValue, serialise, parse, storage);
    after.LoadEffect();
    reloaded := after.storedValue;
  }

  /** A reload with no item under the key keeps the fallback. */
  method ReloadWithoutItem<T>(storage: Storage, key: string, initialValue: T, serialise: T -> string,
                              parse: string -> Option<T>) returns (reloaded: T)
    requires key !in storage.items
    ensures reloaded == initialValue
  {
    var cell := new Cell(key, initialValue, serialise, parse, storage);
    cell.LoadEffect();
    reloaded := cell.storedValue;
  }
}

/**
 * The storage-backed value hook of src/hooks/use-local-storage.ts: a
 * key -> item store standing for the browser's local storage, and a hook
 * object that mirrors the value kept under one key.
 *
 * JSON is abstract: an item is either the empty string, text that does not
 * parse, or the encoding of a value. A store holds values of one type;
 * each typed key of the application gets its own `Storage` instance.
 */
module LocalStorage {

  /** What `getItem` can hand back for a present key. */
  datatype Item<T> = EmptyItem | Corrupt | Encoded(value: T)

  /** A value for the setter, or an updater applied to the current value. */
  datatype Update<!T> = Value(value: T) | Updater(apply: T -> T)

  /** The new value a setter call asks for, given the mirrored value. */
  function Resolve<T>(u: Update<T>, current: T): (r: T)
    ensures u.Value? ==> r == u.value
    ensures u.Updater? ==> r == u.apply(current)
  {
    match u
    case Value(v) => v
    case Updater(f) => f(current)
  }

  /**
   * `readStorageValue`: the stored value, or the default when there is no
   * client, the key is missing, the item is empty, or it does not parse.
   */
  function ReadStorageValue<T>(isClient: bool, items: map<string, Item<T>>, key: string, initial: T): (r: T)
    ensures !isClient || key !in items || !items[key].Encoded? ==> r == initial
    ensures isClient && key in items && items[key].Encoded? ==> r == items[key].value
  {
    if !isClient then initial
    else if key !in items then initial
    else match items[key]
      case EmptyItem => initial
      case Corrupt => initial
      case Encoded(v) => v
  }

  /** Writing a value and reading it back gives the value. */
  lemma ReadAfterWrite<T>(items: map<string, Item<T>>, key: string, v: T, initial: T)
    ensures ReadStorageValue(true, items[key := Encoded(v)], key, initial) == v
  {
  }

  /** Writing one key does not change what any other key reads. */
  lemma WriteLeavesOtherKeys<T>(items: map<string, Item<T>>, key: string, e: Item<T>, other: string, initial: T, isClient: bool)
    requires other != key
    ensures ReadStorageValue(isClient, items[key := e], other, initial) == ReadStorageValue(isClient, items, other, initial)
  {
  }

  /** The browser's local storage; `isClient` is false when rendering has no window. */
  class Storage<T> {
    const isClient: bool
    var items: map<string, Item<T>>

    constructor (isClient: bool, items: map<string, Item<T>>)
      ensures this.isClient == isClient && this.items == items
    {
      this.isClient := isClient;
      this.items := items;
    }
  }

  /** One mounted `useLocalStorage(key, initialValue)`: the mirrored value and its setter. */
  class StorageHook<T> {
    const storage: Storage<T>
    const key: string
    const initial: T
    var storedValue: T

    /** The state initialiser reads the store once. */
    constructor (storage: Storage<T>, key: string, initial: T)
      ensures this.storage == storage && this.key == key && this.initial == initial
      ensures storedValue == ReadStorageValue(storage.isClient, storage.items, key, initial)
    {
      this.storage := storage;
      this.key := key;
      this.initial := initial;
      storedValue := ReadStorageValue(storage.isClient, storage.items, key, initial);
    }

    /**
     * `setValue`: without a client, or when `setItem` throws (`writeSucceeds`
     * false), nothing changes; otherwise the resolved value is written under
     * `key` and mirrored. The same-tab notification is `OnStorageChange`.
     */
    method SetValue(u: Update<T>, writeSucceeds: bool)
      modifies this, storage
      ensures !storage.isClient || !writeSucceeds ==>
        storedValue == old(storedValue) && storage.items == old(storage.items)
      ensures storage.isClient && writeSucceeds ==>
        storedValue == Resolve(u, old(storedValue)) &&
        storage.items == old(storage.items)[key := Encoded(Resolve(u, old(storedValue)))]
      ensures storage.isClient && writeSucceeds ==>
        ReadStorageValue(storage.isClient, storage.items, key, initial) == storedValue
    {
      if !storage.isClient {
        return;
      }
      var newValue := Resolve(u, storedValue);
      if !writeSucceeds {
        return;
      }
      storage.items := storage.items[key := Encoded(newValue)];
      storedValue := newValue;
    }

    /** The storage-change handler: re-read the store only when the event is for this key. */
    method OnStorageChange(eventKey: string)
      modifies this
      ensures eventKey == key ==> storedValue == ReadStorageValue(storage.isClient, storage.items, key, initial)
      ensures eventKey != key ==> storedValue == old(storedValue)
    {
      if eventKey == key {
        storedValue := ReadStorageValue(storage.isClient, storage.items, key, initial);
      }
    }
  }

  /**
   * Two hooks on the same key and store: after one writes and the other
   * receives the change notification, both mirror the written value, and the store holds it under that
   * key with every other key unchanged.
   */
  method WriteThenNotify<T>(writer: StorageHook<T>, reader: StorageHook<T>, v: T)
    requires writer.storage == reader.storage && writer.key == reader.key
    requires writer.storage.isClient
    modifies writer, reader, writer.storage
    ensures writer.storedValue == v && reader.storedValue == v
    ensures writer.storage.items == old(writer.storage.items)[writer.key := Encoded(v)]
  {
    writer.SetValue(Value(v), true);
    reader.OnStorageChange(writer.key);
  }
}

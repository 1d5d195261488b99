/** The single-key store: an in-memory mirror of one durable-storage entry,
    loaded once when it is created and written through on every update. */
module LocalStorage {
  import opened Identity

  /** What durable storage holds under a key. Serialisation is abstract:
      `Serialized(u)` is the text `JSON.stringify` produces for `u`, which
      `JSON.parse` turns back into `u`. */
  datatype Entry =
    | Serialized(value: User)
    | EmptyText      // the empty string, which is falsy and is never parsed
    | Unparseable    // non-empty text that `JSON.parse` rejects

  /** The browser's durable key/value storage, shared by every store. */
  class DurableStorage {
    var entries: map<string, Entry>

    constructor (entries: map<string, Entry>)
      ensures this.entries == entries
    {
      this.entries := entries;
    }
  }

  /** The initialiser: the parsed entry under `key` when there is a non-empty
      one that parses, otherwise `initial`. A parse failure is caught here and
      never reaches the caller. */
  function Load(entries: map<string, Entry>, key: string, initial: User): (v: User)
    ensures key in entries && entries[key].Serialized? ==> v == entries[key].value
    ensures key !in entries || !entries[key].Serialized? ==> v == initial
  {
    if key !in entries then initial
    else match entries[key]
      case EmptyText => initial
      case Unparseable => initial
      case Serialized(u) => u
  }

  /** The setter's argument: a literal new value or an updater applied to the
      current one. */
  datatype SetArg = Replace(value: User) | Update(f: User -> User)

  /** The value the setter stores for `arg` when the mirror holds `current`. */
  function Next(arg: SetArg, current: User): User
  {
    match arg
    case Replace(v) => v
    case Update(f) => f(current)
  }

  /** Storage after `v` is written under `key`. */
  function Persist(entries: map<string, Entry>, key: string, v: User): (r: map<string, Entry>)
    ensures key in r && r[key] == Serialized(v)
    ensures forall k | k != key :: (k in r <==> k in entries) && (k in entries ==> r[k] == entries[k])
  {
    entries[key := Serialized(v)]
  }

  /** Round trip: what is written under a key is what a fresh load of that
      key yields, whatever the fallback. */
  lemma LoadAfterPersist(entries: map<string, Entry>, key: string, v: User, initial: User)
    ensures Load(Persist(entries, key, v), key, initial) == v
  {
  }

  /** Writing one key leaves what every other key loads unchanged. */
  lemma PersistIsolation(entries: map<string, Entry>, key: string, other: string, v: User, initial: User)
    requires other != key
    ensures Load(Persist(entries, key, v), other, initial) == Load(entries, other, initial)
  {
  }

  /** One `useLocalStorage(key, initialValue)` instance. */
  class Store {
    const key: string
    const storage: DurableStorage
    var value: User

    /** The lazy `useState` initialiser. */
    constructor (storage: DurableStorage, key: string, initial: User)
      ensures this.storage == storage && this.key == key
      ensures value == Load(storage.entries, key, initial)
    {
      this.storage := storage;
      this.key := key;
      value := Load(storage.entries, key, initial);
    }

    /** `setValue`: the mirror takes the new value first, then durable
      storage is written. `written` is false when the write throws; the
      error is swallowed and the mirror keeps the new value. */
    method SetValue(arg: SetArg, written: bool)
      modifies this, storage
      ensures value == Next(arg, old(value))
      ensures storage.entries == if written then Persist(old(storage.entries), key, value)
                                 else old(storage.entries)
    {
      var next := Next(arg, value);
      value := next;
      if written {
        storage.entries := Persist(storage.entries, key, next);
      }
    }
  }
}

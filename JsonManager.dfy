/**
 * `JsonManager`: the registry of named JSON storages, the default
 * storage, the default serializer, and the operations that forward to
 * them. Storages are values with an identity; the manager's calls into
 * them are recorded, in order, in `calls`, and what a storage or the
 * serializer answers is a function given to the operation.
 */
module JsonManagers {
  import opened Common

  datatype StorageRef = StorageRef(id: nat)

  datatype StorageCall =
    | SaveCall(storage: StorageRef, key: string, json: string)
    | LoadCall(storage: StorageRef, key: string)
    | ExistsCall(storage: StorageRef, key: string)
    | DeleteCall(storage: StorageRef, key: string)
    | ClearCall(storage: StorageRef)

  /** `_storageSystems.TryGetValue(name, ...)`: the registered storage, or null. */
  function Lookup(storages: map<string, StorageRef>, name: string): (r: Option<StorageRef>)
    ensures r.Some? <==> name in storages
    ensures r.Some? ==> r.value == storages[name]
  {
    if name in storages then Some(storages[name]) else None
  }

  /** The registry after `RegisterStorage(name, storage)`. */
  function Registered(storages: map<string, StorageRef>, name: Option<string>, storage: Option<StorageRef>): map<string, StorageRef>
  {
    if NullOrEmpty(name) || storage.None? then storages else storages[name.value := storage.value]
  }

  /**
   * A null or empty name, or a null storage, registers nothing; otherwise
   * the name now finds the storage, whether it was new or replaced an
   * earlier one, and every other name finds what it found before.
   */
  lemma RegisteredLookup(storages: map<string, StorageRef>, name: Option<string>, storage: Option<StorageRef>, k: string)
    ensures NullOrEmpty(name) || storage.None? ==> Lookup(Registered(storages, name, storage), k) == Lookup(storages, k)
    ensures !NullOrEmpty(name) && storage.Some? ==>
              Lookup(Registered(storages, name, storage), k) == if k == name.value then storage else Lookup(storages, k)
  {
  }

  /** Registering only ever adds names. */
  lemma RegisteredNames(storages: map<string, StorageRef>, name: Option<string>, storage: Option<StorageRef>)
    ensures storages.Keys <= Registered(storages, name, storage).Keys
    ensures |Registered(storages, name, storage).Keys| <= |storages.Keys| + 1
  {
    if !NullOrEmpty(name) && storage.Some? {
      assert Registered(storages, name, storage).Keys == storages.Keys + {name.value};
    }
  }

  class JsonManager {
    /** `_storageSystems`. */
    var storages: map<string, StorageRef>
    /** `_defaultSerializer`, by identity. */
    var serializer: Option<nat>
    /** `_defaultStorage`. */
    var defaultStorage: Option<StorageRef>
    /** `_isInitialized`. */
    var initialized: bool
    /** The calls made into storages, in order. */
    var calls: seq<StorageCall>

    /** The manager before `Awake` runs `Initialize()`. */
    constructor ()
      ensures storages == map[] && serializer == None && defaultStorage == None && !initialized && calls == []
    {
      storages := map[];
      serializer := None;
      defaultStorage := None;
      initialized := false;
      calls := [];
    }

    /** `GetStorage(name)`: the storage registered under `name`, or null. */
    function GetStorage(name: string): (r: Option<StorageRef>)
      reads this
      ensures r.Some? <==> name in storages
      ensures r.Some? ==> r.value == storages[name]
    {
      Lookup(storages, name)
    }

    /** The storage an operation forwards to: the default one for the overload without a name, else the named one. */
    function Target(storageName: Option<string>): (r: Option<StorageRef>)
      reads this
      ensures storageName.None? ==> r == defaultStorage
      ensures storageName.Some? ==> r == GetStorage(storageName.value)
    {
      if storageName.None? then defaultStorage else GetStorage(storageName.value)
    }

    /** `RegisterStorage(name, storage)`. */
    method RegisterStorage(name: Option<string>, storage: Option<StorageRef>)
      modifies this`storages
      ensures storages == Registered(old(storages), name, storage)
    {
      if NullOrEmpty(name) {
        return;
      }
      if storage.None? {
        return;
      }
      // Overwriting an existing name and adding a new one are the same map update.
      storages := storages[name.value := storage.value];
    }

    /** `SetDefaultStorage(name)`: an unregistered name leaves the default as it was. */
    method SetDefaultStorage(name: string)
      modifies this`defaultStorage
      ensures name in storages ==> defaultStorage == Some(storages[name])
      ensures name !in storages ==> defaultStorage == old(defaultStorage)
    {
      var storage := GetStorage(name);
      if storage.Some? {
        defaultStorage := storage;
      }
    }

    /**
     * `Initialize()`: skipped once initialised; otherwise the serializer is
     * created, the file storage and the PlayerPrefs storage are registered
     * under "File" and "PlayerPrefs", and the file storage becomes the
     * default. The three identities are those of the objects it creates.
     */
    method Initialize(serializerId: nat, fileStorage: StorageRef, prefsStorage: StorageRef)
      modifies this`storages, this`serializer, this`defaultStorage, this`initialized
      ensures old(initialized) ==>
                storages == old(storages) && serializer == old(serializer) &&
                defaultStorage == old(defaultStorage) && initialized
      ensures !old(initialized) ==>
                storages == old(storages)["File" := fileStorage]["PlayerPrefs" := prefsStorage] &&
                serializer == Some(serializerId) && defaultStorage == Some(fileStorage) && initialized
      ensures !old(initialized) ==> GetStorage("File") == Some(fileStorage) && GetStorage("PlayerPrefs") == Some(prefsStorage)
    {
      if initialized {
        return;
      }
      serializer := Some(serializerId);
      RegisterStorage(Some("File"), Some(fileStorage));
      RegisterStorage(Some("PlayerPrefs"), Some(prefsStorage));
      defaultStorage := Some(fileStorage);
      initialized := true;
    }

    /** `Save(key, data)` and `Save(key, data, storageName)`, with `json` the data: forwarded, or nothing without a storage. */
    method Save(key: string, json: string, storageName: Option<string>)
      modifies this`calls
      ensures Target(storageName).None? ==> calls == old(calls)
      ensures Target(storageName).Some? ==> calls == old(calls) + [SaveCall(Target(storageName).value, key, json)]
    {
      var storage := Target(storageName);
      if storage.Some? {
        calls := calls + [SaveCall(storage.value, key, json)];
      }
    }

    /** `Load(key)` and `Load(key, storageName)`: the storage's answer, or `None` (the default) without a storage. */
    method Load(key: string, storageName: Option<string>, answer: (StorageRef, string) -> Option<string>) returns (r: Option<string>)
      modifies this`calls
      ensures Target(storageName).None? ==> r == None && calls == old(calls)
      ensures Target(storageName).Some? ==>
                r == answer(Target(storageName).value, key) && calls == old(calls) + [LoadCall(Target(storageName).value, key)]
    {
      var storage := Target(storageName);
      if storage.None? {
        return None;
      }
      calls := calls + [LoadCall(storage.value, key)];
      r := answer(storage.value, key);
    }

    /** `Exists(key)` and `Exists(key, storageName)`: the storage's answer, or false without a storage. */
    method Exists(key: string, storageName: Option<string>, answer: (StorageRef, string) -> bool) returns (r: bool)
      modifies this`calls
      ensures Target(storageName).None? ==> !r && calls == old(calls)
      ensures Target(storageName).Some? ==>
                r == answer(Target(storageName).value, key) && calls == old(calls) + [ExistsCall(Target(storageName).value, key)]
    {
      var storage := Target(storageName);
      if storage.None? {
        return false;
      }
      calls := calls + [ExistsCall(storage.value, key)];
      r := answer(storage.value, key);
    }

    /** `Delete(key)` and `Delete(key, storageName)`. */
    method Delete(key: string, storageName: Option<string>)
      modifies this`calls
      ensures Target(storageName).None? ==> calls == old(calls)
      ensures Target(storageName).Some? ==> calls == old(calls) + [DeleteCall(Target(storageName).value, key)]
    {
      var storage := Target(storageName);
      if storage.Some? {
        calls := calls + [DeleteCall(storage.value, key)];
      }
    }

    /** `Clear()` and `Clear(storageName)`. */
    method Clear(storageName: Option<string>)
      modifies this`calls
      ensures Target(storageName).None? ==> calls == old(calls)
      ensures Target(storageName).Some? ==> calls == old(calls) + [ClearCall(Target(storageName).value)]
    {
      var storage := Target(storageName);
      if storage.Some? {
        calls := calls + [ClearCall(storage.value)];
      }
    }

    /** `Serialize(obj)`: the serializer's text, or null without a serializer. */
    method Serialize<T>(obj: T, serialize: T -> string) returns (r: Option<string>)
      ensures serializer.None? ==> r == None
      ensures serializer.Some? ==> r == Some(serialize(obj))
    {
      if serializer.None? {
        return None;
      }
      return Some(serialize(obj));
    }

    /** `Deserialize<T>(json)`: the serializer's value, or `None` (the default) without a serializer. */
    method Deserialize<T>(json: string, deserialize: string -> T) returns (r: Option<T>)
      ensures serializer.None? ==> r == None
      ensures serializer.Some? ==> r == Some(deserialize(json))
    {
      if serializer.None? {
        return None;
      }
      return Some(deserialize(json));
    }

    /** `OnDestroy()`: the registry is emptied, the default storage and serializer dropped. */
    method OnDestroy()
      modifies this`storages, this`serializer, this`defaultStorage, this`initialized
      ensures storages == map[] && serializer == None && defaultStorage == None && !initialized
      ensures forall name :: GetStorage(name) == None
    {
      storages := map[];
      serializer := None;
      defaultStorage := None;
      initialized := false;
    }
  }
}

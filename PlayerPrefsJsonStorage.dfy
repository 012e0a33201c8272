/**
 * `PlayerPrefsJsonStorage`: JSON documents kept in Unity's PlayerPrefs
 * under a key prefix, together with a list of the keys saved so far. The
 * list is itself persisted, serialised, under `prefix + "_TrackedKeys"`.
 *
 * PlayerPrefs is a string-to-string map held by the object. Documents
 * are the JSON text the serializer produced; the serializer's handling of
 * the key list is a pair of functions given to the constructor.
 */
module PlayerPrefsJsonStorages {
  import opened Common

  /** What deserialising the persisted key list gives: a list, null, or an exception. */
  datatype Decoded = Keys(keys: seq<string>) | NullList | Throws

  /** The full PlayerPrefs key of a key: the prefix followed by the key. */
  function FullKey(prefix: string, key: string): (r: string)
    ensures |r| == |prefix| + |key| && r[..|prefix|] == prefix && r[|prefix|..] == key
  {
    prefix + key
  }

  /** Different keys never share a PlayerPrefs entry. */
  lemma FullKeyInjective(prefix: string, a: string, b: string)
    ensures FullKey(prefix, a) == FullKey(prefix, b) <==> a == b
  {
    if FullKey(prefix, a) == FullKey(prefix, b) {
      assert a == FullKey(prefix, a)[|prefix|..];
    }
  }

  /** Where the key list is persisted. */
  function TrackedKeysKey(prefix: string): string
  {
    prefix + "_TrackedKeys"
  }

  /** The bookkeeping entry is exactly the entry of the key `_TrackedKeys`: only that key collides with it. */
  lemma TrackedKeysCollision(prefix: string, key: string)
    ensures FullKey(prefix, key) == TrackedKeysKey(prefix) <==> key == "_TrackedKeys"
  {
    FullKeyInjective(prefix, key, "_TrackedKeys");
  }

  /** `LoadTrackedKeys()`: the persisted list, or nothing when it is missing, empty, null or fails to deserialise. */
  function LoadedKeys(prefs: map<string, string>, prefix: string, decode: string -> Decoded): (r: seq<string>)
    ensures TrackedKeysKey(prefix) !in prefs || prefs[TrackedKeysKey(prefix)] == "" ==> r == []
    ensures TrackedKeysKey(prefix) in prefs && prefs[TrackedKeysKey(prefix)] != "" ==>
              r == match decode(prefs[TrackedKeysKey(prefix)]) { case Keys(ks) => ks case NullList => [] case Throws => [] }
  {
    var json := if TrackedKeysKey(prefix) in prefs then prefs[TrackedKeysKey(prefix)] else "";
    if json == "" then []
    else
      match decode(json)
      case Keys(ks) => ks
      case NullList => []
      case Throws => []
  }

  /** The PlayerPrefs keys of a list of keys. */
  function FullKeys(prefix: string, keys: seq<string>): (r: set<string>)
    ensures forall x :: x in r <==> exists k :: k in keys && x == FullKey(prefix, k)
  {
    if keys == [] then {}
    else
      var rest := FullKeys(prefix, keys[1..]);
      assert forall k :: k in keys <==> k == keys[0] || k in keys[1..];
      {FullKey(prefix, keys[0])} + rest
  }

  lemma FullKeysAppend(prefix: string, keys: seq<string>, k: string)
    ensures FullKeys(prefix, keys + [k]) == FullKeys(prefix, keys) + {FullKey(prefix, k)}
  {
    assert forall j :: j in keys + [k] <==> j in keys || j == k;
  }

  lemma MapMinusUnion<K, V>(m: map<K, V>, a: set<K>, x: K)
    ensures (m - a) - {x} == m - (a + {x})
  {
  }

  class PlayerPrefsJsonStorage {
    /** `_prefix`. */
    const prefix: string
    /** The serializer's encoding of the key list. */
    const encode: seq<string> -> string
    /** The serializer's decoding of the key list. */
    const decode: string -> Decoded
    /** PlayerPrefs' string entries. */
    var prefs: map<string, string>
    /** `_trackedKeys`, in insertion order. */
    var tracked: seq<string>

    /** No key is tracked twice. */
    predicate Valid()
      reads this
    {
      NoDups(tracked)
    }

    /** `Exists(key)`: PlayerPrefs holds an entry under the prefixed key. */
    function Exists(key: string): (r: bool)
      reads this
      ensures r <==> prefix + key in prefs
    {
      FullKey(prefix, key) in prefs
    }

    /** `Load(key)`: the stored document, or `None` (the default) when there is none. */
    function Load(key: string): (r: Option<string>)
      reads this
      ensures r.None? <==> !Exists(key)
      ensures r.Some? ==> r.value == prefs[FullKey(prefix, key)]
    {
      if FullKey(prefix, key) in prefs then Some(prefs[FullKey(prefix, key)]) else None
    }

    /** `GetAllKeys()`: a copy of the tracked keys, in insertion order. */
    method GetAllKeys() returns (keys: seq<string>)
      ensures keys == tracked
    {
      keys := tracked;
    }

    /** `new PlayerPrefsJsonStorage(serializer, prefix)` once its serializer check has passed: the tracked keys are read back. */
    constructor (prefs: map<string, string>, encode: seq<string> -> string, decode: string -> Decoded, prefix: string := "JSON_")
      ensures this.prefix == prefix && this.encode == encode && this.decode == decode && this.prefs == prefs
      ensures tracked == LoadedKeys(prefs, prefix, decode)
      ensures NoDups(LoadedKeys(prefs, prefix, decode)) ==> Valid()
    {
      this.prefix := prefix;
      this.encode := encode;
      this.decode := decode;
      this.prefs := prefs;
      tracked := [];
      new;
      var json := if TrackedKeysKey(prefix) in prefs then prefs[TrackedKeysKey(prefix)] else "";
      if json != "" {
        match decode(json) {
          case Keys(ks) => tracked := tracked + ks;
          case NullList =>
          case Throws => tracked := [];
        }
      }
    }

    /** `SaveTrackedKeys()`. */
    method SaveTrackedKeys()
      modifies this`prefs
      ensures prefs == old(prefs)[TrackedKeysKey(prefix) := encode(tracked)]
    {
      prefs := prefs[TrackedKeysKey(prefix) := encode(tracked)];
    }

    /** `TrackKey(key)`: a new key is appended and the list persisted; a tracked one changes nothing. */
    method TrackKey(key: string)
      modifies this`prefs, this`tracked
      ensures old(Valid()) ==> Valid()
      ensures key in tracked
      ensures key in old(tracked) ==> tracked == old(tracked) && prefs == old(prefs)
      ensures key !in old(tracked) ==>
                tracked == old(tracked) + [key] && prefs == old(prefs)[TrackedKeysKey(prefix) := encode(tracked)]
    {
      if key !in tracked {
        tracked := tracked + [key];
        SaveTrackedKeys();
      }
    }

    /** `UntrackKey(key)`: the key leaves the list and the list is persisted. */
    method UntrackKey(key: string)
      modifies this`prefs, this`tracked
      ensures old(Valid()) ==> Valid() && key !in tracked
      ensures tracked == RemoveFirst(old(tracked), key)
      ensures prefs == old(prefs)[TrackedKeysKey(prefix) := encode(tracked)]
    {
      if key in tracked && NoDups(tracked) {
        RemoveAtNoDups(tracked, IndexOf(tracked, key));
      }
      tracked := RemoveFirst(tracked, key);
      SaveTrackedKeys();
    }

    /** `Save(key, data)` with `json` the serialised data: the entry is written, then the key tracked. */
    method Save(key: string, json: string)
      modifies this`prefs, this`tracked
      ensures old(Valid()) ==> Valid()
      ensures key in tracked
      ensures key in old(tracked) ==> tracked == old(tracked) && prefs == old(prefs)[FullKey(prefix, key) := json]
      ensures key !in old(tracked) ==>
                tracked == old(tracked) + [key] &&
                prefs == old(prefs)[FullKey(prefix, key) := json][TrackedKeysKey(prefix) := encode(tracked)]
      ensures key != "_TrackedKeys" ==> Load(key) == Some(json)
    {
      prefs := prefs[FullKey(prefix, key) := json];
      TrackedKeysCollision(prefix, key);
      TrackKey(key);
    }

    /** `Delete(key)`: an absent entry changes nothing; a present one is removed and its key untracked. */
    method Delete(key: string)
      modifies this`prefs, this`tracked
      ensures old(Valid()) ==> Valid()
      ensures !old(Exists(key)) ==> prefs == old(prefs) && tracked == old(tracked)
      ensures old(Exists(key)) ==>
                tracked == RemoveFirst(old(tracked), key) && (old(Valid()) ==> key !in tracked) &&
                prefs == (old(prefs) - {FullKey(prefix, key)})[TrackedKeysKey(prefix) := encode(tracked)]
      ensures key != "_TrackedKeys" ==> !Exists(key) && Load(key) == None
    {
      if FullKey(prefix, key) in prefs {
        prefs := prefs - {FullKey(prefix, key)};
        UntrackKey(key);
      }
      TrackedKeysCollision(prefix, key);
    }

    /** The deletions of `Clear()`: every tracked key's entry, in list order. */
    method DeleteTracked()
      modifies this`prefs
      ensures prefs == old(prefs) - FullKeys(prefix, tracked)
    {
      ghost var start := prefs;
      var keys := tracked;
      for i := 0 to |keys|
        invariant prefs == start - FullKeys(prefix, keys[..i])
      {
        FullKeysAppend(prefix, keys[..i], keys[i]);
        MapMinusUnion(start, FullKeys(prefix, keys[..i]), FullKey(prefix, keys[i]));
        assert keys[..i + 1] == keys[..i] + [keys[i]];
        prefs := prefs - {FullKey(prefix, keys[i])};
      }
      assert keys[..|keys|] == keys;
    }

    /** `Clear()`: every tracked key's entry is deleted, the list emptied and persisted. */
    method Clear()
      modifies this`prefs, this`tracked
      ensures Valid() && tracked == []
      ensures prefs == (old(prefs) - FullKeys(prefix, old(tracked)))[TrackedKeysKey(prefix) := encode([])]
      ensures forall k :: k in old(tracked) && k != "_TrackedKeys" ==> !Exists(k)
    {
      DeleteTracked();
      tracked := [];
      SaveTrackedKeys();
      forall k | k in old(tracked) && k != "_TrackedKeys" ensures !Exists(k) {
        TrackedKeysCollision(prefix, k);
      }
    }
  }

  /**
   * Saving under the key `_TrackedKeys` is lost as soon as the key is
   * tracked: the bookkeeping write overwrites the document with the
   * encoded key list.
   */
  lemma SaveCollisionLost(prefs: map<string, string>, prefix: string, tracked: seq<string>, encode: seq<string> -> string, json: string)
    requires "_TrackedKeys" !in tracked
    ensures var after := prefs[FullKey(prefix, "_TrackedKeys") := json][TrackedKeysKey(prefix) := encode(tracked + ["_TrackedKeys"])];
            after[FullKey(prefix, "_TrackedKeys")] == encode(tracked + ["_TrackedKeys"])
  {
    TrackedKeysCollision(prefix, "_TrackedKeys");
  }
}

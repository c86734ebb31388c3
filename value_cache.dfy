/**
 * The store of feature values shared by every entity of one session
 * (FeatureValueCache, fs.py:43-57), and the keys and values it holds.
 */
module ValueCache {

  /** An Entity subclass, known by its class name. */
  type EntityType = string

  /** A Feature subclass, known by its class name. */
  type FeatureId = string

  /** A feature value: a source value coerced to the feature's type, or a computed one. */
  datatype Value = Str(text: string) | Num(x: real)

  /** The sentinel the cache hands back for a key it does not hold (fs.py:13). */
  const NO_VALUE: Value := Str("__NO_VALUE__")

  /** The cache slot of one feature of one entity: (entity class, feature class, entity name). */
  datatype Key = Key(entityType: EntityType, feature: FeatureId, entityName: string)

  type Cache = map<Key, Value>

  /** What `cache[key]` yields: the stored value, or the sentinel when the key is absent. */
  function Lookup(c: Cache, key: Key): (v: Value)
    ensures key in c ==> v == c[key]
    ensures key !in c ==> v == NO_VALUE
  {
    if key in c then c[key] else NO_VALUE
  }

  /** Storing under one key leaves what every other key yields as it was. */
  lemma LookupAfterStore(c: Cache, key: Key, value: Value, other: Key)
    ensures Lookup(c[key := value], other) == if other == key then value else Lookup(c, other)
  {
  }

  /** Once a key is deleted the cache no longer holds it and yields the sentinel for it. */
  lemma LookupAfterDelete(c: Cache, key: Key, other: Key)
    ensures key !in c - {key} && Lookup(c - {key}, key) == NO_VALUE
    ensures other != key ==> Lookup(c - {key}, other) == Lookup(c, other)
  {
  }

  /** A dictionary wrapper with no eviction and no bound. */
  class FeatureValueCache {
    var entries: Cache

    constructor()
      ensures entries == map[]
    {
      entries := map[];
    }

    /** `__getitem__`: the stored value or NO_VALUE. */
    function Get(key: Key): (v: Value)
      reads this
      ensures key in entries ==> v == entries[key]
      ensures key !in entries ==> v == NO_VALUE
    {
      Lookup(entries, key)
    }

    /** `__setitem__`: only `key` changes. */
    method Set(key: Key, value: Value)
      modifies this
      ensures entries == old(entries)[key := value]
      ensures Get(key) == value
    {
      entries := entries[key := value];
    }

    /** `__delitem__`: raises KeyError (found == false) when the key is absent, and then changes nothing. */
    method Delete(key: Key) returns (found: bool)
      modifies this
      ensures found <==> key in old(entries)
      ensures entries == old(entries) - {key}
      ensures !Contains(key)
    {
      found := key in entries;
      if found {
        entries := entries - {key};
      }
    }

    /** `__contains__`. */
    function Contains(key: Key): (b: bool)
      reads this
      ensures b <==> key in entries
    {
      key in entries
    }
  }
}

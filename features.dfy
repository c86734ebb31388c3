/**
 * Features, entities and the memoising dependency resolver (fs.py:174-244).
 *
 * A feature is known by its class name; its static metadata (owning entity
 * type, declared dependencies, calculate and value_type) comes from an explicit
 * table instead of being discovered through reflection. `calculate` and
 * `value_type` are arbitrary functions supplied with the table.
 */
module Features {
  import opened Wrappers
  import opened ValueCache

  /** An entity as its features' `calculate` sees it: its class and its name. */
  datatype EntityRef = EntityRef(entityType: EntityType, name: string)

  /** The static part of one Feature subclass. */
  datatype FeatureDef = FeatureDef(
    entity: EntityType,
    dependencies: seq<FeatureId>,
    calculate: (EntityRef, seq<Value>) -> Value,
    valueType: Value -> Option<Value>)

  type FeatureTable = map<FeatureId, FeatureDef>

  /**
   * The source performs no cycle check: a cyclic graph recurses without bound.
   * The model resolves only graphs that a rank orders: every dependency of a
   * registered feature is registered and has a smaller rank.
   */
  ghost predicate Ranked(table: FeatureTable, rank: map<FeatureId, nat>)
  {
    forall f :: f in table ==>
      f in rank &&
      forall d :: d in table[f].dependencies ==> d in table && d in rank && rank[d] < rank[f]
  }

  /** The cache slot of feature `f` for entity `e` (get_feature_hash, as a structured key). */
  function KeyOf(e: EntityRef, f: FeatureId): (k: Key)
  {
    Key(e.entityType, f, e.name)
  }

  /** Distinct (entity, feature) pairs never share a cache slot. */
  lemma KeyOfInjective(e1: EntityRef, f1: FeatureId, e2: EntityRef, f2: FeatureId)
    ensures KeyOf(e1, f1) == KeyOf(e2, f2) <==> e1 == e2 && f1 == f2
  {
  }

  /**
   * The string get_feature_hash digests (fs.py:219): the three names joined
   * with no separator. The MD5 digest of it is not modelled: equal strings give
   * equal digests, so a collision here is a collision of cache slots.
   */
  function ConcatKey(e: EntityRef, f: FeatureId): (s: string)
  {
    e.entityType + f + e.name
  }

  /**
   * Two different entities of one class, read through two different features,
   * land in the same slot of the source's cache: "Rectangle" + "Width" + "2a"
   * and "Rectangle" + "Width2" + "a" are the same string.
   */
  lemma ConcatKeyCollides()
    ensures ConcatKey(EntityRef("Rectangle", "2a"), "Width") == ConcatKey(EntityRef("Rectangle", "a"), "Width2")
    ensures KeyOf(EntityRef("Rectangle", "2a"), "Width") != KeyOf(EntityRef("Rectangle", "a"), "Width2")
  {
    assert ConcatKey(EntityRef("Rectangle", "2a"), "Width") == "RectangleWidth2a";
    assert ConcatKey(EntityRef("Rectangle", "a"), "Width2") == "RectangleWidth2a";
  }

  /** The arguments `calculate` receives: each dependency's cache entry, in declared order (fs.py:235-238). */
  function Arguments(e: EntityRef, ds: seq<FeatureId>, c: Cache): (args: seq<Value>)
  {
    seq(|ds|, i requires 0 <= i < |ds| => Lookup(c, KeyOf(e, ds[i])))
  }

  /** The result of one resolution: the value, the cache afterwards, and the features whose calculate ran, in order. */
  datatype Resolution = Resolution(value: Value, cache: Cache, computed: seq<FeatureId>)

  /** The cache and the features computed so far, while dependencies are resolved. */
  datatype Memo = Memo(cache: Cache, computed: seq<FeatureId>)

  /** calculate_feature_value (fs.py:222-241) as a function of the cache. */
  ghost function Resolve(table: FeatureTable, rank: map<FeatureId, nat>, e: EntityRef, f: FeatureId, c: Cache): (r: Resolution)
    requires Ranked(table, rank) && f in table
    decreases rank[f], 1
  {
    var key := KeyOf(e, f);
    if key in c then
      Resolution(c[key], c, [])
    else
      var deps := table[f].dependencies;
      var m := ResolveDependencies(table, rank, e, deps, rank[f], Memo(c, []));
      var v := table[f].calculate(e, Arguments(e, deps, m.cache));
      Resolution(v, m.cache[key := v], m.computed + [f])
  }

  /** The loop over the declared dependencies (fs.py:232-234): resolve each, then store its value under its key. */
  ghost function ResolveDependencies(
    table: FeatureTable, rank: map<FeatureId, nat>, e: EntityRef, ds: seq<FeatureId>, bound: nat, acc: Memo): (m: Memo)
    requires Ranked(table, rank)
    requires forall d :: d in ds ==> d in table && d in rank && rank[d] < bound
    decreases bound, 0, |ds|
  {
    if ds == [] then
      acc
    else
      var r := Resolve(table, rank, e, ds[0], acc.cache);
      ResolveDependencies(table, rank, e, ds[1..], bound,
                          Memo(r.cache[KeyOf(e, ds[0]) := r.value], acc.computed + r.computed))
  }

  /** Every entry of `c` is still in `c'`, with the same value. */
  ghost predicate Extends(c: Cache, c': Cache)
  {
    forall k :: k in c ==> k in c' && c'[k] == c[k]
  }

  /** Every dependency of `g` has an entry for entity `e`. */
  ghost predicate DependenciesCached(table: FeatureTable, e: EntityRef, g: FeatureId, c: Cache)
    requires g in table
  {
    forall d :: d in table[g].dependencies ==> KeyOf(e, d) in c
  }

  /** No feature is computed twice. */
  ghost predicate NoDuplicates(computed: seq<FeatureId>)
  {
    forall i, j :: 0 <= i < j < |computed| ==> computed[i] != computed[j]
  }

  /** Every entry that `c'` adds to `c` is a slot of entity `e` for a feature of `computed`. */
  ghost predicate NewSlotsComputed(e: EntityRef, c: Cache, c': Cache, computed: seq<FeatureId>)
  {
    forall k :: k in c' && k !in c ==> k.entityType == e.entityType && k.entityName == e.name && k.feature in computed
  }

  /** Every feature of `computed` got a new slot holding calculate over its dependencies' entries in `c'`. */
  ghost predicate ComputedCorrectly(table: FeatureTable, e: EntityRef, c: Cache, c': Cache, computed: seq<FeatureId>)
  {
    forall g :: g in computed ==>
      && g in table
      && KeyOf(e, g) in c' && KeyOf(e, g) !in c
      && DependenciesCached(table, e, g, c')
      && c'[KeyOf(e, g)] == table[g].calculate(e, Arguments(e, table[g].dependencies, c'))
  }

  /**
   * Going from `c` to `c'` kept every old entry and added exactly one entry per
   * feature of `computed`, each computed at most once, each for entity `e`, and
   * each equal to its feature's calculate over its dependencies' entries in `c'`.
   */
  ghost predicate ComputedFrom(table: FeatureTable, e: EntityRef, c: Cache, c': Cache, computed: seq<FeatureId>)
  {
    && Extends(c, c')
    && NoDuplicates(computed)
    && NewSlotsComputed(e, c, c', computed)
    && ComputedCorrectly(table, e, c, c', computed)
  }

  lemma ArgumentsStable(table: FeatureTable, e: EntityRef, g: FeatureId, c: Cache, c': Cache)
    requires g in table && DependenciesCached(table, e, g, c) && Extends(c, c')
    ensures Arguments(e, table[g].dependencies, c) == Arguments(e, table[g].dependencies, c')
  {
  }

  lemma ComputedFromNothing(table: FeatureTable, e: EntityRef, c: Cache)
    ensures ComputedFrom(table, e, c, c, [])
  {
  }

  /** Two successive stretches of resolution compose into one. */
  lemma {:induction false} ComputedFromTrans(
    table: FeatureTable, e: EntityRef, c0: Cache, c1: Cache, c2: Cache, l1: seq<FeatureId>, l2: seq<FeatureId>)
    requires ComputedFrom(table, e, c0, c1, l1) && ComputedFrom(table, e, c1, c2, l2)
    ensures ComputedFrom(table, e, c0, c2, l1 + l2)
  {
    var l := l1 + l2;
    forall i, j | 0 <= i < j < |l|
      ensures l[i] != l[j]
    {
      if j < |l1| {
        assert l[i] == l1[i] && l[j] == l1[j];
      } else if i >= |l1| {
        assert l[i] == l2[i - |l1|] && l[j] == l2[j - |l1|];
      } else {
        assert l[i] == l1[i] && l[j] == l2[j - |l1|];
        assert KeyOf(e, l[i]) in c1 && KeyOf(e, l[j]) !in c1;
      }
    }
    forall k | k in c2 && k !in c0
      ensures k.entityType == e.entityType && k.entityName == e.name && k.feature in l
    {
      if k in c1 {
        assert k.feature in l1;
      } else {
        assert k.feature in l2;
      }
    }
    forall g | g in l
      ensures && g in table
              && KeyOf(e, g) in c2 && KeyOf(e, g) !in c0
              && DependenciesCached(table, e, g, c2)
              && c2[KeyOf(e, g)] == table[g].calculate(e, Arguments(e, table[g].dependencies, c2))
    {
      if g in l1 {
        ArgumentsStable(table, e, g, c1, c2);
      } else {
        assert g in l2;
      }
    }
  }

  /** Storing the value of one feature whose dependencies are already cached. */
  lemma ComputedFromStore(table: FeatureTable, e: EntityRef, c: Cache, f: FeatureId, v: Value)
    requires f in table && KeyOf(e, f) !in c && DependenciesCached(table, e, f, c)
    requires v == table[f].calculate(e, Arguments(e, table[f].dependencies, c))
    ensures ComputedFrom(table, e, c, c[KeyOf(e, f) := v], [f])
  {
    ArgumentsStable(table, e, f, c, c[KeyOf(e, f) := v]);
  }

  /**
   * What one resolution does to the cache: it keeps every entry it found, it
   * leaves the feature's value under the feature's key, and every entry it adds
   * belongs to this entity and is a feature it computed exactly once from its
   * dependencies' cached values. The features it computes rank no higher than `f`.
   */
  lemma {:induction false} ResolveComputes(table: FeatureTable, rank: map<FeatureId, nat>, e: EntityRef, f: FeatureId, c: Cache)
    requires Ranked(table, rank) && f in table
    ensures var r := Resolve(table, rank, e, f, c);
      && ComputedFrom(table, e, c, r.cache, r.computed)
      && KeyOf(e, f) in r.cache && r.cache[KeyOf(e, f)] == r.value
      && (forall g :: g in r.computed ==> g in rank && rank[g] <= rank[f])
    decreases rank[f], 1
  {
    var key := KeyOf(e, f);
    if key in c {
      ComputedFromNothing(table, e, c);
    } else {
      var deps := table[f].dependencies;
      ComputedFromNothing(table, e, c);
      ResolveDependenciesCompute(table, rank, e, deps, rank[f], c, Memo(c, []));
      var m := ResolveDependencies(table, rank, e, deps, rank[f], Memo(c, []));
      assert key !in m.cache;
      var v := table[f].calculate(e, Arguments(e, deps, m.cache));
      ComputedFromStore(table, e, m.cache, f, v);
      ComputedFromTrans(table, e, c, m.cache, m.cache[key := v], m.computed, [f]);
    }
  }

  /** The dependency loop: every dependency ends up cached, and what it adds was computed from cached values. */
  lemma {:induction false} ResolveDependenciesCompute(
    table: FeatureTable, rank: map<FeatureId, nat>, e: EntityRef, ds: seq<FeatureId>, bound: nat, c0: Cache, acc: Memo)
    requires Ranked(table, rank)
    requires forall d :: d in ds ==> d in table && d in rank && rank[d] < bound
    requires ComputedFrom(table, e, c0, acc.cache, acc.computed)
    ensures var m := ResolveDependencies(table, rank, e, ds, bound, acc);
      && ComputedFrom(table, e, c0, m.cache, m.computed)
      && (forall d :: d in ds ==> KeyOf(e, d) in m.cache)
      && Extends(acc.cache, m.cache)
      && (forall g :: g in m.computed ==> g in acc.computed || (g in rank && rank[g] < bound))
    decreases bound, 0, |ds|
  {
    if ds != [] {
      var d := ds[0];
      ResolveComputes(table, rank, e, d, acc.cache);
      var r := Resolve(table, rank, e, d, acc.cache);
      assert r.cache[KeyOf(e, d) := r.value] == r.cache;
      ComputedFromTrans(table, e, c0, acc.cache, r.cache, acc.computed, r.computed);
      var next := Memo(r.cache, acc.computed + r.computed);
      ResolveDependenciesCompute(table, rank, e, ds[1..], bound, c0, next);
      var m := ResolveDependencies(table, rank, e, ds[1..], bound, next);
      forall x | x in ds
        ensures KeyOf(e, x) in m.cache
      {
        if x != d {
          assert x in ds[1..];
        }
      }
    }
  }

  /** A feature already cached is returned as cached: nothing is computed and the cache is unchanged (fs.py:228-230). */
  lemma ResolveCached(table: FeatureTable, rank: map<FeatureId, nat>, e: EntityRef, f: FeatureId, c: Cache)
    requires Ranked(table, rank) && f in table && KeyOf(e, f) in c
    ensures Resolve(table, rank, e, f, c) == Resolution(c[KeyOf(e, f)], c, [])
  {
  }

  /**
   * A feature not yet cached is computed (fs.py:231-240): its dependencies all
   * end up cached, its value is calculate applied to their cached values in
   * declared order, and it is the last feature computed.
   */
  lemma ResolveUncached(table: FeatureTable, rank: map<FeatureId, nat>, e: EntityRef, f: FeatureId, c: Cache)
    requires Ranked(table, rank) && f in table && KeyOf(e, f) !in c
    ensures var r := Resolve(table, rank, e, f, c);
      && DependenciesCached(table, e, f, r.cache)
      && |Arguments(e, table[f].dependencies, r.cache)| == |table[f].dependencies|
      && (forall i :: 0 <= i < |table[f].dependencies| ==>
            Arguments(e, table[f].dependencies, r.cache)[i] == r.cache[KeyOf(e, table[f].dependencies[i])])
      && r.value == table[f].calculate(e, Arguments(e, table[f].dependencies, r.cache))
      && r.computed != [] && r.computed[|r.computed| - 1] == f
  {
    ResolveComputes(table, rank, e, f, c);
  }

  /** Resolving twice: the second call returns the same value, computes nothing and changes nothing. */
  lemma ResolveIdempotent(table: FeatureTable, rank: map<FeatureId, nat>, e: EntityRef, f: FeatureId, c: Cache)
    requires Ranked(table, rank) && f in table
    ensures var r := Resolve(table, rank, e, f, c);
      Resolve(table, rank, e, f, r.cache) == Resolution(r.value, r.cache, [])
  {
    ResolveComputes(table, rank, e, f, c);
  }

  /** Resolving for one entity leaves every slot of any other entity exactly as it was. */
  lemma ResolveIsolated(table: FeatureTable, rank: map<FeatureId, nat>, e: EntityRef, f: FeatureId, c: Cache, other: EntityRef, g: FeatureId)
    requires Ranked(table, rank) && f in table && other != e
    ensures var r := Resolve(table, rank, e, f, c);
      && (KeyOf(other, g) in r.cache <==> KeyOf(other, g) in c)
      && (KeyOf(other, g) in c ==> r.cache[KeyOf(other, g)] == c[KeyOf(other, g)])
  {
    ResolveComputes(table, rank, e, f, c);
  }

  /**
   * A stipulated value takes precedence: resolving a feature right after
   * stipulating it returns the coerced value, changes nothing and never calls
   * calculate (fs.py:243-244 with fs.py:228-230).
   */
  lemma StipulationPrecedes(table: FeatureTable, rank: map<FeatureId, nat>, e: EntityRef, f: FeatureId, raw: Value, c: Cache)
    requires Ranked(table, rank) && f in table && table[f].valueType(raw).Some?
    ensures var c' := c[KeyOf(e, f) := table[f].valueType(raw).value];
      Resolve(table, rank, e, f, c') == Resolution(table[f].valueType(raw).value, c', [])
  {
  }

  /**
   * An entity: a name, an Entity subclass, and the session's shared cache.
   * Several Entity objects built for the same (class, name) share one set of slots.
   */
  class Entity {
    const entityType: EntityType
    const name: string
    const valueCache: FeatureValueCache

    constructor(entityType: EntityType, name: string, valueCache: FeatureValueCache)
      ensures this.entityType == entityType && this.name == name && this.valueCache == valueCache
    {
      this.entityType := entityType;
      this.name := name;
      this.valueCache := valueCache;
    }

    function Ref(): (r: EntityRef)
    {
      EntityRef(entityType, name)
    }

    /**
     * calculate_feature_value: return the cached value, or resolve every
     * dependency in declared order, compute, cache and return. `computed` lists
     * the features whose calculate ran.
     */
    method CalculateFeatureValue(table: FeatureTable, ghost rank: map<FeatureId, nat>, f: FeatureId)
      returns (value: Value, ghost computed: seq<FeatureId>)
      requires Ranked(table, rank) && f in table
      modifies valueCache
      ensures Resolution(value, valueCache.entries, computed) == Resolve(table, rank, Ref(), f, old(valueCache.entries))
      decreases rank[f]
    {
      var key := KeyOf(Ref(), f);
      if valueCache.Contains(key) {
        value := valueCache.Get(key);
        computed := [];
        return;
      }
      var deps := table[f].dependencies;
      ghost var c0 := valueCache.entries;
      computed := [];
      var i := 0;
      while i < |deps|
        invariant 0 <= i <= |deps|
        invariant ResolveDependencies(table, rank, Ref(), deps[i..], rank[f], Memo(valueCache.entries, computed))
               == ResolveDependencies(table, rank, Ref(), deps, rank[f], Memo(c0, []))
      {
        assert deps[i..][0] == deps[i] && deps[i..][1..] == deps[i + 1..];
        var dependencyValue, sub := CalculateFeatureValue(table, rank, deps[i]);
        valueCache.Set(KeyOf(Ref(), deps[i]), dependencyValue);
        computed := computed + sub;
        i := i + 1;
      }
      var arguments := seq(|deps|, j requires 0 <= j < |deps| reads valueCache => valueCache.Get(KeyOf(Ref(), deps[j])));
      assert arguments == Arguments(Ref(), deps, valueCache.entries);
      value := table[f].calculate(Ref(), arguments);
      valueCache.Set(key, value);
      computed := computed + [f];
    }

    /**
     * stipulate_feature_value: coerce `raw` with the feature's value_type and
     * store it under the feature's key, bypassing the resolver. A value the
     * coercion rejects raises (ok == false) before anything is stored.
     */
    method StipulateFeatureValue(table: FeatureTable, f: FeatureId, raw: Value) returns (ok: bool)
      requires f in table
      modifies valueCache
      ensures ok <==> table[f].valueType(raw).Some?
      ensures valueCache.entries ==
        if ok then old(valueCache.entries)[KeyOf(Ref(), f) := table[f].valueType(raw).value]
        else old(valueCache.entries)
    {
      var coerced := table[f].valueType(raw);
      ok := coerced.Some?;
      if ok {
        valueCache.Set(KeyOf(Ref(), f), coerced.value);
      }
    }
  }
}

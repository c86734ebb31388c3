# fs.py feature store: a Dafny model

`fs.py` is a small feature store. An *entity* is a named instance of an entity
class, for example the rectangle `"r1"`. A *feature* is a class that belongs to one
entity class. It declares the features it depends on and a `calculate` that
computes its value from the values of those dependencies. Every entity of a
session shares one *feature value cache*, keyed by a hash of the entity's class
name, the feature's class name and the entity's name.

Feature values reach the cache in two ways:

- **Calculation.** `calculate_feature_value` resolves the dependencies
  depth-first in declared order and memoises every result.
- **Stipulation.** `stipulate_feature_value` coerces a raw field with the
  feature's `value_type` and stores it directly.

*Data sources* carry `(feature, feature_key, name_key)` mappings. Each mapping
says which column of a row holds the feature's value (`feature_key`) and which
column names the entity (`name_key`). `Session.dump` *hydrates* the cache: for
every entity type, every source that feeds it, every row and every name column,
it stipulates each mapped field onto the entity that the row names.

The model has five modules, one per file. `wrappers.dfy` (`Wrappers`) holds only the `Option` type; the other four are:

- `value_cache.dfy` (`ValueCache`): the cache, as a class over a map. A missing
  key reads as the `NO_VALUE` sentinel.
- `features.dfy` (`Features`): the resolver and stipulation, as methods of the
  `Entity` class. Each method is proved against a ghost function of the cache
  (`Resolve`). The lemmas about `Resolve` cover:
  - memoisation and idempotence;
  - compute-once: every feature whose `calculate` runs is computed exactly once;
  - that the arguments `calculate` receives are its dependencies' cached values,
    in declared order;
  - isolation between entities;
  - that a stipulated value takes precedence over calculation.
- `data_sources.dfy` (`DataSources`): the mapping bookkeeping of a data source,
  and the catalog lookup by name.
- `hydration.dfy` (`Hydration`): `Session.dump`, as nested loops proved against
  one function per loop level. The lemmas cover:
  - the dump succeeds exactly when every visited row is good;
  - that the cache it leaves is its stipulations carried out in walk order, so the last write to a slot wins;
  - that a hydrated value is what the resolver then returns.

The feature registry is a `FeatureTable`, a map from feature name to the feature's
entity class, dependencies, `calculate` and `value_type`. The source discovers
these through reflection, so the table takes that reflection's place.

`calculate` and `value_type` are arbitrary functions of the table:

- `calculate` is total (see Left out).
- `value_type` returns `None` where the source's coercion raises.

A cache key is the structured triple `Key(entityType, feature, entityName)`. The
source's MD5 digest of the concatenated names is not modelled; see Findings.

## Model

| member | source | states |
|---|---|---|
| ValueCache.Lookup | fs.py:47-48 | A present key yields its stored value and an absent key yields `NO_VALUE`. |
| ValueCache.LookupAfterStore | fs.py:47-51 | After a store, the stored key yields the new value and every other key yields what it did before. |
| ValueCache.LookupAfterDelete | fs.py:47-54 | A deleted key is gone and yields `NO_VALUE`; every other key is unaffected. |
| ValueCache.FeatureValueCache.constructor | fs.py:44-45 | A new cache is empty. |
| ValueCache.FeatureValueCache.Get | fs.py:47-48 | `__getitem__`: the stored value, or `NO_VALUE` when the key is absent. |
| ValueCache.FeatureValueCache.Set | fs.py:50-51 | `__setitem__`: exactly the one key is (re)bound, and reading it back gives the value. |
| ValueCache.FeatureValueCache.Delete | fs.py:53-54 | `__delitem__`: the key is removed and nothing else changes. It reports failure (the KeyError) exactly when the key was absent. |
| ValueCache.FeatureValueCache.Contains | fs.py:56-57 | `__contains__` holds exactly for stored keys. |
| Features.KeyOfInjective | fs.py:218-220 | Two cache slots are the same exactly when the entity class, entity name and feature all match. This is the intended reading of `get_feature_hash`; see Findings. |
| Features.ConcatKeyCollides | fs.py:218-220 | The concatenation the source hashes maps two different (entity, feature) pairs to one string, so the two share a slot. |
| Features.ResolveComputes | fs.py:222-241 | Resolution keeps every entry it found and leaves the result under the feature's own key. Every entry it adds belongs to this entity and is a feature computed exactly once, by `calculate` on its dependencies' cached values. Every feature computed ranks no higher than the requested one. |
| Features.ResolveDependenciesCompute | fs.py:232-234 | The dependency loop leaves every dependency cached, and everything it adds satisfies the same compute-once, computed-from-dependencies guarantee. |
| Features.ResolveCached | fs.py:228-230 | A cached feature returns its cached value, computes nothing and leaves the cache unchanged. |
| Features.ResolveUncached | fs.py:231-240 | An uncached feature has all its dependencies cached before `calculate` runs. `calculate` receives exactly their cached values, in declared order. The result is what `calculate` returns, and the requested feature is the last one computed. |
| Features.ResolveIdempotent | fs.py:222-241 | Resolving the same feature again returns the same value, computes nothing and changes nothing. |
| Features.ResolveIsolated | fs.py:218-241 | Resolving a feature of one entity never changes a slot of another entity. |
| Features.StipulationPrecedes | fs.py:222-244 | After a stipulation, resolving that feature returns the coerced value without running `calculate`. |
| Features.ArgumentsStable | fs.py:235-238 | Once a feature's dependencies are cached, adding entries to the cache does not change the arguments its `calculate` receives. |
| Features.ComputedFromTrans | fs.py:222-241 | The compute-once and computed-from-dependencies guarantee composes over consecutive resolutions. |
| Features.ComputedFromStore | fs.py:239-240 | Storing a feature computed from cached dependencies satisfies that guarantee. |
| Features.Entity.constructor | fs.py:201-204 | An entity has its class, its name and the session's shared cache. |
| Features.Entity.CalculateFeatureValue | fs.py:222-241 | The method returns the value `Resolve` gives and leaves the cache `Resolve` gives. Its loop stores each dependency's value under the dependency's key, as the source does. |
| Features.Entity.StipulateFeatureValue | fs.py:243-244 | When `value_type` accepts the raw value, its coercion is stored under the feature's key. When `value_type` rejects it, the method fails and the cache is unchanged. |
| DataSources.HasEntity | fs.py:107-113 | True exactly when some mapping's feature belongs to the entity class. |
| DataSources.EntityNameKeys | fs.py:118-123 | Exactly the name columns of the mappings whose feature belongs to the entity class. |
| DataSources.FeatureMappingsForNameKey | fs.py:125-128 | Exactly the mappings keyed on the name column, in their order, and never more mappings than there are. |
| DataSources.FeatureMappingsForNameKeyConcat | fs.py:125-128 | The selection keeps insertion order: it distributes over concatenation. |
| DataSources.NameKeyOrder | fs.py:118-123 | The order in which the dump visits name columns. It contains each name column once and holds exactly the elements of `EntityNameKeys`. |
| DataSources.AppendHasEntity | fs.py:97-113 | After an append, the source feeds the entity class exactly when it did before or the new mapping's feature belongs to that class. |
| DataSources.AppendNameKeys | fs.py:97-123 | An append adds the new mapping's name column to the entity's name columns when its feature belongs to the class, and adds nothing else. |
| DataSources.AppendMappingEffect | fs.py:97-128 | Appending a mapping changes `HasEntity`, `EntityNameKeys` and `FeatureMappingsForNameKey` by exactly that mapping and nothing else. |
| DataSources.DataSource.constructor | fs.py:79-81 | A new source has its name, its rows and no mappings. |
| DataSources.DataSource.AddEntityFeatureMapping | fs.py:97-105 | The new mapping is appended at the end, and the earlier mappings are untouched. |
| DataSources.DataCatalog.constructor | fs.py:162-163 | A new catalog is empty. |
| DataSources.DataCatalog.AddDataSource | fs.py:165-166 | The source is appended at the end. |
| DataSources.DataCatalog.GetDataSource | fs.py:168-171 | The result is nothing exactly when no source has the name. Otherwise it is the first source with that name. |
| Hydration.MappingsOutcomeSound | fs.py:323-332 | The mappings of one name column succeed exactly when each mapped column is present and accepted by `value_type`. A failure is true of the row. The cache afterwards is the accepted stipulations, up to the first failure, stored in mapping order, so a later mapping's value replaces an earlier one on the same slot. |
| Hydration.RowOutcomeSound | fs.py:321-332 | One row succeeds exactly when every name column and every column mapped on it is present and accepted. A failure is true of the row. The cache afterwards is the row's stipulations, up to the first failure, stored in walk order. |
| Hydration.RowsOutcomeSound | fs.py:320-333 | Every row of a source succeeds exactly when each row is good. The cache afterwards is the rows' stipulations stored row after row, up to the first failure. |
| Hydration.SourcesOutcomeSound | fs.py:318-333 | Sources that do not feed the entity type are skipped. The pass succeeds exactly when every source that feeds it has only good rows. The cache afterwards is the sources' stipulations stored source after source, up to the first failure. |
| Hydration.DumpOutcomeSound | fs.py:315-333 | The dump succeeds exactly when no source feeding any entity type has a bad row. Whether it finishes or stops, the cache it leaves is exactly its stipulations (`DumpWrites`) stored in walk order on the old cache. Entity types, sources, rows and mappings are walked in list order; the first failure ends the walk and its earlier writes stay. |
| Hydration.LastWriteIsLast | fs.py:316-332 | `LastWrite` is the write to the slot that no later write to it follows, and is none exactly when nothing writes the slot. |
| Hydration.ApplyLastWrite | fs.py:316-332 | Storing writes in turn leaves each slot with its last write; a slot nothing writes keeps its old presence and value. |
| Hydration.ApplyConcat | fs.py:316-332 | Storing two stretches of writes one after the other is storing their concatenation. |
| Hydration.LastWriteConcat | fs.py:316-332 | For each slot, a later stretch of writes overrides an earlier one. |
| Hydration.RowsWritesAppend | fs.py:320-333 | After good rows, a further row adds its own stipulations at the end. |
| Hydration.LaterRowWins | fs.py:320-332 | When an entity repeats across rows, the later row's field wins. After good rows, a slot that the final row writes ends with that row's last write to it, whatever earlier rows stored there. |
| Hydration.MappingsWritesContain | fs.py:323-332 | When every mapping of a name column is good, each mapping's stipulation is among the column's writes: the slot (feature's entity class, feature, entity name) with the coerced field. |
| Hydration.RowWritesContain | fs.py:321-332 | In a good row, for each name column `k` and each mapping keyed on `k`, the row has both columns, `value_type` accepts the field, and the write of the coerced field to the slot of the entity named `row[k]` is among the row's writes. |
| Hydration.RowsWritesContain | fs.py:320-332 | The same holds for every row of a source whose rows are all good. |
| Hydration.SourcesWritesContain | fs.py:318-332 | The same holds for every row of every source that feeds the entity type, through each of its name columns for that type. |
| Hydration.DumpWritesContain | fs.py:316-332 | The same holds for every entity type, every source that feeds it and every row, when no visited row is bad. |
| Hydration.LastWriteAt | fs.py:316-332 | A write that no later write to its slot follows is the slot's last write. |
| Hydration.DumpFillsSlot | fs.py:315-332 | After a successful dump, for every visited row, every name column `k` of the entity type and every mapping keyed on `k`, the slot (feature's entity class, feature, `row[k]`) is in the cache. It holds `value_type` of the row's field when no later stipulation targets that slot, and whenever all stipulations to that slot agree. |
| Hydration.MappingsWritesFrom | fs.py:323-332 | Every write of a name column's mappings is the stipulation of one of those mappings: its feature's entity class, the feature and the entity name as the slot, and the accepted field as the value. |
| Hydration.RowWritesFrom | fs.py:321-332 | Every write of a row comes from a name column `k` present in the row and a mapping keyed on `k`, stipulated for the entity named `row[k]`. |
| Hydration.RowsWritesFrom | fs.py:320-332 | Every write of a source's rows comes from one of those rows, one of its name columns and a mapping keyed on it. |
| Hydration.SourcesWritesFrom | fs.py:318-332 | Every write of the pass over an entity type comes from a row of a source and a mapping keyed on one of that source's name columns for the type. |
| Hydration.DumpWritesFrom | fs.py:316-332 | Every write of the dump, finished or stopped, is the stipulation of a mapping keyed on a name column of a visited entity type, in a row of a source that feeds it. |
| Hydration.DumpLeavesOtherSlots | fs.py:315-332 | The dump changes nothing else: a slot that no mapping of any visited row targets keeps its old presence and value, whether the dump finishes or stops. |
| Hydration.MissingColumnFailsDump | fs.py:322-328 | A row of a feeding source that lacks a name column of that type, or a column mapped on one, makes the dump fail; the row is never skipped. |
| Hydration.HydratedValueResolves | fs.py:315-333 | After a dump, whether it finished or stopped, a feature whose slot the dump wrote resolves to the value last written there. `calculate` does not run and the cache does not change. |
| Hydration.Session.constructor | fs.py:273-278 | A session starts with an empty cache. |
| Hydration.Session.Dump | fs.py:315-333 | The method leaves the cache and the failure that `DumpOutcome` gives. |
| Hydration.Session.HydrateSource | fs.py:320-333 | The method leaves the cache and the failure that `RowsOutcome` gives for the source's rows. |
| Hydration.Session.HydrateRow | fs.py:321-332 | The method leaves the cache and the failure that `RowOutcome` gives for one row. Each stipulation goes to an entity built from the mapped feature's own entity class and the row's name field. |

## Left out

- Reflection is replaced by an explicit `FeatureTable` and explicit session contents. This covers:
  - `populate`, `__enter__` and `__exit__`;
  - `iterate_globals`, `global_classes`, `global_instances` and `get_feature_class_by_name`;
  - `dependency_names` and `dependency_classes`, read from `calculate`'s annotations;
  - `get_features`, `feature_list` and `get_data_sources`.
- `add_entity`, `add_feature` and `Session.add_data_source` are not modelled. They append to the session's lists, and `add_entity` and `add_feature` also set the added class's `session` attribute (fs.py:293-299). Nothing in the modelled core reads that attribute: entities built during `dump` receive the session through their constructor (fs.py:201-204). The model gives the session its contents when it is constructed.
- Reading rows from a CSV file (`CSVDataSource.yield_data`) is not modelled. A source's rows are a fixed sequence of column-to-text maps.
- Every value is either text or an abstract real (`Value`). Floating-point arithmetic in features' `calculate` is not modelled.
- The MD5 digest in `get_feature_hash` is not modelled. The key is the structured triple, and Findings covers the concatenation it digests.
- Features.Resolve and Features.Entity.CalculateFeatureValue: the model requires a dependency graph ordered by a rank (`Ranked`). The source performs no cycle check: a cyclic graph recurses until Python's recursion limit raises.
- Features.Resolve: `calculate` is a total function. In the source a `calculate` that raises aborts the resolution, and the dependency values it already stored stay in the cache (fs.py:232-239). The model has no such failure path.
- Features.Resolve: an acyclic dependency chain deeper than Python's recursion limit raises `RecursionError` in the source. The model has no recursion limit and resolves it.
- Features.Resolve: `Ranked` constrains the whole feature table, not only the features reachable from the requested one. A table that holds a dependency cycle anywhere is outside the model, even for features the cycle does not reach, which the source resolves.
- Hydration.Session.Dump: the source prints the last entity built after each name column (`rich.print(entity)`, fs.py:333). Printing calls `__repr__`, which calculates every feature of that entity, so it also writes computed values into the cache. It can also raise and end the dump even when every row is good: a `calculate` that raises, or a dependency cycle among the printed entity's features, does so. The model leaves out this printing, its cache writes and its failures entirely. So "the dump succeeds exactly when no source has a bad row" (`DumpOutcomeSound`) is a statement about the model.
- Hydration.Session.Dump: the source iterates the set returned by `entity_name_keys`, in whatever order the set yields. The model visits the name columns in the order of their first mapping (`NameKeyOrder`). Whether the dump succeeds does not depend on that order, and neither does which slots a successful dump fills (`DumpFillsSlot`, `DumpLeavesOtherSlots`). Two things do depend on it. One is which value wins on a slot that two name columns of one row both write. The other is which stipulations a failing row makes before the dump stops. There, `DumpOutcomeSound` and `HydratedValueResolves` hold for the model's own order only.
- `Session.get_data_source` (fs.py:287-288) is not modelled. It reads a `data_catalog` attribute that `Session` never sets, so every call raises AttributeError.
- `__repr__`, `__call__`, `__iter__` and `__lt__` of `DataSource` are not modelled. They are printing and syntactic sugar over `yield_data` and `add_entity_feature_mapping`.
- The session's `uuid` identifier, `Feature.raw_process`, `Entity.get_table` and the example `Rectangle` classes are not modelled.

## Findings

| source | as written | input that shows it | evidently intended | confidence | as-written member | corrected member |
|---|---|---|---|---|---|---|
| fs.py:218-220 | The cache key digests the entity class name, feature class name and entity name joined with no separator. | The rectangle `"2a"` read through feature `Width`, and the rectangle `"a"` read through feature `Width2`: both give `"RectangleWidth2a"`, so they share one cache slot. | Each (entity class, feature, entity name) triple has its own slot. | not executed | Features.ConcatKeyCollides | Features.KeyOfInjective |

/**
 * Data sources and their entity-feature mappings (DataSource, fs.py:72-131) and
 * the catalog lookup by name (DataCatalog, fs.py:155-171). A source's rows are
 * given as a finite sequence; reading them from a CSV file is not modelled.
 */
module DataSources {
  import opened Wrappers
  import opened ValueCache
  import opened Features

  /** One `(feature, feature_key, name_key)` mapping: the feature's column and the entity-name column. */
  datatype Mapping = Mapping(feature: FeatureId, featureKey: string, nameKey: string)

  /** One row of a source: column name to field text. */
  type Row = map<string, string>

  /** Every mapped feature is one the table describes. */
  predicate Known(table: FeatureTable, ms: seq<Mapping>)
  {
    forall m :: m in ms ==> m.feature in table
  }

  /** The mapping's feature belongs to entity type `t` (`feature.entity is entity`). */
  predicate Feeds(table: FeatureTable, m: Mapping, t: EntityType)
    requires m.feature in table
  {
    table[m.feature].entity == t
  }

  /** has_entity (fs.py:107-113): some mapping's feature belongs to `t`. */
  function HasEntity(table: FeatureTable, ms: seq<Mapping>, t: EntityType): (b: bool)
    requires Known(table, ms)
    ensures b <==> exists i :: 0 <= i < |ms| && Feeds(table, ms[i], t)
  {
    if ms == [] then
      false
    else
      var rest := HasEntity(table, ms[1..], t);
      assert forall i :: 1 <= i < |ms| ==> ms[i] == ms[1..][i - 1];
      Feeds(table, ms[0], t) || rest
  }

  /** entity_name_keys (fs.py:118-123): the name columns of the mappings whose feature belongs to `t`. */
  function EntityNameKeys(table: FeatureTable, ms: seq<Mapping>, t: EntityType): (keys: set<string>)
    requires Known(table, ms)
    ensures forall k :: k in keys <==> exists i :: 0 <= i < |ms| && Feeds(table, ms[i], t) && ms[i].nameKey == k
  {
    if ms == [] then
      {}
    else
      var rest := EntityNameKeys(table, ms[1..], t);
      assert forall i :: 1 <= i < |ms| ==> ms[i] == ms[1..][i - 1];
      if Feeds(table, ms[0], t) then {ms[0].nameKey} + rest else rest
  }

  /**
   * entity_feature_mapping_for_name_key (fs.py:125-128): the mappings keyed on
   * name column `k`, whatever entity type their feature belongs to.
   */
  function FeatureMappingsForNameKey(ms: seq<Mapping>, k: string): (r: seq<Mapping>)
    ensures forall m :: m in r <==> m in ms && m.nameKey == k
    ensures |r| <= |ms|
  {
    if ms == [] then
      []
    else
      var rest := FeatureMappingsForNameKey(ms[1..], k);
      if ms[0].nameKey == k then [ms[0]] + rest else rest
  }

  /** The selection keeps insertion order: it distributes over concatenation. */
  lemma {:induction false} FeatureMappingsForNameKeyConcat(a: seq<Mapping>, b: seq<Mapping>, k: string)
    ensures FeatureMappingsForNameKey(a + b, k) == FeatureMappingsForNameKey(a, k) + FeatureMappingsForNameKey(b, k)
  {
    if a != [] {
      assert (a + b)[1..] == a[1..] + b;
      FeatureMappingsForNameKeyConcat(a[1..], b, k);
    } else {
      assert a + b == b;
    }
  }

  /**
   * The order in which the model visits the name columns of `t`: each once, in
   * the order of the first mapping that names it. The source iterates the set
   * entity_name_keys returns, in whatever order the set yields.
   */
  function NameKeyOrder(table: FeatureTable, ms: seq<Mapping>, t: EntityType): (keys: seq<string>)
    requires Known(table, ms)
    ensures forall i, j :: 0 <= i < j < |keys| ==> keys[i] != keys[j]
    ensures forall k :: k in keys <==> k in EntityNameKeys(table, ms, t)
    decreases |ms|
  {
    if ms == [] then
      []
    else
      var init := ms[..|ms| - 1];
      var last := ms[|ms| - 1];
      var keys := NameKeyOrder(table, init, t);
      assert forall i :: 0 <= i < |init| ==> init[i] == ms[i];
      if Feeds(table, last, t) && last.nameKey !in keys then keys + [last.nameKey] else keys
  }

  /** Appending a mapping makes the source feed `t` exactly when it did or the new mapping does. */
  lemma AppendHasEntity(table: FeatureTable, ms: seq<Mapping>, m: Mapping, t: EntityType)
    requires Known(table, ms) && m.feature in table
    ensures Known(table, ms + [m])
    ensures HasEntity(table, ms + [m], t) <==> HasEntity(table, ms, t) || Feeds(table, m, t)
  {
    var ms' := ms + [m];
    if HasEntity(table, ms', t) {
      var i :| 0 <= i < |ms'| && Feeds(table, ms'[i], t);
      if i < |ms| {
        assert ms'[i] == ms[i];
      }
    }
    if HasEntity(table, ms, t) {
      var i :| 0 <= i < |ms| && Feeds(table, ms[i], t);
      assert ms'[i] == ms[i];
    }
    assert ms'[|ms|] == m;
  }

  /** Appending a mapping adds its name column to the entity's name columns when it feeds `t`, and nothing else. */
  lemma AppendNameKeys(table: FeatureTable, ms: seq<Mapping>, m: Mapping, t: EntityType)
    requires Known(table, ms) && m.feature in table
    ensures Known(table, ms + [m])
    ensures EntityNameKeys(table, ms + [m], t) ==
      EntityNameKeys(table, ms, t) + (if Feeds(table, m, t) then {m.nameKey} else {})
  {
    var ms' := ms + [m];
    var extra: set<string> := if Feeds(table, m, t) then {m.nameKey} else {};
    forall x
      ensures x in EntityNameKeys(table, ms', t) <==> x in EntityNameKeys(table, ms, t) + extra
    {
      if x in EntityNameKeys(table, ms', t) {
        var i :| 0 <= i < |ms'| && Feeds(table, ms'[i], t) && ms'[i].nameKey == x;
        if i < |ms| {
          assert ms'[i] == ms[i];
        }
      }
      if x in EntityNameKeys(table, ms, t) {
        var i :| 0 <= i < |ms| && Feeds(table, ms[i], t) && ms[i].nameKey == x;
        assert ms'[i] == ms[i];
      }
      assert ms'[|ms|] == m;
    }
  }

  /**
   * Appending a mapping (add_entity_feature_mapping, fs.py:97-105) extends each
   * view of the mappings by exactly that mapping and nothing else.
   */
  lemma AppendMappingEffect(table: FeatureTable, ms: seq<Mapping>, m: Mapping, t: EntityType, k: string)
    requires Known(table, ms) && m.feature in table
    ensures Known(table, ms + [m])
    ensures HasEntity(table, ms + [m], t) <==> HasEntity(table, ms, t) || Feeds(table, m, t)
    ensures EntityNameKeys(table, ms + [m], t) ==
      EntityNameKeys(table, ms, t) + (if Feeds(table, m, t) then {m.nameKey} else {})
    ensures FeatureMappingsForNameKey(ms + [m], k) ==
      FeatureMappingsForNameKey(ms, k) + (if m.nameKey == k then [m] else [])
  {
    AppendHasEntity(table, ms, m, t);
    AppendNameKeys(table, ms, m, t);
    FeatureMappingsForNameKeyConcat(ms, [m], k);
    assert [m][1..] == [];
  }

  /**
   * A data source: a name, the entity-feature mappings declared on it, and the
   * rows its reader yields.
   */
  class DataSource {
    const name: string
    var entityFeatureMappings: seq<Mapping>
    const rows: seq<Row>

    constructor(name: string, rows: seq<Row>)
      ensures this.name == name && this.rows == rows && entityFeatureMappings == []
    {
      this.name := name;
      this.rows := rows;
      entityFeatureMappings := [];
    }

    /** add_entity_feature_mapping: one mapping appended at the end, the earlier ones untouched. */
    method AddEntityFeatureMapping(feature: FeatureId, featureKey: string, nameKey: string)
      modifies this
      ensures entityFeatureMappings == old(entityFeatureMappings) + [Mapping(feature, featureKey, nameKey)]
    {
      entityFeatureMappings := entityFeatureMappings + [Mapping(feature, featureKey, nameKey)];
    }
  }

  /** The registered data sources, in registration order. */
  class DataCatalog {
    var dataSources: seq<DataSource>

    constructor()
      ensures dataSources == []
    {
      dataSources := [];
    }

    /** add_data_source (fs.py:165-166). */
    method AddDataSource(source: DataSource)
      modifies this
      ensures dataSources == old(dataSources) + [source]
    {
      dataSources := dataSources + [source];
    }

    /** get_data_source (fs.py:168-171): the first source with this name, or none. */
    method GetDataSource(name: string) returns (found: Option<DataSource>)
      ensures found.None? <==> forall i :: 0 <= i < |dataSources| ==> dataSources[i].name != name
      ensures found.Some? ==>
        exists i :: 0 <= i < |dataSources| && dataSources[i] == found.value && dataSources[i].name == name &&
          forall j :: 0 <= j < i ==> dataSources[j].name != name
    {
      var i := 0;
      while i < |dataSources|
        invariant 0 <= i <= |dataSources|
        invariant forall j :: 0 <= j < i ==> dataSources[j].name != name
      {
        if dataSources[i].name == name {
          return Some(dataSources[i]);
        }
        i := i + 1;
      }
      return None;
    }
  }
}

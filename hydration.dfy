/**
 * Hydration: Session.dump (fs.py:315-333) walks, for every entity type, every
 * data source that feeds it, every row and every name column of that type, and
 * stipulates each mapped column of the row onto the entity the row names.
 *
 * The walk is specified by one function per loop level (MappingsOutcome,
 * RowOutcome, RowsOutcome, SourcesOutcome, DumpOutcome), each threading the
 * cache and stopping at the first failure, whose partial writes stay in the
 * cache as they do when the source raises. What the walk leaves in the cache
 * is stated against the sequence of writes each level performs, in order.
 */
module Hydration {
  import opened Wrappers
  import opened ValueCache
  import opened Features
  import opened DataSources

  /** Why a dump stops: a row lacks a mapped column (KeyError), or value_type rejects a field. */
  datatype Failure = MissingColumn(column: string) | BadValue(feature: FeatureId, raw: Value)

  /** The cache after a stretch of hydration, and the failure that stopped it, if any. */
  datatype Outcome = Outcome(cache: Cache, failure: Option<Failure>)

  /** One stipulation: `value` stored under `key`. */
  datatype Write = Write(key: Key, value: Value)

  /**
   * The slot a mapping fills for the entity named `entityName`: the entity is
   * built from the mapping's feature's own entity class (fs.py:330-331), not
   * from the entity type being dumped.
   */
  function Slot(table: FeatureTable, m: Mapping, entityName: string): (k: Key)
    requires m.feature in table
  {
    KeyOf(EntityRef(table[m.feature].entity, entityName), m.feature)
  }

  /** The field a mapping reads from a row, as the raw value handed to value_type. */
  function Raw(m: Mapping, row: Row): (raw: Value)
    requires m.featureKey in row
  {
    Str(row[m.featureKey])
  }

  // ---------------------------------------------------------------------------
  // The walk, level by level

  /** The mappings of one name column, for one row (fs.py:323-332). */
  function MappingsOutcome(table: FeatureTable, ms: seq<Mapping>, row: Row, entityName: string, c: Cache): (o: Outcome)
    requires Known(table, ms)
  {
    if ms == [] then
      Outcome(c, None)
    else
      var m := ms[0];
      if m.featureKey !in row then
        Outcome(c, Some(MissingColumn(m.featureKey)))
      else
        var coerced := table[m.feature].valueType(Raw(m, row));
        if coerced.None? then
          Outcome(c, Some(BadValue(m.feature, Raw(m, row))))
        else
          MappingsOutcome(table, ms[1..], row, entityName, c[Slot(table, m, entityName) := coerced.value])
  }

  /** One row: every name column in turn, then the mappings keyed on it (fs.py:321-332). */
  function RowOutcome(table: FeatureTable, ms: seq<Mapping>, keys: seq<string>, row: Row, c: Cache): (o: Outcome)
    requires Known(table, ms)
  {
    if keys == [] then
      Outcome(c, None)
    else if keys[0] !in row then
      Outcome(c, Some(MissingColumn(keys[0])))
    else
      var o := MappingsOutcome(table, FeatureMappingsForNameKey(ms, keys[0]), row, row[keys[0]], c);
      if o.failure.Some? then o else RowOutcome(table, ms, keys[1..], row, o.cache)
  }

  /** Every row of one source (fs.py:320-333). */
  function RowsOutcome(table: FeatureTable, ms: seq<Mapping>, keys: seq<string>, rows: seq<Row>, c: Cache): (o: Outcome)
    requires Known(table, ms)
  {
    if rows == [] then
      Outcome(c, None)
    else
      var o := RowOutcome(table, ms, keys, rows[0], c);
      if o.failure.Some? then o else RowsOutcome(table, ms, keys, rows[1..], o.cache)
  }

  /** Every source that feeds entity type `t` (fs.py:318-333). */
  function SourcesOutcome(table: FeatureTable, t: EntityType, sources: seq<DataSource>, c: Cache): (o: Outcome)
    reads sources
    requires forall s :: s in sources ==> Known(table, s.entityFeatureMappings)
  {
    if sources == [] then
      Outcome(c, None)
    else
      var s := sources[0];
      var ms := s.entityFeatureMappings;
      var o := if HasEntity(table, ms, t) then RowsOutcome(table, ms, NameKeyOrder(table, ms, t), s.rows, c)
               else Outcome(c, None);
      if o.failure.Some? then o else SourcesOutcome(table, t, sources[1..], o.cache)
  }

  /** The whole dump: every entity type of the session in turn (fs.py:316-333). */
  function DumpOutcome(table: FeatureTable, types: seq<EntityType>, sources: seq<DataSource>, c: Cache): (o: Outcome)
    reads sources
    requires forall s :: s in sources ==> Known(table, s.entityFeatureMappings)
  {
    if types == [] then
      Outcome(c, None)
    else
      var o := SourcesOutcome(table, types[0], sources, c);
      if o.failure.Some? then o else DumpOutcome(table, types[1..], sources, o.cache)
  }

  // ---------------------------------------------------------------------------
  // When each level cannot fail

  /** Every mapping finds its column in the row and value_type accepts the field. */
  predicate MappingsOk(table: FeatureTable, ms: seq<Mapping>, row: Row)
    requires Known(table, ms)
  {
    forall m :: m in ms ==> m.featureKey in row && table[m.feature].valueType(Raw(m, row)).Some?
  }

  /** Every name column is in the row, and so is every column mapped on it, with an acceptable field. */
  predicate RowOk(table: FeatureTable, ms: seq<Mapping>, keys: seq<string>, row: Row)
    requires Known(table, ms)
  {
    forall k :: k in keys ==> k in row && MappingsOk(table, FeatureMappingsForNameKey(ms, k), row)
  }

  predicate RowsOk(table: FeatureTable, ms: seq<Mapping>, keys: seq<string>, rows: seq<Row>)
    requires Known(table, ms)
  {
    forall row :: row in rows ==> RowOk(table, ms, keys, row)
  }

  /** A source that does not feed `t` is skipped; one that does must have only good rows. */
  predicate SourceOk(table: FeatureTable, t: EntityType, s: DataSource)
    reads s
    requires Known(table, s.entityFeatureMappings)
  {
    var ms := s.entityFeatureMappings;
    HasEntity(table, ms, t) ==> RowsOk(table, ms, NameKeyOrder(table, ms, t), s.rows)
  }

  predicate SourcesOk(table: FeatureTable, t: EntityType, sources: seq<DataSource>)
    reads sources
    requires forall s :: s in sources ==> Known(table, s.entityFeatureMappings)
  {
    forall s :: s in sources ==> SourceOk(table, t, s)
  }

  predicate DumpOk(table: FeatureTable, types: seq<EntityType>, sources: seq<DataSource>)
    reads sources
    requires forall s :: s in sources ==> Known(table, s.entityFeatureMappings)
  {
    forall t :: t in types ==> SourcesOk(table, t, sources)
  }

  /** A reported failure is true of the row: the column is absent, or value_type rejects the field. */
  ghost predicate Truthful(table: FeatureTable, row: Row, failure: Option<Failure>)
  {
    match failure
    case None => true
    case Some(MissingColumn(column)) => column !in row
    case Some(BadValue(f, raw)) => f in table && table[f].valueType(raw).None?
  }

  // ---------------------------------------------------------------------------
  // The stipulations each level performs, in the order it performs them, up
  // to the first failure. None of them depends on what the cache holds.

  function MappingsWrites(table: FeatureTable, ms: seq<Mapping>, row: Row, entityName: string): (ws: seq<Write>)
    requires Known(table, ms)
  {
    if ms == [] then
      []
    else
      var m := ms[0];
      if m.featureKey in row && table[m.feature].valueType(Raw(m, row)).Some? then
        [Write(Slot(table, m, entityName), table[m.feature].valueType(Raw(m, row)).value)]
          + MappingsWrites(table, ms[1..], row, entityName)
      else
        []
  }

  function RowWrites(table: FeatureTable, ms: seq<Mapping>, keys: seq<string>, row: Row): (ws: seq<Write>)
    requires Known(table, ms)
  {
    if keys == [] || keys[0] !in row then
      []
    else
      var keyed := FeatureMappingsForNameKey(ms, keys[0]);
      var here := MappingsWrites(table, keyed, row, row[keys[0]]);
      if MappingsOk(table, keyed, row) then here + RowWrites(table, ms, keys[1..], row) else here
  }

  function RowsWrites(table: FeatureTable, ms: seq<Mapping>, keys: seq<string>, rows: seq<Row>): (ws: seq<Write>)
    requires Known(table, ms)
  {
    if rows == [] then
      []
    else
      var here := RowWrites(table, ms, keys, rows[0]);
      if RowOk(table, ms, keys, rows[0]) then here + RowsWrites(table, ms, keys, rows[1..]) else here
  }

  function SourcesWrites(table: FeatureTable, t: EntityType, sources: seq<DataSource>): (ws: seq<Write>)
    reads sources
    requires forall s :: s in sources ==> Known(table, s.entityFeatureMappings)
  {
    if sources == [] then
      []
    else
      var ms := sources[0].entityFeatureMappings;
      var here := if HasEntity(table, ms, t) then RowsWrites(table, ms, NameKeyOrder(table, ms, t), sources[0].rows)
                  else [];
      if SourceOk(table, t, sources[0]) then here + SourcesWrites(table, t, sources[1..]) else here
  }

  function DumpWrites(table: FeatureTable, types: seq<EntityType>, sources: seq<DataSource>): (ws: seq<Write>)
    reads sources
    requires forall s :: s in sources ==> Known(table, s.entityFeatureMappings)
  {
    if types == [] then
      []
    else
      var here := SourcesWrites(table, types[0], sources);
      if SourcesOk(table, types[0], sources) then here + DumpWrites(table, types[1..], sources) else here
  }

  // ---------------------------------------------------------------------------
  // Carrying out a sequence of writes: the last write to a slot wins

  /** The cache after storing each write of `ws` in turn. */
  function Apply(c: Cache, ws: seq<Write>): (c': Cache)
    decreases |ws|
  {
    if ws == [] then c else Apply(c[ws[0].key := ws[0].value], ws[1..])
  }

  /** The value of the last write to `k` in `ws`, if there is one. */
  function LastWrite(ws: seq<Write>, k: Key): (v: Option<Value>)
  {
    if ws == [] then
      None
    else
      var later := LastWrite(ws[1..], k);
      if later.Some? then later else if ws[0].key == k then Some(ws[0].value) else None
  }

  /** LastWrite picks the write to `k` that no later write to `k` follows, and is none when nothing writes `k`. */
  lemma {:induction false} LastWriteIsLast(ws: seq<Write>, k: Key)
    ensures LastWrite(ws, k).None? <==> forall i :: 0 <= i < |ws| ==> ws[i].key != k
    ensures LastWrite(ws, k).Some? ==>
      exists i :: 0 <= i < |ws| && ws[i] == Write(k, LastWrite(ws, k).value) &&
        forall j :: i < j < |ws| ==> ws[j].key != k
  {
    if ws != [] {
      LastWriteIsLast(ws[1..], k);
      assert forall i :: 1 <= i < |ws| ==> ws[i] == ws[1..][i - 1];
      if LastWrite(ws[1..], k).Some? {
        var i :| 0 <= i < |ws[1..]| && ws[1..][i] == Write(k, LastWrite(ws, k).value) &&
          forall j :: i < j < |ws[1..]| ==> ws[1..][j].key != k;
        assert ws[i + 1] == Write(k, LastWrite(ws, k).value);
      }
    }
  }

  /** Applying writes leaves every slot with its last write, and every slot nothing writes as it was. */
  lemma {:induction false} ApplyLastWrite(c: Cache, ws: seq<Write>, k: Key)
    ensures k in Apply(c, ws) <==> k in c || LastWrite(ws, k).Some?
    ensures LastWrite(ws, k).Some? ==> Apply(c, ws)[k] == LastWrite(ws, k).value
    ensures LastWrite(ws, k).None? && k in c ==> Apply(c, ws)[k] == c[k]
    decreases |ws|
  {
    if ws != [] {
      ApplyLastWrite(c[ws[0].key := ws[0].value], ws[1..], k);
    }
  }

  lemma {:induction false} ApplyConcat(c: Cache, a: seq<Write>, b: seq<Write>)
    ensures Apply(c, a + b) == Apply(Apply(c, a), b)
    decreases |a|
  {
    if a == [] {
      assert a + b == b;
    } else {
      assert (a + b)[1..] == a[1..] + b;
      ApplyConcat(c[a[0].key := a[0].value], a[1..], b);
    }
  }

  /** A later stretch of writes overrides an earlier one slot by slot. */
  lemma {:induction false} LastWriteConcat(a: seq<Write>, b: seq<Write>, k: Key)
    ensures LastWrite(a + b, k) == if LastWrite(b, k).Some? then LastWrite(b, k) else LastWrite(a, k)
  {
    if a == [] {
      assert a + b == b;
    } else {
      assert (a + b)[1..] == a[1..] + b;
      LastWriteConcat(a[1..], b, k);
    }
  }

  // ---------------------------------------------------------------------------
  // The walk succeeds exactly when every row it visits is good, and what it
  // leaves in the cache is its writes carried out in order.

  lemma {:induction false} MappingsOutcomeSound(table: FeatureTable, ms: seq<Mapping>, row: Row, entityName: string, c: Cache)
    requires Known(table, ms)
    ensures var o := MappingsOutcome(table, ms, row, entityName, c);
      && (o.failure.None? <==> MappingsOk(table, ms, row))
      && Truthful(table, row, o.failure)
      && o.cache == Apply(c, MappingsWrites(table, ms, row, entityName))
  {
    if ms != [] {
      var m := ms[0];
      assert forall x :: x in ms ==> x == m || x in ms[1..];
      if m.featureKey in row && table[m.feature].valueType(Raw(m, row)).Some? {
        var w := Write(Slot(table, m, entityName), table[m.feature].valueType(Raw(m, row)).value);
        var rest := MappingsWrites(table, ms[1..], row, entityName);
        MappingsOutcomeSound(table, ms[1..], row, entityName, c[w.key := w.value]);
        assert ([w] + rest)[1..] == rest;
      }
    }
  }

  lemma {:induction false} RowOutcomeSound(table: FeatureTable, ms: seq<Mapping>, keys: seq<string>, row: Row, c: Cache)
    requires Known(table, ms)
    ensures var o := RowOutcome(table, ms, keys, row, c);
      && (o.failure.None? <==> RowOk(table, ms, keys, row))
      && Truthful(table, row, o.failure)
      && o.cache == Apply(c, RowWrites(table, ms, keys, row))
  {
    if keys != [] && keys[0] in row {
      var k := keys[0];
      var keyed := FeatureMappingsForNameKey(ms, k);
      MappingsOutcomeSound(table, keyed, row, row[k], c);
      var o1 := MappingsOutcome(table, keyed, row, row[k], c);
      assert forall x :: x in keys ==> x == k || x in keys[1..];
      if o1.failure.None? {
        RowOutcomeSound(table, ms, keys[1..], row, o1.cache);
        ApplyConcat(c, MappingsWrites(table, keyed, row, row[k]), RowWrites(table, ms, keys[1..], row));
      }
    }
  }

  lemma {:induction false} RowsOutcomeSound(table: FeatureTable, ms: seq<Mapping>, keys: seq<string>, rows: seq<Row>, c: Cache)
    requires Known(table, ms)
    ensures var o := RowsOutcome(table, ms, keys, rows, c);
      && (o.failure.None? <==> RowsOk(table, ms, keys, rows))
      && o.cache == Apply(c, RowsWrites(table, ms, keys, rows))
  {
    if rows != [] {
      RowOutcomeSound(table, ms, keys, rows[0], c);
      var o1 := RowOutcome(table, ms, keys, rows[0], c);
      assert forall x :: x in rows ==> x == rows[0] || x in rows[1..];
      if o1.failure.None? {
        RowsOutcomeSound(table, ms, keys, rows[1..], o1.cache);
        ApplyConcat(c, RowWrites(table, ms, keys, rows[0]), RowsWrites(table, ms, keys, rows[1..]));
      }
    }
  }

  lemma {:induction false} SourcesOutcomeSound(table: FeatureTable, t: EntityType, sources: seq<DataSource>, c: Cache)
    requires forall s :: s in sources ==> Known(table, s.entityFeatureMappings)
    ensures var o := SourcesOutcome(table, t, sources, c);
      && (o.failure.None? <==> SourcesOk(table, t, sources))
      && o.cache == Apply(c, SourcesWrites(table, t, sources))
  {
    if sources != [] {
      var s := sources[0];
      var ms := s.entityFeatureMappings;
      var o1 := if HasEntity(table, ms, t) then RowsOutcome(table, ms, NameKeyOrder(table, ms, t), s.rows, c)
                else Outcome(c, None);
      var here := if HasEntity(table, ms, t) then RowsWrites(table, ms, NameKeyOrder(table, ms, t), s.rows) else [];
      if HasEntity(table, ms, t) {
        RowsOutcomeSound(table, ms, NameKeyOrder(table, ms, t), s.rows, c);
      }
      assert o1.cache == Apply(c, here);
      assert o1.failure.None? <==> SourceOk(table, t, s);
      assert forall x :: x in sources ==> x == s || x in sources[1..];
      if o1.failure.None? {
        SourcesOutcomeSound(table, t, sources[1..], o1.cache);
        ApplyConcat(c, here, SourcesWrites(table, t, sources[1..]));
      }
    }
  }

  /**
   * The dump fails exactly when some row of some source feeding some entity
   * type is bad, and the cache it leaves, whether it succeeds or stops, is its
   * stipulations carried out in walk order: the last write to a slot wins.
   */
  lemma {:induction false} DumpOutcomeSound(table: FeatureTable, types: seq<EntityType>, sources: seq<DataSource>, c: Cache)
    requires forall s :: s in sources ==> Known(table, s.entityFeatureMappings)
    ensures var o := DumpOutcome(table, types, sources, c);
      && (o.failure.None? <==> DumpOk(table, types, sources))
      && o.cache == Apply(c, DumpWrites(table, types, sources))
  {
    if types != [] {
      var t := types[0];
      SourcesOutcomeSound(table, t, sources, c);
      var o1 := SourcesOutcome(table, t, sources, c);
      assert forall x :: x in types ==> x == t || x in types[1..];
      if o1.failure.None? {
        DumpOutcomeSound(table, types[1..], sources, o1.cache);
        ApplyConcat(c, SourcesWrites(table, t, sources), DumpWrites(table, types[1..], sources));
      }
    }
  }

  /** Appending a row after good rows appends that row's stipulations. */
  lemma {:induction false} RowsWritesAppend(table: FeatureTable, ms: seq<Mapping>, keys: seq<string>, rows: seq<Row>, row: Row)
    requires Known(table, ms) && RowsOk(table, ms, keys, rows)
    ensures RowsWrites(table, ms, keys, rows + [row]) == RowsWrites(table, ms, keys, rows) + RowWrites(table, ms, keys, row)
  {
    if rows == [] {
      assert rows + [row] == [row];
      assert [row][1..] == [];
    } else {
      assert (rows + [row])[0] == rows[0];
      assert (rows + [row])[1..] == rows[1..] + [row];
      RowsWritesAppend(table, ms, keys, rows[1..], row);
    }
  }

  /**
   * An entity repeated across rows keeps the later row's field: after good
   * rows, a slot the final row writes ends with that row's last write to it,
   * whatever the earlier rows stored there.
   */
  lemma LaterRowWins(
    table: FeatureTable, ms: seq<Mapping>, keys: seq<string>, rows: seq<Row>, row: Row, c: Cache, k: Key)
    requires Known(table, ms) && RowsOk(table, ms, keys, rows)
    requires LastWrite(RowWrites(table, ms, keys, row), k).Some?
    ensures var o := RowsOutcome(table, ms, keys, rows + [row], c);
      k in o.cache && o.cache[k] == LastWrite(RowWrites(table, ms, keys, row), k).value
  {
    RowsOutcomeSound(table, ms, keys, rows + [row], c);
    RowsWritesAppend(table, ms, keys, rows, row);
    LastWriteConcat(RowsWrites(table, ms, keys, rows), RowWrites(table, ms, keys, row), k);
    ApplyLastWrite(c, RowsWrites(table, ms, keys, rows + [row]), k);
  }

  // ---------------------------------------------------------------------------
  // Which slots a good walk fills, and with what: for every visited row, name
  // column `k` and mapping `m` keyed on it, the entity of m's feature's class
  // named `row[k]` receives `value_type(row[feature_key])` (fs.py:321-332).

  /** The stipulation one mapping performs for the entity named `entityName`. */
  function Stipulation(table: FeatureTable, m: Mapping, row: Row, entityName: string): (w: Write)
    requires m.feature in table && m.featureKey in row && table[m.feature].valueType(Raw(m, row)).Some?
    ensures w.key.entityType == table[m.feature].entity && w.key.feature == m.feature && w.key.entityName == entityName
    ensures table[m.feature].valueType(Raw(m, row)) == Some(w.value)
  {
    Write(Slot(table, m, entityName), table[m.feature].valueType(Raw(m, row)).value)
  }

  lemma {:induction false} MappingsWritesContain(table: FeatureTable, ms: seq<Mapping>, row: Row, entityName: string, m: Mapping)
    requires Known(table, ms) && MappingsOk(table, ms, row) && m in ms
    ensures Stipulation(table, m, row, entityName) in MappingsWrites(table, ms, row, entityName)
  {
    assert m == ms[0] || m in ms[1..];
    if m != ms[0] {
      MappingsWritesContain(table, ms[1..], row, entityName, m);
    }
  }

  lemma {:induction false} RowWritesContain(table: FeatureTable, ms: seq<Mapping>, keys: seq<string>, row: Row, k: string, m: Mapping)
    requires Known(table, ms) && RowOk(table, ms, keys, row)
    requires k in keys && m in FeatureMappingsForNameKey(ms, k)
    ensures k in row && m.featureKey in row && table[m.feature].valueType(Raw(m, row)).Some?
    ensures Stipulation(table, m, row, row[k]) in RowWrites(table, ms, keys, row)
  {
    var here := MappingsWrites(table, FeatureMappingsForNameKey(ms, keys[0]), row, row[keys[0]]);
    assert k == keys[0] || k in keys[1..];
    if k == keys[0] {
      MappingsWritesContain(table, FeatureMappingsForNameKey(ms, k), row, row[k], m);
      assert Stipulation(table, m, row, row[k]) in here;
    } else {
      RowWritesContain(table, ms, keys[1..], row, k, m);
    }
  }

  lemma {:induction false} RowsWritesContain(
    table: FeatureTable, ms: seq<Mapping>, keys: seq<string>, rows: seq<Row>, row: Row, k: string, m: Mapping)
    requires Known(table, ms) && RowsOk(table, ms, keys, rows)
    requires row in rows && k in keys && m in FeatureMappingsForNameKey(ms, k)
    ensures k in row && m.featureKey in row && table[m.feature].valueType(Raw(m, row)).Some?
    ensures Stipulation(table, m, row, row[k]) in RowsWrites(table, ms, keys, rows)
  {
    assert row == rows[0] || row in rows[1..];
    if row == rows[0] {
      RowWritesContain(table, ms, keys, row, k, m);
    } else {
      RowsWritesContain(table, ms, keys, rows[1..], row, k, m);
    }
  }

  lemma {:induction false} SourcesWritesContain(
    table: FeatureTable, t: EntityType, sources: seq<DataSource>, s: DataSource, row: Row, k: string, m: Mapping)
    requires forall x :: x in sources ==> Known(table, x.entityFeatureMappings)
    requires SourcesOk(table, t, sources) && s in sources && row in s.rows
    requires k in EntityNameKeys(table, s.entityFeatureMappings, t)
    requires m in FeatureMappingsForNameKey(s.entityFeatureMappings, k)
    ensures k in row && m.featureKey in row && table[m.feature].valueType(Raw(m, row)).Some?
    ensures Stipulation(table, m, row, row[k]) in SourcesWrites(table, t, sources)
  {
    assert s == sources[0] || s in sources[1..];
    if s == sources[0] {
      var ms := s.entityFeatureMappings;
      assert HasEntity(table, ms, t);
      RowsWritesContain(table, ms, NameKeyOrder(table, ms, t), s.rows, row, k, m);
    } else {
      SourcesWritesContain(table, t, sources[1..], s, row, k, m);
    }
  }

  lemma {:induction false} DumpWritesContain(
    table: FeatureTable, types: seq<EntityType>, sources: seq<DataSource>,
    t: EntityType, s: DataSource, row: Row, k: string, m: Mapping)
    requires forall x :: x in sources ==> Known(table, x.entityFeatureMappings)
    requires DumpOk(table, types, sources) && t in types && s in sources && row in s.rows
    requires k in EntityNameKeys(table, s.entityFeatureMappings, t)
    requires m in FeatureMappingsForNameKey(s.entityFeatureMappings, k)
    ensures k in row && m.featureKey in row && table[m.feature].valueType(Raw(m, row)).Some?
    ensures Stipulation(table, m, row, row[k]) in DumpWrites(table, types, sources)
  {
    assert t == types[0] || t in types[1..];
    if t == types[0] {
      SourcesWritesContain(table, t, sources, s, row, k, m);
    } else {
      DumpWritesContain(table, types[1..], sources, t, s, row, k, m);
    }
  }

  // ---------------------------------------------------------------------------
  // Conversely, every write of the walk is some visited mapping's stipulation,
  // so a slot no visited row's mapping targets is left alone.

  /** `w` is what mapping `m` stipulates from `row` for the entity named `entityName`. */
  ghost predicate Stipulates(table: FeatureTable, m: Mapping, row: Row, entityName: string, w: Write)
  {
    && m.feature in table && m.featureKey in row && table[m.feature].valueType(Raw(m, row)).Some?
    && w == Stipulation(table, m, row, entityName)
  }

  lemma {:induction false} MappingsWritesFrom(table: FeatureTable, ms: seq<Mapping>, row: Row, entityName: string, w: Write)
    requires Known(table, ms) && w in MappingsWrites(table, ms, row, entityName)
    ensures exists m :: m in ms && Stipulates(table, m, row, entityName, w)
  {
    var m := ms[0];
    var rest := MappingsWrites(table, ms[1..], row, entityName);
    if w != Stipulation(table, m, row, entityName) {
      assert w in rest;
      MappingsWritesFrom(table, ms[1..], row, entityName, w);
      var m' :| m' in ms[1..] && Stipulates(table, m', row, entityName, w);
      assert m' in ms;
    } else {
      assert Stipulates(table, m, row, entityName, w);
    }
  }

  lemma {:induction false} RowWritesFrom(table: FeatureTable, ms: seq<Mapping>, keys: seq<string>, row: Row, w: Write)
    requires Known(table, ms) && w in RowWrites(table, ms, keys, row)
    ensures exists k, m :: k in keys && k in row && m in FeatureMappingsForNameKey(ms, k) &&
              Stipulates(table, m, row, row[k], w)
  {
    var k := keys[0];
    var keyed := FeatureMappingsForNameKey(ms, k);
    if w in MappingsWrites(table, keyed, row, row[k]) {
      MappingsWritesFrom(table, keyed, row, row[k], w);
      var m :| m in keyed && Stipulates(table, m, row, row[k], w);
      assert k in keys;
    } else {
      RowWritesFrom(table, ms, keys[1..], row, w);
      var k', m :| k' in keys[1..] && k' in row && m in FeatureMappingsForNameKey(ms, k') &&
        Stipulates(table, m, row, row[k'], w);
      assert k' in keys;
    }
  }

  lemma {:induction false} RowsWritesFrom(table: FeatureTable, ms: seq<Mapping>, keys: seq<string>, rows: seq<Row>, w: Write)
    requires Known(table, ms) && w in RowsWrites(table, ms, keys, rows)
    ensures exists row, k, m :: row in rows && k in keys && k in row && m in FeatureMappingsForNameKey(ms, k) &&
              Stipulates(table, m, row, row[k], w)
  {
    if w in RowWrites(table, ms, keys, rows[0]) {
      RowWritesFrom(table, ms, keys, rows[0], w);
      assert rows[0] in rows;
    } else {
      RowsWritesFrom(table, ms, keys, rows[1..], w);
      var row, k, m :| row in rows[1..] && k in keys && k in row && m in FeatureMappingsForNameKey(ms, k) &&
        Stipulates(table, m, row, row[k], w);
      assert row in rows;
    }
  }

  lemma {:induction false} SourcesWritesFrom(table: FeatureTable, t: EntityType, sources: seq<DataSource>, w: Write)
    requires forall x :: x in sources ==> Known(table, x.entityFeatureMappings)
    requires w in SourcesWrites(table, t, sources)
    ensures exists s, row, k, m :: s in sources && row in s.rows && k in EntityNameKeys(table, s.entityFeatureMappings, t) &&
              k in row && m in FeatureMappingsForNameKey(s.entityFeatureMappings, k) && Stipulates(table, m, row, row[k], w)
  {
    var s := sources[0];
    var ms := s.entityFeatureMappings;
    if HasEntity(table, ms, t) && w in RowsWrites(table, ms, NameKeyOrder(table, ms, t), s.rows) {
      RowsWritesFrom(table, ms, NameKeyOrder(table, ms, t), s.rows, w);
      var row, k, m :| row in s.rows && k in NameKeyOrder(table, ms, t) && k in row &&
        m in FeatureMappingsForNameKey(ms, k) && Stipulates(table, m, row, row[k], w);
      assert s in sources && k in EntityNameKeys(table, ms, t);
    } else {
      SourcesWritesFrom(table, t, sources[1..], w);
      var s', row, k, m :| s' in sources[1..] && row in s'.rows &&
        k in EntityNameKeys(table, s'.entityFeatureMappings, t) && k in row &&
        m in FeatureMappingsForNameKey(s'.entityFeatureMappings, k) && Stipulates(table, m, row, row[k], w);
      assert s' in sources;
    }
  }

  /**
   * Every write of the dump, finished or stopped, is the stipulation of some
   * mapping `m` keyed on a name column `k` of a visited entity type `t`, in a
   * row of a source that feeds `t`.
   */
  lemma {:induction false} DumpWritesFrom(table: FeatureTable, types: seq<EntityType>, sources: seq<DataSource>, w: Write)
    requires forall x :: x in sources ==> Known(table, x.entityFeatureMappings)
    requires w in DumpWrites(table, types, sources)
    ensures exists t, s, row, k, m :: t in types && s in sources && row in s.rows &&
              k in EntityNameKeys(table, s.entityFeatureMappings, t) && k in row &&
              m in FeatureMappingsForNameKey(s.entityFeatureMappings, k) && Stipulates(table, m, row, row[k], w)
  {
    var t := types[0];
    if w in SourcesWrites(table, t, sources) {
      SourcesWritesFrom(table, t, sources, w);
      assert t in types;
    } else {
      DumpWritesFrom(table, types[1..], sources, w);
      var t', s, row, k, m :| t' in types[1..] && s in sources && row in s.rows &&
        k in EntityNameKeys(table, s.entityFeatureMappings, t') && k in row &&
        m in FeatureMappingsForNameKey(s.entityFeatureMappings, k) && Stipulates(table, m, row, row[k], w);
      assert t' in types;
    }
  }

  /**
   * The dump changes nothing else: a slot that no mapping of any visited row
   * targets keeps its old presence and value, whether the dump finishes or
   * stops.
   */
  lemma DumpLeavesOtherSlots(table: FeatureTable, types: seq<EntityType>, sources: seq<DataSource>, c: Cache, key: Key)
    requires forall x :: x in sources ==> Known(table, x.entityFeatureMappings)
    requires forall t, s, row, k, m ::
      t in types && s in sources && row in s.rows && k in EntityNameKeys(table, s.entityFeatureMappings, t) &&
      k in row && m in FeatureMappingsForNameKey(s.entityFeatureMappings, k)
      ==> KeyOf(EntityRef(table[m.feature].entity, row[k]), m.feature) != key
    ensures var c' := DumpOutcome(table, types, sources, c).cache;
      (key in c' <==> key in c) && (key in c ==> c'[key] == c[key])
  {
    var ws := DumpWrites(table, types, sources);
    DumpOutcomeSound(table, types, sources, c);
    LastWriteIsLast(ws, key);
    if LastWrite(ws, key).Some? {
      var i :| 0 <= i < |ws| && ws[i] == Write(key, LastWrite(ws, key).value) &&
        forall j :: i < j < |ws| ==> ws[j].key != key;
      DumpWritesFrom(table, types, sources, ws[i]);
      assert false;
    }
    ApplyLastWrite(c, ws, key);
  }

  /** A write that no later write to its slot follows is the slot's last write. */
  lemma LastWriteAt(ws: seq<Write>, i: nat)
    requires i < |ws| && forall j :: i < j < |ws| ==> ws[j].key != ws[i].key
    ensures LastWrite(ws, ws[i].key) == Some(ws[i].value)
  {
    LastWriteIsLast(ws, ws[i].key);
    var i' :| 0 <= i' < |ws| && ws[i'] == Write(ws[i].key, LastWrite(ws, ws[i].key).value) &&
      forall j :: i' < j < |ws| ==> ws[j].key != ws[i].key;
    assert i' == i;
  }

  /**
   * What a successful dump does for each mapping of each visited row: the row
   * has the name column and the mapped column, value_type accepts the field,
   * and the slot of the entity the row names is filled. It holds the coerced
   * field when no later stipulation targets that slot, and in any case when
   * every stipulation to that slot agrees.
   */
  lemma DumpFillsSlot(
    table: FeatureTable, types: seq<EntityType>, sources: seq<DataSource>, c: Cache,
    t: EntityType, s: DataSource, row: Row, k: string, m: Mapping)
    requires forall x :: x in sources ==> Known(table, x.entityFeatureMappings)
    requires DumpOutcome(table, types, sources, c).failure.None?
    requires t in types && s in sources && row in s.rows
    requires k in EntityNameKeys(table, s.entityFeatureMappings, t)
    requires m in FeatureMappingsForNameKey(s.entityFeatureMappings, k)
    ensures k in row && m.featureKey in row && table[m.feature].valueType(Raw(m, row)).Some?
    ensures var ws := DumpWrites(table, types, sources);
      var slot := KeyOf(EntityRef(table[m.feature].entity, row[k]), m.feature);
      var v := table[m.feature].valueType(Raw(m, row)).value;
      var c' := DumpOutcome(table, types, sources, c).cache;
      && Write(slot, v) in ws
      && slot in c'
      && (forall i :: 0 <= i < |ws| && ws[i] == Write(slot, v) && (forall j :: i < j < |ws| ==> ws[j].key != slot)
            ==> c'[slot] == v)
      && ((forall j :: 0 <= j < |ws| && ws[j].key == slot ==> ws[j].value == v) ==> c'[slot] == v)
  {
    DumpOutcomeSound(table, types, sources, c);
    DumpWritesContain(table, types, sources, t, s, row, k, m);
    var ws := DumpWrites(table, types, sources);
    var slot := KeyOf(EntityRef(table[m.feature].entity, row[k]), m.feature);
    var v := table[m.feature].valueType(Raw(m, row)).value;
    assert Write(slot, v) == Stipulation(table, m, row, row[k]);
    LastWriteIsLast(ws, slot);
    ApplyLastWrite(c, ws, slot);
    forall i | 0 <= i < |ws| && ws[i] == Write(slot, v) && (forall j :: i < j < |ws| ==> ws[j].key != slot)
      ensures Apply(c, ws)[slot] == v
    {
      LastWriteAt(ws, i);
    }
  }

  /**
   * A row that lacks a name column of the dumped type, or a column mapped on
   * one, stops the dump with an error: it is never skipped (fs.py:322, 328).
   */
  lemma MissingColumnFailsDump(
    table: FeatureTable, types: seq<EntityType>, sources: seq<DataSource>, c: Cache,
    t: EntityType, s: DataSource, row: Row, k: string, m: Mapping)
    requires forall x :: x in sources ==> Known(table, x.entityFeatureMappings)
    requires t in types && s in sources && row in s.rows
    requires k in EntityNameKeys(table, s.entityFeatureMappings, t)
    requires m in FeatureMappingsForNameKey(s.entityFeatureMappings, k)
    requires k !in row || m.featureKey !in row
    ensures DumpOutcome(table, types, sources, c).failure.Some?
  {
    DumpOutcomeSound(table, types, sources, c);
    var ms := s.entityFeatureMappings;
    assert k in NameKeyOrder(table, ms, t);
    assert !RowOk(table, ms, NameKeyOrder(table, ms, t), row);
    assert !SourceOk(table, t, s);
    assert !SourcesOk(table, t, sources);
  }

  /**
   * After a dump, whether it finished or stopped, a feature whose slot the
   * dump wrote resolves to the value last written there, with no calculate
   * call and no change to the cache: a hydrated entity reads back its row's
   * coerced field.
   */
  lemma HydratedValueResolves(
    table: FeatureTable, rank: map<FeatureId, nat>, types: seq<EntityType>, sources: seq<DataSource>, c: Cache,
    e: EntityRef, f: FeatureId)
    requires forall s :: s in sources ==> Known(table, s.entityFeatureMappings)
    requires Ranked(table, rank) && f in table
    requires LastWrite(DumpWrites(table, types, sources), KeyOf(e, f)).Some?
    ensures var c' := DumpOutcome(table, types, sources, c).cache;
      Resolve(table, rank, e, f, c') ==
        Resolution(LastWrite(DumpWrites(table, types, sources), KeyOf(e, f)).value, c', [])
  {
    DumpOutcomeSound(table, types, sources, c);
    ApplyLastWrite(c, DumpWrites(table, types, sources), KeyOf(e, f));
  }

  /**
   * One working session: the registered features, entity types and data
   * sources (given at construction, where the source discovers them by
   * reflection), and the cache every entity it builds shares.
   */
  class Session {
    const features: FeatureTable
    const entities: seq<EntityType>
    const dataSources: seq<DataSource>
    const cache: FeatureValueCache

    constructor(features: FeatureTable, entities: seq<EntityType>, dataSources: seq<DataSource>)
      ensures this.features == features && this.entities == entities && this.dataSources == dataSources
      ensures fresh(cache) && cache.entries == map[]
    {
      this.features := features;
      this.entities := entities;
      this.dataSources := dataSources;
      cache := new FeatureValueCache();
    }

    /** dump: hydrate every entity type from every source that feeds it. */
    method Dump() returns (failure: Option<Failure>)
      requires forall s :: s in dataSources ==> Known(features, s.entityFeatureMappings)
      modifies cache
      ensures Outcome(cache.entries, failure) == DumpOutcome(features, entities, dataSources, old(cache.entries))
    {
      ghost var c0 := cache.entries;
      var i := 0;
      while i < |entities|
        invariant 0 <= i <= |entities|
        invariant DumpOutcome(features, entities[i..], dataSources, cache.entries)
               == DumpOutcome(features, entities, dataSources, c0)
      {
        var entityType := entities[i];
        ghost var ci := cache.entries;
        assert entities[i..][0] == entityType && entities[i..][1..] == entities[i + 1..];
        var j := 0;
        while j < |dataSources|
          invariant 0 <= j <= |dataSources|
          invariant SourcesOutcome(features, entityType, dataSources[j..], cache.entries)
                 == SourcesOutcome(features, entityType, dataSources, ci)
        {
          var source := dataSources[j];
          var mappings := source.entityFeatureMappings;
          assert dataSources[j..][0] == source && dataSources[j..][1..] == dataSources[j + 1..];
          if HasEntity(features, mappings, entityType) {
            failure := HydrateSource(source, NameKeyOrder(features, mappings, entityType));
            if failure.Some? {
              return;
            }
          }
          j := j + 1;
        }
        i := i + 1;
      }
      failure := None;
    }

    /** The rows of one source that feeds the dumped type, visiting `keys` in each row. */
    method HydrateSource(source: DataSource, keys: seq<string>) returns (failure: Option<Failure>)
      requires Known(features, source.entityFeatureMappings)
      modifies cache
      ensures Outcome(cache.entries, failure)
           == RowsOutcome(features, source.entityFeatureMappings, keys, source.rows, old(cache.entries))
    {
      var mappings := source.entityFeatureMappings;
      var rows := source.rows;
      ghost var c0 := cache.entries;
      var r := 0;
      while r < |rows|
        invariant 0 <= r <= |rows|
        invariant RowsOutcome(features, mappings, keys, rows[r..], cache.entries)
               == RowsOutcome(features, mappings, keys, rows, c0)
      {
        assert rows[r..][0] == rows[r] && rows[r..][1..] == rows[r + 1..];
        failure := HydrateRow(mappings, keys, rows[r]);
        if failure.Some? {
          return;
        }
        r := r + 1;
      }
      failure := None;
    }

    /**
     * One row: for each name column read the entity's name, then for every
     * mapping keyed on that column build the entity from the feature's own
     * class and stipulate the mapped field onto it.
     */
    method HydrateRow(mappings: seq<Mapping>, keys: seq<string>, row: Row) returns (failure: Option<Failure>)
      requires Known(features, mappings)
      modifies cache
      ensures Outcome(cache.entries, failure) == RowOutcome(features, mappings, keys, row, old(cache.entries))
    {
      ghost var c0 := cache.entries;
      var i := 0;
      while i < |keys|
        invariant 0 <= i <= |keys|
        invariant RowOutcome(features, mappings, keys[i..], row, cache.entries)
               == RowOutcome(features, mappings, keys, row, c0)
      {
        var nameKey := keys[i];
        assert keys[i..][0] == nameKey && keys[i..][1..] == keys[i + 1..];
        if nameKey !in row {
          return Some(MissingColumn(nameKey));
        }
        var entityName := row[nameKey];
        var keyed := FeatureMappingsForNameKey(mappings, nameKey);
        ghost var ck := cache.entries;
        var j := 0;
        while j < |keyed|
          invariant 0 <= j <= |keyed|
          invariant RowOutcome(features, mappings, keys[i..], row, ck) == RowOutcome(features, mappings, keys, row, c0)
          invariant MappingsOutcome(features, keyed[j..], row, entityName, cache.entries)
                 == MappingsOutcome(features, keyed, row, entityName, ck)
        {
          var m := keyed[j];
          assert keyed[j..][0] == m && keyed[j..][1..] == keyed[j + 1..];
          if m.featureKey !in row {
            return Some(MissingColumn(m.featureKey));
          }
          var featureValue := row[m.featureKey];
          var entity := new Entity(features[m.feature].entity, entityName, cache);
          var ok := entity.StipulateFeatureValue(features, m.feature, Str(featureValue));
          if !ok {
            return Some(BadValue(m.feature, Str(featureValue)));
          }
          j := j + 1;
        }
        i := i + 1;
      }
      failure := None;
    }
  }
}

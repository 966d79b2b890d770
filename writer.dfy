/**
 * `SimpleHDF5TableWriter` (with the registries of its base class
 * `TableWriter`): a writer that keeps, per table name, a list of column
 * exclusion patterns and a registry of column transforms, builds a table's
 * schema from the first container written to it, and appends one row per
 * write.  The HDF5 file is replaced by the in-memory map `tables`.
 */
module TableWriter {
  import opened Containers
  import opened TableSchema
  import opened TableRows

  /** An HDF5 table: its title, its columns, its header attributes and its rows. */
  datatype Table = Table(title: string, columns: seq<Column>, attrs: map<string, string>, rows: seq<Row>)

  class SimpleHdf5TableWriter {
    /** Name of the group holding the tables (created under "/" in the file). */
    const groupName: string
    /** `ctapipe.__version__`, written to every table header. */
    const version: string
    /** astropy's `Quantity.to(unit).value`, used by unit-converting transforms. */
    const convert: UnitConversion

    /** `_exclusions`: table name to its exclusion patterns, in registration order. */
    var exclusions: map<string, seq<Pattern>>
    /** `_transforms`: table name to column name to transform. */
    var transforms: map<string, map<string, Transform>>
    /** `_schemas`: table name to the schema built for it. */
    var schemas: map<string, seq<Column>>
    /** `_tables`: table name to the table created in the file. */
    var tables: map<string, Table>

    /** Every table with a schema has been created in the file, with that schema. */
    ghost predicate Valid()
      reads this
    {
      && schemas.Keys == tables.Keys
      && forall t :: t in tables ==> tables[t].columns == schemas[t]
    }

    /** `self._exclusions[t]` of the defaultdict: no entry reads as the empty list. */
    function PatternsOf(t: string): seq<Pattern>
      reads this
    {
      if t in exclusions then exclusions[t] else []
    }

    /** `self._transforms[t]` of the defaultdict: no entry reads as the empty dictionary. */
    function TransformsOf(t: string): map<string, Transform>
      reads this
    {
      if t in transforms then transforms[t] else map[]
    }

    /** The rows written to table `t` so far. */
    ghost function RowsOf(t: string): seq<Row>
      reads this
    {
      if t in tables then tables[t].rows else []
    }

    constructor (groupName: string, version: string, convert: UnitConversion)
      ensures Valid()
      ensures this.groupName == groupName && this.version == version && this.convert == convert
      ensures exclusions == map[] && transforms == map[] && schemas == map[] && tables == map[]
    {
      this.groupName := groupName;
      this.version := version;
      this.convert := convert;
      exclusions := map[];
      transforms := map[];
      schemas := map[];
      tables := map[];
    }

    /** Excludes the columns of table `tableName` that `pattern` matches. */
    method Exclude(tableName: string, pattern: Pattern)
      modifies this`exclusions
      ensures PatternsOf(tableName) == old(PatternsOf(tableName)) + [pattern]
      ensures forall t :: t != tableName ==> PatternsOf(t) == old(PatternsOf(t))
    {
      exclusions := exclusions[tableName := PatternsOf(tableName) + [pattern]];
    }

    /** Whether some pattern registered for the table matches the column name. */
    method IsColumnExcluded(tableName: string, colName: string) returns (excluded: bool)
      ensures excluded <==> Excluded(PatternsOf(tableName), colName)
      ensures PatternsOf(tableName) == [] ==> !excluded
    {
      var patterns := PatternsOf(tableName);
      var i := 0;
      while i < |patterns|
        invariant 0 <= i <= |patterns|
        invariant forall j :: 0 <= j < i ==> !Matches(patterns[j], colName)
      {
        if Matches(patterns[i], colName) {
          return true;
        }
        i := i + 1;
      }
      return false;
    }

    /** Registers `transform` for column `colName` of table `tableName`, replacing any earlier one. */
    method AddColumnTransform(tableName: string, colName: string, transform: Transform)
      modifies this`transforms
      ensures TransformsOf(tableName) == old(TransformsOf(tableName))[colName := transform]
      ensures forall t :: t != tableName ==> TransformsOf(t) == old(TransformsOf(t))
    {
      transforms := transforms[tableName := TransformsOf(tableName)[colName := transform]];
    }

    /**
     * The column for an item's (transformed) value: a typed column with the
     * array's shape for an ndarray, a scalar column for a mapped type name,
     * none for any other type; an unmapped array dtype is an error.
     */
    method ColumnOf(name: string, value: Value, columns: seq<Column>, ghost acc: SchemaBuild)
      returns (columns': seq<Column>, failure: Option<WriteError>)
      requires acc.columns == columns && acc.failure.None?
      ensures AddColumn(acc, name, value) == acc.(columns := columns', failure := failure)
    {
      columns', failure := columns, None;
      if value.NdArray? {
        if value.dtype !in PytablesTypeMap {
          failure := Some(UnknownDtype(name, value.dtype));
          return;
        }
        columns' := columns + [Column(name, PytablesTypeMap[value.dtype], value.shape)];
      } else if TypeName(value) in PytablesTypeMap {
        columns' := columns + [Column(name, PytablesTypeMap[TypeName(value)], [])];
      }
    }

    /**
     * One iteration of the schema loop: the item's column, unit entry and
     * transform, or the error the item raises; an excluded item is skipped.
     */
    method AddItem(tableName: string, f: Field, columns: seq<Column>, meta: map<string, string>,
                   ghost added: map<string, Transform>, ghost base: map<string, Transform>)
      returns (columns': seq<Column>, meta': map<string, string>, failure: Option<WriteError>, ghost added': map<string, Transform>)
      requires TransformsOf(tableName) == base + added
      modifies this`transforms
      ensures Step(PatternsOf(tableName), convert, SchemaBuild(columns, added, meta, None), f)
              == SchemaBuild(columns', added', meta', failure)
      ensures TransformsOf(tableName) == base + added'
      ensures forall t :: t != tableName ==> TransformsOf(t) == old(TransformsOf(t))
    {
      columns', meta', failure, added' := columns, meta, None, added;
      ghost var acc := SchemaBuild(columns, added, meta, None);
      ghost var patterns := PatternsOf(tableName);
      var excluded := IsColumnExcluded(tableName, f.name);
      if excluded {
        return;
      }
      var value := f.value;
      if value.Quantity? {
        var tr := QuantityTransform(f);
        meta' := meta[UnitKey(f.name) := UnitLabel(f)];
        var stripped := Apply(tr, value, convert);
        if stripped.None? {
          return columns, meta, Some(TransformFailed(f.name)), added;
        }
        value := stripped.value;
        AddColumnTransform(tableName, f.name, tr);
        added' := added[f.name := tr];
        assert (base + added)[f.name := tr] == base + added';
      }
      assert Step(patterns, convert, acc, f) == AddColumn(SchemaBuild(columns, added', meta', None), f.name, value);
      columns', failure := ColumnOf(f.name, value, columns, SchemaBuild(columns, added', meta', None));
    }

    /**
     * Builds the schema of table `tableName` from the container's items,
     * registering a transform for each quantity item, and returns the
     * generated header; the schema is recorded only when construction
     * succeeds, but the transforms registered before an error stay.
     */
    method CreateHdf5TableSchema(tableName: string, container: Container) returns (r: Result<map<string, string>>)
      modifies this`transforms, this`schemas
      ensures var b := BuildSchema(PatternsOf(tableName), convert, container.fields);
        && TransformsOf(tableName) == old(TransformsOf(tableName)) + b.transforms
        && (b.failure.None? ==> r == Ok(GeneratedMeta(b, version)) && schemas == old(schemas)[tableName := b.columns])
        && (b.failure.Some? ==> r == Err(b.failure.value) && schemas == old(schemas))
      ensures forall t :: t != tableName ==> TransformsOf(t) == old(TransformsOf(t))
    {
      var fields := container.fields;
      ghost var patterns := PatternsOf(tableName);
      var columns: seq<Column> := [];
      var meta: map<string, string> := map[];
      ghost var added: map<string, Transform> := map[];
      var i := 0;
      while i < |fields|
        invariant 0 <= i <= |fields|
        invariant BuildSchema(patterns, convert, fields[..i]) == SchemaBuild(columns, added, meta, None)
        invariant TransformsOf(tableName) == old(TransformsOf(tableName)) + added
        invariant forall t :: t != tableName ==> TransformsOf(t) == old(TransformsOf(t))
        invariant PatternsOf(tableName) == patterns
        invariant schemas == old(schemas)
      {
        BuildSchemaSnoc(patterns, convert, fields, i);
        var failure;
        columns, meta, failure, added := AddItem(tableName, fields[i], columns, meta, added, old(TransformsOf(tableName)));
        if failure.Some? {
          FailedBuildIsFinal(patterns, convert, fields, i + 1);
          return Err(failure.value);
        }
        i := i + 1;
      }
      assert fields[..i] == fields;
      schemas := schemas[tableName := columns];
      meta := meta[VersionKey := version];
      return Ok(meta);
    }

    /** `for key, val in meta.items(): table.attrs[key] = val` on a fresh table. */
    method CopyAttrs(meta: map<string, string>) returns (attrs: map<string, string>)
      ensures attrs.Keys == meta.Keys
      ensures forall k :: k in meta ==> attrs[k] == meta[k]
    {
      attrs := map[];
      var keys := meta.Keys;
      while keys != {}
        invariant keys <= meta.Keys
        invariant attrs.Keys == meta.Keys - keys
        invariant forall k :: k in attrs ==> attrs[k] == meta[k]
        decreases keys
      {
        var key :| key in keys;
        attrs := attrs[key := meta[key]];
        keys := keys - {key};
      }
    }

    /**
     * Sets up a table on its first write: builds the schema, merges the
     * container's metadata over the generated header, creates the table and
     * copies the header into its attributes.
     */
    method SetupNewTable(tableName: string, container: Container) returns (r: Outcome)
      requires Valid() && tableName !in schemas
      modifies this`transforms, this`schemas, this`tables
      ensures Valid()
      ensures var b := BuildSchema(PatternsOf(tableName), convert, container.fields);
        && TransformsOf(tableName) == old(TransformsOf(tableName)) + b.transforms
        && (b.failure.None? ==>
              && r == Pass
              && tables == old(tables)[tableName := Table(container.className, b.columns,
                                                          TableAttrs(GeneratedMeta(b, version), container.meta), [])])
        && (b.failure.Some? ==> r == Fail(b.failure.value) && tables == old(tables))
      ensures forall t :: t != tableName ==> TransformsOf(t) == old(TransformsOf(t))
    {
      var generated := CreateHdf5TableSchema(tableName, container);
      if generated.Err? {
        return Fail(generated.error);
      }
      var meta := generated.value + container.meta;
      var attrs := CopyAttrs(meta);
      assert attrs == meta;
      tables := tables[tableName := Table(container.className, schemas[tableName], attrs, [])];
      return Pass;
    }

    /**
     * The row for a container: each column's item looked up by name and
     * passed through the column's transform, stopping at the first error.
     */
    method FillRow(columns: seq<Column>, trs: map<string, Transform>, fields: seq<Field>) returns (r: Result<Row>)
      ensures r == RowFor(columns, trs, fields, convert)
    {
      var row: Row := map[];
      var i := 0;
      while i < |columns|
        invariant 0 <= i <= |columns|
        invariant RowFor(columns[..i], trs, fields, convert) == Ok(row)
      {
        var colName := columns[i].name;
        assert columns[..i + 1][..i] == columns[..i];
        var value := Lookup(fields, colName);
        if value.None? {
          RowFailureIsFinal(columns, trs, fields, convert, i + 1);
          return Err(MissingItem(colName));
        }
        var v := value.value;
        if colName in trs {
          var transformed := Apply(trs[colName], v, convert);
          if transformed.None? {
            RowFailureIsFinal(columns, trs, fields, convert, i + 1);
            return Err(TransformFailed(colName));
          }
          v := transformed.value;
        }
        assert Cell(colName, trs, fields, convert) == Ok(v);
        RowForExtend(columns, trs, fields, convert, i, row, v);
        row := row[colName := v];
        i := i + 1;
      }
      assert columns[..i] == columns;
      return Ok(row);
    }

    /** Appends the container's row to an existing table; a failed row leaves the table as it was. */
    method AppendRow(tableName: string, container: Container) returns (r: Outcome)
      requires Valid() && tableName in tables
      modifies this`tables
      ensures Valid()
      ensures var table := old(tables[tableName]);
        var row := RowFor(table.columns, TransformsOf(tableName), container.fields, convert);
        && (row.Ok? ==> r == Pass && tables == old(tables)[tableName := table.(rows := table.rows + [row.value])])
        && (row.Err? ==> r == Fail(row.error) && tables == old(tables))
    {
      var table := tables[tableName];
      var row := FillRow(table.columns, TransformsOf(tableName), container.fields);
      if row.Err? {
        return Fail(row.error);
      }
      tables := tables[tableName := table.(rows := table.rows + [row.value])];
      return Pass;
    }

    /**
     * Writes a container to a table: the first write to a table name sets
     * the table up, every write appends one row.
     */
    method Write(tableName: string, container: Container) returns (r: Outcome)
      requires Valid()
      modifies this`transforms, this`schemas, this`tables
      ensures Valid()
      // a table is set up only on its first write and never rebuilt
      ensures old(tableName in schemas) ==>
        && transforms == old(transforms) && schemas == old(schemas)
        && tables[tableName].attrs == old(tables[tableName].attrs)
        && tables[tableName].title == old(tables[tableName].title)
      ensures old(tableName !in schemas) ==>
        var b := BuildSchema(PatternsOf(tableName), convert, container.fields);
        && TransformsOf(tableName) == old(TransformsOf(tableName)) + b.transforms
        && (tableName in schemas <==> b.failure.None?)
        && (b.failure.None? ==>
              && schemas[tableName] == b.columns
              && tables[tableName].title == container.className
              && tables[tableName].attrs == TableAttrs(GeneratedMeta(b, version), container.meta))
      // on success exactly one row is appended, holding what RowFor gives
      ensures r == Pass <==>
        tableName in tables && RowFor(schemas[tableName], TransformsOf(tableName), container.fields, convert).Ok?
      ensures r == Pass ==>
        RowsOf(tableName) == old(RowsOf(tableName)) +
          [RowFor(schemas[tableName], TransformsOf(tableName), container.fields, convert).value]
      ensures r != Pass ==> RowsOf(tableName) == old(RowsOf(tableName))
      // no other table is touched
      ensures forall t :: t != tableName ==>
        && TransformsOf(t) == old(TransformsOf(t))
        && (t in tables <==> t in old(tables))
        && (t in tables ==> tables[t] == old(tables[t]))
    {
      if tableName !in schemas {
        r := SetupNewTable(tableName, container);
        if r != Pass {
          return;
        }
      }
      r := AppendRow(tableName, container);
    }
  }
}

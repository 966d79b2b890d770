/**
 * How `SimpleHDF5TableWriter` derives a table schema from the first
 * container written to a table: which items become columns, which get a
 * unit-stripping transform, and which metadata goes into the table header.
 * The writer's loop (TableWriter.SimpleHdf5TableWriter.CreateHdf5TableSchema)
 * is proved to compute BuildSchema; the lemmas here say what BuildSchema means.
 */
module TableSchema {
  import opened Containers

  /** The PyTables column classes the writer uses. */
  datatype ColType = Float64Col | Float32Col | IntCol | BoolCol

  /** PYTABLES_TYPE_MAP: Python type name or numpy dtype name to column class. */
  const PytablesTypeMap: map<string, ColType> :=
    map["float" := Float64Col, "float64" := Float64Col, "float32" := Float32Col,
        "int" := IntCol, "bool" := BoolCol]

  /** A schema column: its name, its column class and its shape (`[]` for a scalar). */
  datatype Column = Column(name: string, colType: ColType, shape: seq<nat>)

  /** An exclusion pattern. */
  type Pattern = string

  /**
   * `re.compile(pattern).match(name)`.  Python's `match` is anchored at the
   * start of the name only, so a pattern without metacharacters matches
   * exactly the names it is a prefix of; that literal reading is the one
   * modelled.
   */
  predicate Matches(pattern: Pattern, name: string)
  {
    pattern <= name
  }

  /** Some pattern of the list matches the name. */
  predicate Excluded(patterns: seq<Pattern>, name: string)
  {
    exists i :: 0 <= i < |patterns| && Matches(patterns[i], name)
  }

  /** Header key holding the package version. */
  const VersionKey: string := "CTAPIPE_VERSION"

  /** Header key holding the unit of a quantity column: `'{}_UNIT'.format(name)`. */
  function UnitKey(name: string): string
  {
    name + "_UNIT"
  }

  lemma UnitKeyInjective(a: string, b: string)
    requires UnitKey(a) == UnitKey(b)
    ensures a == b
  {
    assert |a| == |b|;
    assert a == UnitKey(a)[..|a|];
    assert b == UnitKey(b)[..|b|];
  }

  lemma UnitKeyIsNotVersionKey(name: string)
    ensures UnitKey(name) != VersionKey
  {
    var u := UnitKey(name);
    assert u[|u| - 1] == 'T';
  }

  /** The transform registered for a quantity item: convert to the declared unit if there is one. */
  function QuantityTransform(f: Field): Transform
  {
    if f.unit.Some? then ConvertAndStripUnit(f.unit.value) else StripUnit
  }

  /** The unit written to the header for a quantity item. */
  function UnitLabel(f: Field): Unit
    requires f.value.Quantity?
  {
    if f.unit.Some? then f.unit.value else f.value.unit
  }

  /**
   * The column a (possibly transformed) value gives: arrays by dtype, which
   * must be in the type map; other values by type name, omitted when the
   * name is not in the map.
   */
  function ColumnFor(name: string, v: Value): Result<Option<Column>>
  {
    if v.NdArray? then
      if v.dtype in PytablesTypeMap then Ok(Some(Column(name, PytablesTypeMap[v.dtype], v.shape)))
      else Err(UnknownDtype(name, v.dtype))
    else if TypeName(v) in PytablesTypeMap then
      Ok(Some(Column(name, PytablesTypeMap[TypeName(v)], [])))
    else
      Ok(None)
  }

  /**
   * The state of schema construction: the columns so far, the transforms
   * registered so far, the generated header entries, and the error that
   * stopped construction, if any.
   */
  datatype SchemaBuild = SchemaBuild(
    columns: seq<Column>,
    transforms: map<string, Transform>,
    meta: map<string, string>,
    failure: Option<WriteError>)

  const EmptyBuild := SchemaBuild([], map[], map[], None)

  function AddColumn(acc: SchemaBuild, name: string, v: Value): SchemaBuild
  {
    match ColumnFor(name, v)
    case Err(e) => acc.(failure := Some(e))
    case Ok(None) => acc
    case Ok(Some(col)) => acc.(columns := acc.columns + [col])
  }

  /** One iteration of the schema loop over the container's items. */
  function Step(patterns: seq<Pattern>, convert: UnitConversion, acc: SchemaBuild, f: Field): SchemaBuild
  {
    if acc.failure.Some? || Excluded(patterns, f.name) then acc
    else if f.value.Quantity? then
      var tr := QuantityTransform(f);
      match Apply(tr, f.value, convert)
      case None => acc.(failure := Some(TransformFailed(f.name)))
      case Some(v) =>
        AddColumn(acc.(transforms := acc.transforms[f.name := tr],
                       meta := acc.meta[UnitKey(f.name) := UnitLabel(f)]), f.name, v)
    else
      AddColumn(acc, f.name, f.value)
  }

  /** Schema construction over the items in order, stopping at the first error. */
  function BuildSchema(patterns: seq<Pattern>, convert: UnitConversion, fields: seq<Field>): SchemaBuild
    decreases |fields|
  {
    if fields == [] then EmptyBuild
    else Step(patterns, convert, BuildSchema(patterns, convert, fields[..|fields| - 1]), fields[|fields| - 1])
  }

  lemma BuildSchemaSnoc(patterns: seq<Pattern>, convert: UnitConversion, fields: seq<Field>, i: nat)
    requires i < |fields|
    ensures BuildSchema(patterns, convert, fields[..i + 1]) ==
            Step(patterns, convert, BuildSchema(patterns, convert, fields[..i]), fields[i])
  {
    assert fields[..i + 1][..i] == fields[..i];
  }

  /** The generated header: the unit entries plus the version entry. */
  function GeneratedMeta(b: SchemaBuild, version: string): (meta: map<string, string>)
    ensures VersionKey in meta && meta[VersionKey] == version
    ensures meta.Keys == b.meta.Keys + {VersionKey}
    ensures forall c :: UnitKey(c) in b.meta ==> meta[UnitKey(c)] == b.meta[UnitKey(c)]
  {
    forall c | UnitKey(c) in b.meta ensures UnitKey(c) != VersionKey {
      UnitKeyIsNotVersionKey(c);
    }
    b.meta[VersionKey := version]
  }

  /** `meta.update(container.meta)`: the header written to the table's attributes. */
  function TableAttrs(generated: map<string, string>, containerMeta: map<string, string>): (attrs: map<string, string>)
    ensures attrs.Keys == generated.Keys + containerMeta.Keys
    ensures forall k :: k in containerMeta ==> attrs[k] == containerMeta[k]
    ensures forall k :: k in generated && k !in containerMeta ==> attrs[k] == generated[k]
  {
    generated + containerMeta
  }

  /** The first column with the given name, if any. */
  function ColumnNamed(columns: seq<Column>, name: string): (r: Option<Column>)
    ensures r.None? <==> forall k :: 0 <= k < |columns| ==> columns[k].name != name
    ensures r.Some? ==> r.value.name == name && r.value in columns
  {
    if columns == [] then None
    else if columns[0].name == name then Some(columns[0])
    else
      assert forall k :: 0 < k < |columns| ==> columns[k] == columns[1..][k - 1];
      ColumnNamed(columns[1..], name)
  }

  lemma {:induction false} ColumnNamedAppend(columns: seq<Column>, c: Column, name: string)
    ensures ColumnNamed(columns + [c], name) ==
      if ColumnNamed(columns, name).Some? then ColumnNamed(columns, name)
      else if c.name == name then Some(c) else None
  {
    if columns == [] {
      assert columns + [c] == [c];
    } else {
      assert (columns + [c])[1..] == columns[1..] + [c];
      ColumnNamedAppend(columns[1..], c, name);
    }
  }

  lemma NamedInPrefix(fields: seq<Field>, n: nat, name: string)
    requires n <= |fields| && Named(fields[..n], name)
    ensures Named(fields, name)
  {
    var k :| 0 <= k < n && fields[..n][k].name == name;
    assert fields[k].name == name;
  }

  /**
   * Once construction has stopped with an error, the later items change
   * nothing: the result of the whole loop is the state at the error.
   */
  lemma {:induction false} FailedBuildIsFinal(patterns: seq<Pattern>, convert: UnitConversion, fields: seq<Field>, i: nat)
    requires i <= |fields|
    requires BuildSchema(patterns, convert, fields[..i]).failure.Some?
    ensures BuildSchema(patterns, convert, fields) == BuildSchema(patterns, convert, fields[..i])
  {
    if i < |fields| {
      var init := fields[..|fields| - 1];
      assert init[..i] == fields[..i];
      FailedBuildIsFinal(patterns, convert, init, i);
    } else {
      assert fields[..i] == fields;
    }
  }

  /** What one step adds comes from its item, which no pattern excludes. */
  lemma StepProvenance(patterns: seq<Pattern>, convert: UnitConversion, acc: SchemaBuild, f: Field)
    ensures var b := Step(patterns, convert, acc, f);
      && (forall k :: 0 <= k < |b.columns| ==>
            (k < |acc.columns| && b.columns[k] == acc.columns[k])
            || (!Excluded(patterns, f.name) && b.columns[k].name == f.name))
      && (forall c :: c in b.transforms ==> c in acc.transforms || (!Excluded(patterns, f.name) && c == f.name))
      && (forall c :: UnitKey(c) in b.meta ==> UnitKey(c) in acc.meta || (!Excluded(patterns, f.name) && c == f.name))
  {
    forall c | UnitKey(c) in Step(patterns, convert, acc, f).meta && UnitKey(c) !in acc.meta
      ensures c == f.name
    {
      UnitKeyInjective(c, f.name);
    }
  }

  /**
   * Everything schema construction produces comes from an item of the
   * container that no exclusion pattern matches: every column, every
   * registered transform and every unit header entry.
   */
  lemma {:induction false} BuildProvenance(patterns: seq<Pattern>, convert: UnitConversion, fields: seq<Field>)
    ensures var b := BuildSchema(patterns, convert, fields);
      && (forall k :: 0 <= k < |b.columns| ==>
            !Excluded(patterns, b.columns[k].name) && Named(fields, b.columns[k].name))
      && (forall c :: c in b.transforms ==> !Excluded(patterns, c) && Named(fields, c))
      && (forall c :: UnitKey(c) in b.meta ==> !Excluded(patterns, c) && Named(fields, c))
    decreases |fields|
  {
    if fields != [] {
      var n := |fields| - 1;
      var init, last := fields[..n], fields[n];
      BuildProvenance(patterns, convert, init);
      StepProvenance(patterns, convert, BuildSchema(patterns, convert, init), last);
      assert Named(fields, last.name) by { assert fields[n].name == last.name; }
      forall x | Named(init, x) ensures Named(fields, x) {
        NamedInPrefix(fields, n, x);
      }
    }
  }

  /**
   * An item matched by an exclusion pattern leaves no trace in the schema:
   * no column, no registered transform, no unit header entry.
   */
  lemma ExcludedItemLeavesNoTrace(patterns: seq<Pattern>, convert: UnitConversion, fields: seq<Field>, name: string)
    requires Excluded(patterns, name)
    ensures var b := BuildSchema(patterns, convert, fields);
      && ColumnNamed(b.columns, name).None?
      && name !in b.transforms
      && UnitKey(name) !in b.meta
  {
    BuildProvenance(patterns, convert, fields);
  }

  /**
   * A non-excluded item holding an array whose dtype is not in the type map
   * makes schema construction fail (the KeyError of the type map).
   */
  lemma UnknownDtypeFails(patterns: seq<Pattern>, convert: UnitConversion, fields: seq<Field>, k: nat)
    requires k < |fields|
    requires !Excluded(patterns, fields[k].name)
    requires fields[k].value.NdArray? && fields[k].value.dtype !in PytablesTypeMap
    ensures BuildSchema(patterns, convert, fields).failure.Some?
  {
    var prefix := fields[..k + 1];
    assert prefix[..k] == fields[..k];
    assert BuildSchema(patterns, convert, prefix).failure.Some?;
    FailedBuildIsFinal(patterns, convert, fields, k + 1);
  }

  /** The value an item's column type is taken from: a quantity's transformed value. */
  function SchemaValue(convert: UnitConversion, f: Field): Option<Value>
  {
    if f.value.Quantity? then Apply(QuantityTransform(f), f.value, convert) else Some(f.value)
  }

  /** The step for a non-excluded item stops construction with an error. */
  predicate ItemFails(patterns: seq<Pattern>, convert: UnitConversion, f: Field)
  {
    && !Excluded(patterns, f.name)
    && (SchemaValue(convert, f).None? || ColumnFor(f.name, SchemaValue(convert, f).value).Err?)
  }

  /** The column an item contributes when its step does not fail. */
  function ItemColumn(patterns: seq<Pattern>, convert: UnitConversion, f: Field): Option<Column>
  {
    if Excluded(patterns, f.name) || ItemFails(patterns, convert, f) then None
    else ColumnFor(f.name, SchemaValue(convert, f).value).value
  }

  lemma StepColumns(patterns: seq<Pattern>, convert: UnitConversion, acc: SchemaBuild, f: Field)
    requires acc.failure.None? && Step(patterns, convert, acc, f).failure.None?
    ensures !ItemFails(patterns, convert, f)
    ensures Step(patterns, convert, acc, f).columns ==
      match ItemColumn(patterns, convert, f)
      case Some(c) => acc.columns + [c]
      case None => acc.columns
  {
  }

  /**
   * A successful construction gives each item exactly the column of that
   * item alone: the schema is built item by item.
   */
  lemma {:induction false} BuildColumnsPerItem(patterns: seq<Pattern>, convert: UnitConversion, fields: seq<Field>, k: nat)
    requires DistinctNames(fields) && k < |fields|
    requires BuildSchema(patterns, convert, fields).failure.None?
    ensures !ItemFails(patterns, convert, fields[k])
    ensures ColumnNamed(BuildSchema(patterns, convert, fields).columns, fields[k].name) ==
            ItemColumn(patterns, convert, fields[k])
    decreases |fields|
  {
    var n := |fields| - 1;
    var init, last := fields[..n], fields[n];
    var bi := BuildSchema(patterns, convert, init);
    assert bi.failure.None?;
    StepColumns(patterns, convert, bi, last);
    var name := fields[k].name;
    if k == n {
      BuildProvenance(patterns, convert, init);
      assert !Named(init, last.name);
      assert ColumnNamed(bi.columns, name).None?;
    } else {
      assert DistinctNames(init);
      assert fields[k] == init[k];
      BuildColumnsPerItem(patterns, convert, init, k);
      assert last.name != name;
    }
    match ItemColumn(patterns, convert, last)
    case Some(c) => ColumnNamedAppend(bi.columns, c, name);
    case None =>
  }

  /**
   * The column each item gets when construction succeeds: none when it is
   * excluded; for an array, a column of its dtype and shape (and the dtype
   * is in the type map); for a quantity, the column of its transformed
   * value; for any other value, a scalar column of its type, or none when
   * the type name is not in the map.
   */
  lemma SuccessfulBuildColumns(patterns: seq<Pattern>, convert: UnitConversion, fields: seq<Field>, k: nat)
    requires DistinctNames(fields) && k < |fields|
    requires BuildSchema(patterns, convert, fields).failure.None?
    ensures var f, cols := fields[k], BuildSchema(patterns, convert, fields).columns;
      && (Excluded(patterns, f.name) ==> ColumnNamed(cols, f.name).None?)
      && (!Excluded(patterns, f.name) && f.value.NdArray? ==>
            f.value.dtype in PytablesTypeMap &&
            ColumnNamed(cols, f.name) == Some(Column(f.name, PytablesTypeMap[f.value.dtype], f.value.shape)))
      && (!Excluded(patterns, f.name) && f.value.Quantity? ==>
            Apply(QuantityTransform(f), f.value, convert).Some? &&
            ColumnFor(f.name, Apply(QuantityTransform(f), f.value, convert).value) == Ok(ColumnNamed(cols, f.name)))
      && (!Excluded(patterns, f.name) && !f.value.NdArray? && !f.value.Quantity? ==>
            ColumnNamed(cols, f.name) ==
              if TypeName(f.value) in PytablesTypeMap
              then Some(Column(f.name, PytablesTypeMap[TypeName(f.value)], []))
              else None)
  {
    BuildColumnsPerItem(patterns, convert, fields, k);
  }

  /**
   * When construction succeeds, every non-excluded quantity item has the
   * unit-stripping transform registered (converting to its declared unit if
   * it has one) and a `<name>_UNIT` header entry holding its declared unit,
   * or the value's own unit when none is declared.
   */
  lemma {:induction false} QuantityItemGetsTransformAndUnit(patterns: seq<Pattern>, convert: UnitConversion, fields: seq<Field>, k: nat)
    requires DistinctNames(fields) && k < |fields|
    requires BuildSchema(patterns, convert, fields).failure.None?
    requires !Excluded(patterns, fields[k].name) && fields[k].value.Quantity?
    ensures var f, b := fields[k], BuildSchema(patterns, convert, fields);
      && f.name in b.transforms && b.transforms[f.name] == QuantityTransform(f)
      && UnitKey(f.name) in b.meta && b.meta[UnitKey(f.name)] == UnitLabel(f)
    decreases |fields|
  {
    var n := |fields| - 1;
    var init, last := fields[..n], fields[n];
    assert BuildSchema(patterns, convert, init).failure.None?;
    if k < n {
      assert DistinctNames(init);
      assert fields[k] == init[k];
      QuantityItemGetsTransformAndUnit(patterns, convert, init, k);
      assert last.name != fields[k].name;
      if UnitKey(last.name) == UnitKey(fields[k].name) {
        UnitKeyInjective(last.name, fields[k].name);
      }
    }
  }
}

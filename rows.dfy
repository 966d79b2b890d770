/**
 * The row `SimpleHDF5TableWriter` appends for a container: for each column
 * of the table, the container's item of that name, passed through the
 * column's transform when one is registered.
 */
module TableRows {
  import opened Containers
  import opened TableSchema

  /** A table row: column name to stored value. */
  type Row = map<string, Value>

  /** The value stored in one column, or the error that stops the row. */
  function Cell(name: string, transforms: map<string, Transform>, fields: seq<Field>, convert: UnitConversion): Result<Value>
  {
    match Lookup(fields, name)
    case None => Err(MissingItem(name))
    case Some(v) =>
      if name in transforms then
        match Apply(transforms[name], v, convert)
        case None => Err(TransformFailed(name))
        case Some(w) => Ok(w)
      else Ok(v)
  }

  /** The row for the given columns, filled in column order, stopping at the first error. */
  function RowFor(columns: seq<Column>, transforms: map<string, Transform>, fields: seq<Field>, convert: UnitConversion): Result<Row>
    decreases |columns|
  {
    if columns == [] then Ok(map[])
    else
      match RowFor(columns[..|columns| - 1], transforms, fields, convert)
      case Err(e) => Err(e)
      case Ok(row) =>
        var name := columns[|columns| - 1].name;
        match Cell(name, transforms, fields, convert)
        case Err(e) => Err(e)
        case Ok(v) => Ok(row[name := v])
  }

  /** Once a column has failed, the later columns change nothing. */
  lemma {:induction false} RowFailureIsFinal(columns: seq<Column>, transforms: map<string, Transform>, fields: seq<Field>, convert: UnitConversion, i: nat)
    requires i <= |columns|
    requires RowFor(columns[..i], transforms, fields, convert).Err?
    ensures RowFor(columns, transforms, fields, convert) == RowFor(columns[..i], transforms, fields, convert)
    decreases |columns|
  {
    if i < |columns| {
      var init := columns[..|columns| - 1];
      assert init[..i] == columns[..i];
      RowFailureIsFinal(init, transforms, fields, convert, i);
    } else {
      assert columns[..i] == columns;
    }
  }

  /** One more completed column extends the row by that column's value. */
  lemma RowForExtend(columns: seq<Column>, transforms: map<string, Transform>, fields: seq<Field>, convert: UnitConversion,
                     i: nat, row: Row, v: Value)
    requires i < |columns|
    requires RowFor(columns[..i], transforms, fields, convert) == Ok(row)
    requires Cell(columns[i].name, transforms, fields, convert) == Ok(v)
    ensures RowFor(columns[..i + 1], transforms, fields, convert) == Ok(row[columns[i].name := v])
  {
    assert columns[..i + 1][..i] == columns[..i];
  }

  /** The names of the columns. */
  function ColumnNames(columns: seq<Column>): set<string>
  {
    set k | 0 <= k < |columns| :: columns[k].name
  }

  /** Filling a column fails: the item is missing, or its registered transform raises. */
  predicate CellFails(name: string, transforms: map<string, Transform>, fields: seq<Field>, convert: UnitConversion)
  {
    || !Named(fields, name)
    || (name in transforms && Apply(transforms[name], Lookup(fields, name).value, convert).None?)
  }

  /**
   * The row holds, under `name`, the container's item of that name,
   * transformed when a transform is registered for it and unchanged otherwise.
   */
  predicate HoldsItem(row: Row, name: string, transforms: map<string, Transform>, fields: seq<Field>, convert: UnitConversion)
  {
    && Named(fields, name)
    && name in row
    && if name in transforms then
         && Apply(transforms[name], Lookup(fields, name).value, convert).Some?
         && row[name] == Apply(transforms[name], Lookup(fields, name).value, convert).value
       else row[name] == Lookup(fields, name).value
  }

  lemma CellHoldsItem(row: Row, name: string, other: string, v: Value,
                      transforms: map<string, Transform>, fields: seq<Field>, convert: UnitConversion)
    requires Cell(other, transforms, fields, convert) == Ok(v)
    requires other == name || HoldsItem(row, name, transforms, fields, convert)
    ensures HoldsItem(row[other := v], name, transforms, fields, convert)
  {
  }

  lemma ColumnNamesSnoc(columns: seq<Column>)
    requires columns != []
    ensures ColumnNames(columns) == ColumnNames(columns[..|columns| - 1]) + {columns[|columns| - 1].name}
  {
    var n := |columns| - 1;
    var init := columns[..n];
    forall x | x in ColumnNames(columns) ensures x in ColumnNames(init) + {columns[n].name} {
      var k :| 0 <= k < |columns| && columns[k].name == x;
      if k < n { assert init[k].name == x; }
    }
    forall x | x in ColumnNames(init) ensures x in ColumnNames(columns) {
      var k :| 0 <= k < |init| && init[k].name == x;
      assert columns[k].name == x;
    }
  }

  /** A completed row has exactly the table's columns. */
  lemma {:induction false} RowKeys(columns: seq<Column>, transforms: map<string, Transform>, fields: seq<Field>, convert: UnitConversion)
    requires RowFor(columns, transforms, fields, convert).Ok?
    ensures RowFor(columns, transforms, fields, convert).value.Keys == ColumnNames(columns)
    decreases |columns|
  {
    if columns != [] {
      RowKeys(columns[..|columns| - 1], transforms, fields, convert);
      ColumnNamesSnoc(columns);
    }
  }

  /**
   * Each column of a completed row holds the container's item of that name,
   * transformed when the table has a transform for the column and unchanged
   * otherwise.
   */
  lemma {:induction false} RowContents(columns: seq<Column>, transforms: map<string, Transform>, fields: seq<Field>, convert: UnitConversion)
    requires RowFor(columns, transforms, fields, convert).Ok?
    ensures var row := RowFor(columns, transforms, fields, convert).value;
      forall k :: 0 <= k < |columns| ==> HoldsItem(row, columns[k].name, transforms, fields, convert)
    decreases |columns|
  {
    if columns != [] {
      var n := |columns| - 1;
      var init, last := columns[..n], columns[n].name;
      RowContents(init, transforms, fields, convert);
      var rowi := RowFor(init, transforms, fields, convert).value;
      var v := Cell(last, transforms, fields, convert).value;
      forall k | 0 <= k < |columns| ensures HoldsItem(rowi[last := v], columns[k].name, transforms, fields, convert) {
        if k < n {
          assert columns[k] == init[k];
        }
        CellHoldsItem(rowi, columns[k].name, last, v, transforms, fields, convert);
      }
    }
  }

  /**
   * A row cannot be completed exactly when some column's item is missing
   * from the container or its registered transform raises.
   */
  lemma {:induction false} RowFailsIff(columns: seq<Column>, transforms: map<string, Transform>, fields: seq<Field>, convert: UnitConversion)
    ensures RowFor(columns, transforms, fields, convert).Err? <==>
            exists k :: 0 <= k < |columns| && CellFails(columns[k].name, transforms, fields, convert)
    decreases |columns|
  {
    if columns != [] {
      var n := |columns| - 1;
      var init := columns[..n];
      RowFailsIff(init, transforms, fields, convert);
      forall k | 0 <= k < n ensures columns[k] == init[k] { }
      if RowFor(init, transforms, fields, convert).Ok? && Cell(columns[n].name, transforms, fields, convert).Err? {
        assert CellFails(columns[n].name, transforms, fields, convert);
      }
    }
  }

  /**
   * The value written for a quantity column, in every row of the table: the
   * schema and transforms were built from the items `fields` of the first
   * container written, on top of any transforms registered earlier (`base`),
   * and the row is filled from the items `later` of any container written
   * since.  The column holds the later item's magnitude with its unit
   * removed, or, when the first container declared a unit for the item, its
   * magnitude converted to that unit.
   */
  lemma QuantityColumnHoldsStrippedValue(patterns: seq<Pattern>, convert: UnitConversion, fields: seq<Field>,
                                         base: map<string, Transform>, later: seq<Field>, k: nat)
    requires DistinctNames(fields) && k < |fields|
    requires BuildSchema(patterns, convert, fields).failure.None?
    requires !Excluded(patterns, fields[k].name) && fields[k].value.Quantity?
    requires ColumnNamed(BuildSchema(patterns, convert, fields).columns, fields[k].name).Some?
    requires RowFor(BuildSchema(patterns, convert, fields).columns,
                    base + BuildSchema(patterns, convert, fields).transforms, later, convert).Ok?
    ensures var f, b := fields[k], BuildSchema(patterns, convert, fields);
      var row := RowFor(b.columns, base + b.transforms, later, convert).value;
      && f.name in row
      && Lookup(later, f.name).Some? && Lookup(later, f.name).value.Quantity?
      && (f.unit.None? ==> row[f.name] == Lookup(later, f.name).value.magnitude)
      && (f.unit.Some? ==> convert(Lookup(later, f.name).value, f.unit.value) == Some(row[f.name]))
  {
    var f, b := fields[k], BuildSchema(patterns, convert, fields);
    var trs := base + b.transforms;
    QuantityItemGetsTransformAndUnit(patterns, convert, fields, k);
    assert trs[f.name] == QuantityTransform(f);
    RowContents(b.columns, trs, later, convert);
    var j :| 0 <= j < |b.columns| && b.columns[j] == ColumnNamed(b.columns, f.name).value;
    assert HoldsItem(RowFor(b.columns, trs, later, convert).value, f.name, trs, later, convert);
  }
}

# ctapipe HDF5 table writer — Dafny model

This project models the bookkeeping core of ctapipe's `SimpleHDF5TableWriter`
(`ctapipe/io/hdftableio.py`). The writer turns ctapipe `Container`s into rows of
HDF5 tables:

- It keeps per-table exclusion patterns (`exclude`) and a per-table, per-column
  registry of value transforms (`add_column_transform`).
- On a `write` to a table that has no schema yet, it derives the table schema
  from the container's items. Quantity items that no pattern excludes get a
  unit-stripping transform and a `<column>_UNIT` header entry. It also generates the `CTAPIPE_VERSION` header
  entry, merges the container's `meta` over the generated header, and creates
  the table.
- Every `write` that does not raise appends one row; one that raises appends
  none. Each column holds the container's item of
  that name, passed through the column's transform when one is registered.
- `tr_list_to_mask` turns a list of indices into a fixed-length boolean mask.

Modules:

- `Containers` (`containers.dfy`): the values a container holds, its items and
  `meta`, the transforms and `Apply`, and the error kinds a write can end with.
  Python exceptions are modelled as `Result`/`Outcome` errors, not as
  preconditions.
- `TableSchema` (`schema.dfy`): `PYTABLES_TYPE_MAP`, pattern matching, and
  schema construction as a left fold `BuildSchema` over the items. It also holds
  the lemmas that say what the fold produces and the generated and merged table
  header.
- `TableRows` (`rows.dfy`): the row appended for a container, `RowFor`, and its
  lemmas.
- `TableWriter` (`writer.dfy`): the class `SimpleHdf5TableWriter`. Its fields
  are the writer's four dictionaries: exclusions, transforms, schemas and
  tables. Its methods loop as the source does. The looping methods that build
  the schema and fill a row are proved to compute the fold functions above;
  every method that changes the writer is proved to leave the other tables
  untouched.
- `Masks` (`masks.dfy`): `tr_list_to_mask` as a pure function.

The HDF5 file is an in-memory map from table name to `Table` (title, columns,
header attributes, rows).

Three things are parameters of the writer's constructor:

- the group name;
- the package version string (`ctapipe.__version__`);
- the unit conversion `Quantity.to(unit).value`, as an opaque function that may
  fail.

## Model

| member | source | states |
|---|---|---|
| Containers.Lookup | ctapipe/io/hdftableio.py:222 | `container[name]` succeeds exactly when some item has that name, and then gives that item's value |
| Containers.TypeName | ctapipe/io/hdftableio.py:182-183 | definition: `type(value).__name__` of each kind of value |
| Containers.Apply | ctapipe/io/hdftableio.py:253-254 | definition: calling a transform (`lambda x: x.value` of line 170, `tr_convert_and_strip_unit`, or a user callable) as at lines 173 and 227; None when the call raises |
| TableSchema.PytablesTypeMap | ctapipe/io/hdftableio.py:18-24 | definition: the five type and dtype names and the column class each maps to |
| TableSchema.Matches | ctapipe/io/hdftableio.py:43-47 | definition: a pattern matches a column name it is a prefix of (`re.match` anchored at the start) |
| TableSchema.QuantityTransform | ctapipe/io/hdftableio.py:164-170 | definition: convert to the declared unit and strip it when a unit is declared, strip the unit otherwise |
| TableSchema.UnitLabel | ctapipe/io/hdftableio.py:166-171 | definition: the declared unit when there is one, the value's own unit otherwise |
| TableSchema.ColumnFor | ctapipe/io/hdftableio.py:176-185 | definition: an array's column by dtype and shape (KeyError for an unmapped dtype), a scalar column by type name, or none |
| TableSchema.AddColumn | ctapipe/io/hdftableio.py:176-185 | definition: the schema state after an item's column choice |
| TableSchema.Step | ctapipe/io/hdftableio.py:156-185 | definition: one iteration of the item loop: skip an excluded item, transform a quantity and record its unit entry, then choose the column |
| TableSchema.BuildSchema | ctapipe/io/hdftableio.py:155-185 | definition: the item loop as a left fold over the items, stopping at the first error |
| TableRows.Cell | ctapipe/io/hdftableio.py:222-227 | definition: the container's item of the column's name, through the column's transform when one is registered |
| TableRows.RowFor | ctapipe/io/hdftableio.py:220-229 | definition: the column loop as a left fold over the table's columns, stopping at the first error |
| TableWriter.SimpleHdf5TableWriter.PatternsOf | ctapipe/io/hdftableio.py:46 | definition: `_exclusions[t]` of the default dictionary, empty for a table without patterns |
| TableWriter.SimpleHdf5TableWriter.TransformsOf | ctapipe/io/hdftableio.py:225-226 | definition: `_transforms[t]` of the default dictionary, empty for a table without transforms |
| TableSchema.UnitKey | ctapipe/io/hdftableio.py:168-171 | definition: the header key `'{}_UNIT'.format(col_name)` of a quantity column |
| TableSchema.UnitKeyInjective | ctapipe/io/hdftableio.py:168-171 | different columns get different `<name>_UNIT` header keys |
| TableSchema.UnitKeyIsNotVersionKey | ctapipe/io/hdftableio.py:191 | no unit header key is the `CTAPIPE_VERSION` key |
| TableSchema.GeneratedMeta | ctapipe/io/hdftableio.py:191-192 | the generated header always holds `CTAPIPE_VERSION` with the package version; its keys are the unit keys plus that one; every unit entry is kept |
| TableSchema.TableAttrs | ctapipe/io/hdftableio.py:200 | merged header keys are the generated keys plus the container's; container entries win on a clash; the other generated entries are kept |
| TableSchema.FailedBuildIsFinal | ctapipe/io/hdftableio.py:155-185 | once an item raises, the later items change nothing: the result is the state at the error |
| TableSchema.StepProvenance | ctapipe/io/hdftableio.py:160-185 | one item adds columns, transforms and unit entries only under its own name, and only when no pattern excludes it |
| TableSchema.BuildProvenance | ctapipe/io/hdftableio.py:155-185 | every column, registered transform and unit header entry belongs to a container item that no exclusion pattern matches |
| TableSchema.ExcludedItemLeavesNoTrace | ctapipe/io/hdftableio.py:160-162 | an excluded item gets no column, no transform and no `_UNIT` header entry |
| TableSchema.UnknownDtypeFails | ctapipe/io/hdftableio.py:176-178 | a non-excluded array whose dtype is not in the type map makes schema construction fail |
| TableSchema.BuildColumnsPerItem | ctapipe/io/hdftableio.py:155-185 | after a successful build, each item's column (by name) is the column that item alone gives, and no item raised |
| TableSchema.SuccessfulBuildColumns | ctapipe/io/hdftableio.py:160-185 | after a successful build: no column for an excluded item; arrays get their dtype's column with their shape (the dtype is mapped); quantities get the column of their transformed value; other values get a scalar column of their type, or none when the type name is not in the map |
| TableSchema.QuantityItemGetsTransformAndUnit | ctapipe/io/hdftableio.py:164-174 | after a successful build, a non-excluded quantity has the unit-stripping transform (converting to the declared unit if there is one); its `_UNIT` entry holds the declared unit, or else the value's own unit |
| TableRows.RowFailureIsFinal | ctapipe/io/hdftableio.py:220-229 | once a column raises, the later columns change nothing |
| TableRows.RowKeys | ctapipe/io/hdftableio.py:220-229 | a completed row has exactly the table's columns as keys |
| TableRows.RowContents | ctapipe/io/hdftableio.py:220-229 | each column of a completed row holds the transform applied to the container's item if a transform is registered, and the item unchanged otherwise |
| TableRows.RowFailsIff | ctapipe/io/hdftableio.py:220-229 | a row fails exactly when some column's item is missing or its registered transform raises |
| TableRows.QuantityColumnHoldsStrippedValue | ctapipe/io/hdftableio.py:164-174 | in every row written to the table, from the first container or any later one, as long as no later `add_column_transform` replaces that column's transform, a quantity column holds that container's item's magnitude with the unit removed, or, when a unit was declared, the magnitude converted to that unit; the item is a quantity whenever the row is written (the writer's promise at lines 100-103, through the transform of lines 167-170 and 253-254 applied at line 227) |
| Masks.ListToMask | ctapipe/io/hdftableio.py:256-260 | the result is defined iff the length is non-negative and every index is in `[-length, length)`; it then has the given length; position `i` is set iff `i` or `i - length` is listed |
| Masks.MaskDependsOnlyOnIndexSet | ctapipe/io/hdftableio.py:256-260 | duplicates and the order of the indices make no difference to the mask |
| TableWriter.SimpleHdf5TableWriter.constructor | ctapipe/io/hdftableio.py:122-127 | a new writer has no exclusions, transforms, schemas or tables (the first two set by the base class at lines 28-30) |
| TableWriter.SimpleHdf5TableWriter.Exclude | ctapipe/io/hdftableio.py:32-43 | the pattern is appended to the table's pattern list; every other table's list is unchanged |
| TableWriter.SimpleHdf5TableWriter.IsColumnExcluded | ctapipe/io/hdftableio.py:45-49 | true iff some pattern registered for the table matches the column; false for a table without patterns |
| TableWriter.SimpleHdf5TableWriter.AddColumnTransform | ctapipe/io/hdftableio.py:51-66 | the transform becomes the column's transform, replacing any earlier one; all other tables' entries are unchanged |
| TableWriter.SimpleHdf5TableWriter.ColumnOf | ctapipe/io/hdftableio.py:176-185 | the loop's column choice for one value agrees with `TableSchema.ColumnFor` |
| TableWriter.SimpleHdf5TableWriter.AddItem | ctapipe/io/hdftableio.py:156-185 | one iteration of the schema loop takes the state to `Step` of it and registers the item's transform; other tables are unchanged |
| TableWriter.SimpleHdf5TableWriter.CreateHdf5TableSchema | ctapipe/io/hdftableio.py:132-192 | the loop computes `BuildSchema`; its transforms are registered even if a later item raises; on success the schema is recorded and the generated header returned; on error no schema is recorded |
| TableWriter.SimpleHdf5TableWriter.CopyAttrs | ctapipe/io/hdftableio.py:206-207 | every merged header entry is copied into the table attributes, and nothing else |
| TableWriter.SimpleHdf5TableWriter.SetupNewTable | ctapipe/io/hdftableio.py:195-209 | on success the table is created with the container's class name as title, the built columns and the merged header as attributes, and no rows; on error no table is created |
| TableWriter.SimpleHdf5TableWriter.FillRow | ctapipe/io/hdftableio.py:220-229 | the row loop computes `RowFor` |
| TableWriter.SimpleHdf5TableWriter.AppendRow | ctapipe/io/hdftableio.py:212-231 | a completed row is appended to the table; a failed row leaves every table unchanged |
| TableWriter.SimpleHdf5TableWriter.Write | ctapipe/io/hdftableio.py:233-251 | the table is set up only when it has no schema yet, and is never rebuilt later; a successful write appends exactly one row (the one `RowFor` gives); a failed one appends none; no other table is touched |

## Left out

- PyTables file handling: `open_file`, `create_group`, `create_table`, `table.row`, `row.append()` and closing the file in `__del__`. The file is an in-memory map from table name to table, so errors PyTables itself would raise are not modelled. These include a value that does not fit its column's type or shape when `row[col] = value` is set.
- Unit conversion: `Quantity.to(unit).value` (used by `tr_convert_and_strip_unit`) is an opaque parameter that either gives a value or fails. The floating-point numerics of astropy are not modelled, and floats are `real`s.
- Regular expressions: an exclusion pattern is read literally as a prefix of the column name. This is what `re.match` does for a pattern without metacharacters. Other regex syntax is not modelled.
- numpy and PyTables types: an array is its dtype name, shape and elements. A column is its name, column class and shape. The column constructors' other options are not modelled.
- Column order: the table's columns keep the container's item order. PyTables' own ordering of `table.colnames` is not modelled.
- The default dictionaries: looking up `_exclusions[t]` or `_transforms[t]` for a table with no entry reads as empty. The empty entry that Python's `defaultdict` inserts as a side effect is not modelled, because it changes no observable result.
- Header values: a container's `meta` values, and so the table attributes, are arbitrary Python objects; the model narrows them to strings, which changes nothing the writer does with them.
- Logging calls are left out. `ctapipe.__version__` is a constructor parameter.
- Masks.ListToMask: numpy's `np.bool` dtype and array object are modelled as a sequence of booleans. IndexError and ValueError are a `None` result, not a precondition.
- The configurable component and tool framework of ctapipe is not part of this model.

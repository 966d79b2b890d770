/**
 * The values a table writer receives: the items of a ctapipe `Container`,
 * the Python objects they hold, and the per-column transform functions that
 * are applied to an item before it is stored.
 */
module Containers {

  datatype Option<+T> = None | Some(value: T)

  /** The textual form of an astropy unit (what `str(unit)` gives). */
  type Unit = string

  /**
   * A Python value held by a container item.  Only what the writer inspects
   * is kept: the type name of scalars, the dtype and shape of numpy arrays,
   * and the magnitude and unit of astropy quantities.  Floating-point
   * payloads are represented by `real`.
   */
  datatype Value =
    | Int(i: int)                                             // Python int
    | Bool(b: bool)                                           // Python bool
    | Float(x: real)                                          // Python float
    | NumpyScalar(typeName: string, x: real)                  // numpy scalar; `typeName` is `type(v).__name__`, e.g. float32
    | NdArray(dtype: string, shape: seq<nat>, elems: seq<Value>) // numpy.ndarray
    | Quantity(magnitude: Value, unit: Unit)                  // astropy Quantity; its magnitude (`.value`), like a
                                                              // conversion result, is never itself a Quantity
    | Object(typeName: string)                                // any other object (str, list, None, ...)

  /** `type(v).__name__` */
  function TypeName(v: Value): string
  {
    match v
    case Int(_) => "int"
    case Bool(_) => "bool"
    case Float(_) => "float"
    case NumpyScalar(name, _) => name
    case NdArray(_, _, _) => "ndarray"
    case Quantity(_, _) => "Quantity"
    case Object(name) => name
  }

  /**
   * One item of a container: its name, its current value and the unit its
   * `Field` declaration asks for (`container.attributes[name].unit`).
   */
  datatype Field = Field(name: string, value: Value, unit: Option<Unit>)

  /**
   * A container: its class name, its items in declaration order and its
   * `meta` dictionary.
   */
  datatype Container = Container(className: string, fields: seq<Field>, meta: map<string, string>)

  /** Item names are unique, as the keys of a Python dictionary are. */
  predicate DistinctNames(fields: seq<Field>)
  {
    forall i, j :: 0 <= i < j < |fields| ==> fields[i].name != fields[j].name
  }

  /** `name` is the name of some item. */
  predicate Named(fields: seq<Field>, name: string)
  {
    exists k :: 0 <= k < |fields| && fields[k].name == name
  }

  /** `container[name]`: the value of the first item with that name, or None (a KeyError). */
  function Lookup(fields: seq<Field>, name: string): (r: Option<Value>)
    ensures r.Some? <==> Named(fields, name)
    ensures r.Some? ==> exists k :: 0 <= k < |fields| && fields[k].name == name && fields[k].value == r.value
  {
    if fields == [] then None
    else if fields[0].name == name then Some(fields[0].value)
    else
      var rest := Lookup(fields[1..], name);
      assert forall k :: 0 < k < |fields| ==> fields[k] == fields[1..][k - 1];
      assert Named(fields[1..], name) ==> Named(fields, name);
      rest
  }

  /**
   * `Quantity.to(unit).value`, supplied by astropy: the magnitude of a
   * quantity converted to the given unit, or None when the units are not
   * convertible (astropy raises UnitConversionError).
   */
  type UnitConversion = (Value, Unit) -> Option<Value>

  /** A column transform: a callable applied to a value before it is written. */
  datatype Transform =
    | StripUnit                        // `lambda x: x.value`
    | ConvertAndStripUnit(target: Unit) // `partial(tr_convert_and_strip_unit, unit=target)`
    | Custom(f: Value -> Option<Value>) // any user callable; None stands for an exception

  /** Calls a transform on a value; None when the call raises. */
  function Apply(tr: Transform, v: Value, convert: UnitConversion): Option<Value>
  {
    match tr
    case StripUnit => if v.Quantity? then Some(v.magnitude) else None
    case ConvertAndStripUnit(u) => if v.Quantity? then convert(v, u) else None
    case Custom(f) => f(v)
  }

  /** The errors a write can end with. */
  datatype WriteError =
    | UnknownDtype(column: string, dtype: string) // KeyError from the type map
    | MissingItem(column: string)                  // KeyError from `container[colname]`
    | TransformFailed(column: string)              // a transform raised

  datatype Result<+T> = Ok(value: T) | Err(error: WriteError)

  datatype Outcome = Pass | Fail(error: WriteError)
}

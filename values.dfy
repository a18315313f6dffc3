/**
 * The values the orchestrator passes around: option values of dimensions,
 * universes (one chosen option per dimension, kept in the insertion order of
 * a Python dict), the Option and Result wrappers, and the exceptions that the
 * modelled code raises.
 */
module Values {

  datatype Option<T> = None | Some(value: T)

  /** A call that either returns a value or raises one of the modelled exceptions. */
  datatype Result<T> = Ok(value: T) | Err(error: Error)

  /** One constructor per raise site of the modelled code. */
  datatype Error =
    | EmptyDimensions                // ValueError: no (or empty) dimensions provided
    | DuplicateOptions               // ValueError: dimensions must not contain duplicate values
    | Unhashable                     // TypeError: an option (after normalisation) cannot go into a set
    | NothingToUnpack                // ValueError: unpacking zip() of an empty dict into two names
    | MissingKey(key: string)        // KeyError: universe[dimension] for an absent dimension
    | ColumnExists(column: string)   // ValueError from DataFrame.insert: column already exists
    | IndexLengthMismatch            // ValueError from setting a one-label index on zero rows
    | FileNotFound(path: string)     // FileNotFoundError for an explicitly named file
    | DimensionsTwice                // AssertionError: dimensions in the config and as an argument
    | DimensionsUnset                // no dimensions given directly nor in the config

  /**
   * A JSON-compatible Python value. Lists and tuples are different values
   * (in Python `[1, 2] != (1, 2)`) although JSON writes both as arrays.
   * Floating-point numbers are not modelled.
   */
  datatype Value =
    | VNull
    | VBool(b: bool)
    | VInt(i: int)
    | VStr(s: string)
    | VList(items: seq<Value>)
    | VTuple(items: seq<Value>)
    | VObject(fields: seq<Entry>)

  /** One key/value pair of a dict, in insertion order. */
  datatype Entry = Entry(key: string, value: Value)

  /** A universe: dimension name to selected option, in insertion order. */
  type Universe = seq<Entry>

  /** The keys of a dict, in insertion order. */
  function KeysOf(u: seq<Entry>): seq<string>
  {
    seq(|u|, i requires 0 <= i < |u| => u[i].key)
  }

  /** A sequence of entries that stands for a dict: no key occurs twice. */
  predicate DistinctKeys(u: seq<Entry>)
  {
    forall i, j :: 0 <= i < j < |u| ==> u[i].key != u[j].key
  }

  /** `d[k]` as an Option: the value stored under `k`, if any. */
  function Lookup(u: seq<Entry>, k: string): (r: Option<Value>)
    ensures r.None? <==> forall i :: 0 <= i < |u| ==> u[i].key != k
    ensures r.Some? ==> exists i :: 0 <= i < |u| && u[i] == Entry(k, r.value)
    ensures DistinctKeys(u) ==> forall i :: 0 <= i < |u| && u[i].key == k ==> r == Some(u[i].value)
  {
    if u == [] then None
    else if u[0].key == k then Some(u[0].value)
    else
      var r := Lookup(u[1..], k);
      assert forall i :: 1 <= i < |u| ==> u[i] == u[1..][i - 1];
      r
  }

  /** `d.get(k)`: the value stored under `k`, or None when `k` is absent. */
  function Get(u: seq<Entry>, k: string): Value
  {
    match Lookup(u, k)
    case Some(v) => v
    case None => VNull
  }

  /** The normalisation applied to every option: a list becomes a tuple, anything else is kept. */
  function Normalise(v: Value): (r: Value)
    ensures !r.VList?
    ensures r.VTuple? ==> (v.VList? || v.VTuple?) && r.items == v.items
    ensures !v.VList? ==> r == v
    ensures v.VList? ==> r == VTuple(v.items)
  {
    if v.VList? then VTuple(v.items) else v
  }
}

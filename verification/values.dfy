/** Optional values, results, and the way the importers read keys of a parsed
    JSON object.  A key of an exported object is either absent, present with
    `null`, or present with a value; Python's `d.get(key, default)` and
    `d[key]` treat the three cases differently, and the importers rely on both. */
module Values {

  datatype Option<+T> = None | Some(value: T)

  datatype Result<+T, +E> = Success(value: T) | Failure(error: E)

  /** The Python exceptions the per-chat code can raise on a malformed export. */
  datatype Raise = KeyError | TypeError | AttributeError

  /** One key of a JSON object. */
  datatype Field<+T> = Missing | Null | Present(value: T)

  /** `d.get(key, default)`: the default only replaces an ABSENT key; a key
      holding `null` reads as Python's `None`. */
  function Get<T>(f: Field<T>, default: T): Option<T>
  {
    match f
    case Missing => Some(default)
    case Null => None
    case Present(v) => Some(v)
  }

  /** `d[key]`: an absent key raises `KeyError`; `null` reads as `None`. */
  function Index<T>(f: Field<T>): Result<Option<T>, Raise>
  {
    match f
    case Missing => Failure(KeyError)
    case Null => Success(None)
    case Present(v) => Success(Some(v))
  }
}

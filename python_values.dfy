/** The Python values the middleware reads from an ASGI scope or message,
    dictionary lookups, and the exceptions those lookups can raise. */
module PythonValues {

  datatype Option<+T> = None | Some(value: T)

  /** A Python value as it appears in a scope or message dictionary.
      Lists and tuples are both ListValue; floats are not modelled. */
  datatype Value =
    | NoneValue
    | BoolValue(b: bool)
    | IntValue(i: int)
    | StrValue(s: string)
    | BytesValue(bytes: seq<bv8>)
    | ListValue(items: seq<Value>)

  /** What a Python dict holds under one key: nothing, an explicit None,
      or a value. `key in d` is true for the last two. */
  datatype Entry<+T> = Missing | Null | Present(value: T) {

    /** `key in d` */
    predicate InDict() {
      !Missing?
    }

    /** `d.get(key)`: None both for a missing key and for a stored None */
    function Get(): (r: Option<T>)
      ensures r.Some? <==> Present?
    {
      if Present? then Some(value) else None
    }
  }

  /** The exceptions that escape the modelled code (ValueError from int()
      is caught where it arises and never escapes). */
  datatype PyException =
    | TypeError
    | KeyError(key: string)

  /** A Python call either returns a value or raises. */
  datatype Result<+T> = Returned(value: T) | Raised(error: PyException)
}

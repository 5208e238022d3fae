/** Python's None, and an exception with the kind of refusal it carries. */
module Options {
  datatype Option<+T> = None | Some(value: T)

  datatype Result<+T, +E> = Ok(value: T) | Err(error: E)

  /** What an `if` appends to a list. */
  function When<T>(condition: bool, value: T): seq<T> {
    if condition then [value] else []
  }
}

/** Value types shared by the three services. */
module Common {

  /** Python's `Optional[...]` and JavaScript's `null`/`undefined`-able values. */
  datatype Option<+T> = None | Some(value: T)

  /** A call that either returns a value or throws an error. */
  datatype Result<+T, +E> = Ok(value: T) | Err(error: E)

  /** A wall-clock reading (`datetime.utcnow()`, `new Date()`); the model never inspects it. */
  type Timestamp = int

  /** Python and JavaScript truthiness of an optional string: present and not empty. */
  predicate TruthyString(s: Option<string>)
  {
    s.Some? && s.value != ""
  }
}

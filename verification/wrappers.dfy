/** Small value types shared by the whole model. */
module Wrappers {

  /** Python's `None` versus a present value. */
  datatype Option<+T> = None | Some(value: T)

  /** A value as the Python code holds it where its dynamic type matters:
      `collapse_qubit` produces the integers 0 and 1, while the card tables
      compare the collapsed state against the strings '0', '1', '00', ... */
  datatype PyValue = PyInt(i: int) | PyStr(s: string)

  /** Python truthiness of an optional string: `None` and `''` are false. */
  predicate Truthy(s: Option<string>)
  {
    s.Some? && s.value != ""
  }
}

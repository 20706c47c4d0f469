/** The optional value used where the program yields Python's `None`. */
module Wrappers {
  datatype Option<+T> = None | Some(value: T)

  /** Python's `str` of an optional string: the string itself, or `None`. */
  function Str(o: Option<string>): (text: string)
    ensures o.Some? ==> text == o.value
    ensures o.None? ==> text == "None"
  {
    if o.Some? then o.value else "None"
  }
}

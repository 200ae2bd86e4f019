/** The Some/None datatype used for lookups and for the JSON decoder's verdict. */
module Wrappers {

  datatype Option<+T> = None | Some(value: T)

  /** The outcome of Python code that either returns a value or raises
      `AttributeError` (calling `.get` on something that is not a dict). */
  datatype Attempt<+T> = Returned(value: T) | AttributeError
}

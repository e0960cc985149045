/** Option stands for a value that may be absent: the NaN that TA-Lib and
    numpy leave where an indicator is not yet defined, and the `None` tuple of a
    K-line fetch that failed. */
module Wrappers {

  datatype Option<+T> = None | Some(value: T)

  /** The last element of a sequence (Python's `xs[-1]`). */
  function Last<T>(s: seq<T>): T
    requires |s| > 0
  {
    s[|s| - 1]
  }
}

/** Optional values, used wherever the program has a null pointer or an empty std::optional. */
module Wrappers {
  datatype Option<+T> = None | Some(value: T)

  /** The contents of an option as a sequence of length zero or one. */
  function ToSeq<T>(o: Option<T>): seq<T> {
    if o.None? then [] else [o.value]
  }
}

module Wrappers {
  datatype Option<+T> = None | Some(value: T)

  /** A name that differs from those of all other numbers. */
  function Name(n: nat): (s: string)
    ensures |s| == n
  {
    if n == 0 then "" else Name(n - 1) + "a"
  }
}

/** What several modules need: the optional value used wherever the engine hands over a possibly null
    pointer, and the smaller of two numbers. */
module Wrappers {
  datatype Option<+T> = None | Some(value: T)

  function Min(a: nat, b: nat): nat { if a < b then a else b }
}

/** Types shared by all components. */
module Prelude {
  /** A nullable column, a missing row, or the result of a call that may raise. */
  datatype Option<+T> = None | Some(value: T)

  /** Identifiers are opaque text keys; only equality and the order SQLite gives them matter, so a number stands for
      each. */
  type Id = nat

  /** A UTC time stamp in microseconds since the epoch; module Timestamps shows that SQL compares the text in this
      order. */
  type Stamp = int

  function Max(a: int, b: int): int {
    if a < b then b else a
  }

  function Min(a: int, b: int): int {
    if a < b then a else b
  }
}

/** A datatype and three functions shared by the whole model. */
module Prelude {

  datatype Option<+T> = None | Some(value: T)

  function Max(x: real, y: real): real {
    if x < y then y else x
  }

  /** Python's `int(x)` on a non-negative float: truncation is the floor. */
  function Truncate(x: real): int
    requires 0.0 <= x
  {
    x.Floor
  }

  /** The number that a provider's usage holds under a name, 0 where it is missing. */
  function Reported(usage: Option<map<string, nat>>, name: string): nat {
    if usage.Some? && name in usage.value then usage.value[name] else 0
  }
}

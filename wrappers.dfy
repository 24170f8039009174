/** The optional value used throughout the model, and `Math.max`/`Math.min`
    on integers. `None` stands for a missing
    value, JavaScript's `null`/`undefined`, and the `NaN` that `parseInt`
    returns when it finds no digits. */
module Wrappers {

  datatype Option<+T> = None | Some(value: T)

  function Max(x: int, y: int): int { if x < y then y else x }

  function Min(x: int, y: int): int { if x < y then x else y }
}

/** Small vocabulary shared by the other modules. */
module Basics {

  datatype Option<+T> = None | Some(value: T)

  function Max(a: int, b: int): int { if a >= b then a else b }

  function Abs(x: real): real { if x < 0.0 then -x else x }

  function Sum(s: seq<real>): real
  {
    if |s| == 0 then 0.0 else Sum(s[..|s| - 1]) + s[|s| - 1]
  }
}

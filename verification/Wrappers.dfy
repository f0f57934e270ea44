/** Types and helpers shared by the component models. */
module Wrappers {

  datatype Option<+T> = None | Some(value: T)

  type Byte = x: int | 0 <= x < 256

  type Bytes = seq<Byte>

  const NEWLINE: Byte := 10

  function Min(a: int, b: int): int {
    if a <= b then a else b
  }

  function Max(a: int, b: int): int {
    if a <= b then b else a
  }

  function MinReal(a: real, b: real): real {
    if a <= b then a else b
  }

  function Pow2(n: nat): (r: nat)
    ensures r >= 1
  {
    if n == 0 then 1 else 2 * Pow2(n - 1)
  }
}

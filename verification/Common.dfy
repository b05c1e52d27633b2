/** Shared value types: optional results, machine words, and byte strings. */
module Common {

  datatype Option<+T> = None | Some(value: T)

  const TWO_64 := 0x1_0000_0000_0000_0000
  const TWO_256 := TWO_64 * TWO_64 * TWO_64 * TWO_64

  type byte = x: int | 0 <= x < 256
  type u64 = x: int | 0 <= x < TWO_64

  function Min(a: int, b: int): int {
    if a <= b then a else b
  }

  function Max(a: int, b: int): int {
    if a >= b then a else b
  }

  function Magnitude(n: int): nat {
    if n < 0 then -n else n
  }
}

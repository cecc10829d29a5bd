/** Python's `min` and `max` of two integers, used for clamping. */
module MinMax {

  function Min(a: int, b: int): int { if a <= b then a else b }

  function Max(a: int, b: int): int { if a >= b then a else b }
}

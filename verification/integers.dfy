/** C++ arithmetic: 64-bit unsigned values, narrowing to 32 bits, and conversions and divisions that truncate
    toward zero. */
module Integers {
  const U64: int := 0x1_0000_0000_0000_0000

  type U64Value = x: int | 0 <= x < U64

  predicate FitsInt32(x: int) {
    -0x8000_0000 <= x < 0x8000_0000
  }

  function ToInt32(x: int): (r: int)
    ensures FitsInt32(r) && (r == x <==> FitsInt32(x))
  {
    (x + 0x8000_0000) % 0x1_0000_0000 - 0x8000_0000
  }

  function Trunc(x: real): int {
    if x >= 0.0 then x.Floor else -(-x).Floor
  }

  /** Truncation is the floor exactly for non-negative and for whole numbers. */
  lemma TruncIsFloor(x: real)
    ensures Trunc(x) == x.Floor <==> x >= 0.0 || x.Floor as real == x
  {
  }

  lemma TruncMonotone(x: real, y: real)
    requires x <= y
    ensures Trunc(x) <= Trunc(y)
  {
  }

  /** C++ integer division by a positive number. */
  function TruncDiv(a: int, b: int): int
    requires b > 0
  {
    if a >= 0 then a / b else -(-a / b)
  }
}

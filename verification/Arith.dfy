/** Go's arithmetic where it differs from Dafny's. */
module Arith {

  /** Nanoseconds in a second, the unit of every Go `time.Duration` here. */
  const SECOND: int := 1_000_000_000

  function Min(a: int, b: int): int {
    if a <= b then a else b
  }

  function Max(a: int, b: int): int {
    if a >= b then a else b
  }

  /** Integer division that truncates toward zero. */
  function Quot(a: int, b: int): int
    requires b > 0
  {
    if a >= 0 then a / b else -((-a) / b)
  }

  /** Conversion of a float to an integer, which truncates toward zero. */
  function Trunc(x: real): int {
    if x >= 0.0 then x.Floor else -((-x).Floor)
  }

  /** t is x without its fraction. */
  predicate Truncates(x: real, t: int) {
    if x >= 0.0 then t as real <= x < t as real + 1.0 else t as real - 1.0 < x <= t as real
  }

  lemma TruncIsTruncation(x: real, t: int)
    requires Truncates(x, t)
    ensures Trunc(x) == t
  {
  }

  /** The quotient times the divisor is the dividend but for a remainder of the dividend's sign. */
  lemma QuotTruncates(a: int, b: int)
    requires b > 0
    ensures a >= 0 ==> Quot(a, b) * b <= a < Quot(a, b) * b + b
    ensures a <= 0 ==> Quot(a, b) * b - b < a <= Quot(a, b) * b
  {
    if a >= 0 {
      assert a == b * (a / b) + a % b;
    } else {
      assert -a == b * (-a / b) + (-a) % b;
      assert Quot(a, b) * b == -(b * (-a / b));
    }
  }
}

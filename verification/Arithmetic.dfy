/** Small arithmetic that several modules use. */
module Arithmetic {

  function Min(a: int, b: int): (m: int)
    ensures m <= a && m <= b && (m == a || m == b)
  {
    if a <= b then a else b
  }

  function Max(a: int, b: int): (m: int)
    ensures a <= m && b <= m && (m == a || m == b)
  {
    if a < b then b else a
  }

  function Minus(a: nat, b: nat): nat { if a >= b then a - b else 0 }

  lemma Scale(x: nat, y: nat, base: nat)
    requires x <= y
    ensures x * base <= y * base && base * x <= base * y
  {
  }
}

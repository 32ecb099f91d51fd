// Division facts.

module Arithmetic {
  // A quotient and a remainder in range are the quotient and the remainder.
  lemma Quotient(v: int, d: nat, a: int, r: nat)
    requires d > 0 && v == d * a + r && r < d
    ensures v / d == a && v % d == r
  {
    var q, s := v / d, v % d;
    assert d * (a - q) == s - r by { assert d * (a - q) == d * a - d * q; }
    assert a - q >= 1 ==> d * (a - q) >= d;
    assert q - a >= 1 ==> d * (q - a) >= d && d * (q - a) == -(d * (a - q));
  }
}

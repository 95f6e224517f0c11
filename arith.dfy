/** Facts about multiplication and division of naturals that the index arithmetic needs. */
module Arith {

  lemma {:induction false} MulMono(a: nat, b: nat, c: nat)
    ensures a <= b ==> a * c <= b * c
  {
    if c > 0 {
      MulMono(a, b, c - 1);
      assert a * c == a * (c - 1) + a && b * c == b * (c - 1) + b;
    }
  }

  /** Division is the unique quotient with a remainder below the divisor. */
  lemma DivUnique(a: nat, d: nat, q: nat, m: nat)
    requires d > 0 && m < d && a == q * d + m
    ensures a / d == q
  {
    var q' := a / d;
    assert a == q' * d + a % d;
    MulMono(q' + 1, q, d);
    MulMono(q + 1, q', d);
  }

  /** An exact multiple leaves no remainder. */
  lemma ExactMultiple(a: nat, d: nat, q: nat)
    requires d > 0
    ensures a == q * d ==> a % d == 0
  {
    if a == q * d {
      DivUnique(a, d, q, 0);
    }
  }
}

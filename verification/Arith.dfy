/** The few facts about products and quotients that the proofs lean on. */
module Arith {

  lemma Mono(a: nat, b: nat, d: nat)
    requires a <= b
    ensures a * d <= b * d
  {
    assert b * d == a * d + (b - a) * d;
  }

  lemma Sum(a: nat, b: nat, d: nat)
    ensures (a + b) * d == a * d + b * d
  {
  }

  lemma OneMore(a: nat, d: nat)
    ensures (a + 1) * d == a * d + d
  {
  }

  lemma Divided(n: nat, d: nat)
    requires d > 0
    ensures n == (n / d) * d + n % d && n % d < d
  {
  }

  lemma ZeroProduct(a: nat, b: nat)
    ensures a * b == 0 <==> a == 0 || b == 0
  {
  }
}

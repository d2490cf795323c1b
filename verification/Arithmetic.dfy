/** Facts about products and powers that more than one module needs. */
module Arithmetic {

  function Pow2(n: nat): (p: nat)
    ensures p > 0
  {
    if n == 0 then 1 else 2 * Pow2(n - 1)
  }

  lemma BigMultiple(p: int, d: int)
    requires p > 0
    ensures d >= 1 ==> p * d >= p
    ensures d <= -1 ==> p * d <= -p
  {
  }

  lemma ProductQuotient(n: nat, d: int)
    requires n > 0
    ensures (n * d) % n == 0 && (n * d) / n == d
  {
    var p := n * d;
    var q, r := p / n, p % n;
    assert n * (d - q) == r;
    BigMultiple(n, d - q);
  }
}

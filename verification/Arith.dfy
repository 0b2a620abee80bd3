/** Division facts shared by the index computations of several components. */
module Arith {
  function Quotient(n: nat, d: nat): nat
    requires d > 0
  {
    n / d
  }

  lemma DivModUnique(n: int, s: int, q: int, r: int)
    requires s > 0 && 0 <= r < s && n == q * s + r
    ensures n / s == q && n % s == r
  {
    var q', r' := n / s, n % s;
    assert n == q' * s + r' && 0 <= r' < s;
    assert (q' - q) * s == r - r';
    assert q' - q >= 1 ==> (q' - q) * s >= s;
    assert q' - q <= -1 ==> (q' - q) * s <= -s;
  }
}

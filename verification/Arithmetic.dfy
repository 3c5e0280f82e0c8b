/** Truth as a number, the smaller and the larger of two numbers, and the uniqueness of quotient
    and remainder. */
module Arithmetic {
  function Bit(b: bool): nat { if b then 1 else 0 }

  function Min(a: int, b: int): int { if a < b then a else b }

  function Max(a: int, b: int): int { if a < b then b else a }

  lemma Multiple(d: int, k: int)
    requires k >= 0
    ensures d >= 1 ==> d * k >= k
    ensures d <= -1 ==> d * k <= -k
  {}

  lemma DivUnique(x: nat, k: nat, q: nat, m: nat)
    requires k > 0 && x == q * k + m && m < k
    ensures x / k == q && x % k == m
  {
    assert x == (x / k) * k + x % k;
    assert (x / k - q) * k == m - x % k;
    Multiple(x / k - q, k);
  }
}

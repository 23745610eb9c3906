/** The few facts about products and quotients that the proofs use. */
module Arithmetic {

  lemma MulAtLeast(a: int, x: int, y: int)
    requires 0 <= a && x <= y
    ensures a * x <= a * y
  {
  }

  lemma QuotientOrder(x: int, y: int, m: int)
    requires x <= y && m > 0
    ensures x / m <= y / m
  {
    if y / m < x / m {
      MulAtLeast(m, y / m + 1, x / m);
    }
  }

  lemma QuotientBelow(x: int, k: int, m: int)
    requires m > 0 && x < k * m
    ensures x / m < k
  {
    if x / m >= k {
      MulAtLeast(m, k, x / m);
    }
  }

  lemma QuotientAtLeast(x: int, k: int, m: int)
    requires m > 0 && k * m <= x
    ensures k <= x / m
  {
    if x / m < k {
      MulAtLeast(m, x / m + 1, k);
    }
  }
}

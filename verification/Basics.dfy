/** What several components share: optional values, machine word bounds, and Euclidean division. */
module Basics {

  datatype Option<+T> = None | Some(value: T)

  const TWO_63: int := 0x8000_0000_0000_0000
  const TWO_64: int := 0x1_0000_0000_0000_0000

  /** Two's-complement truncation to int64. */
  function Int64(x: int): int {
    var r := x % TWO_64;
    if r >= TWO_63 then r - TWO_64 else r
  }

  lemma Int64Small(x: int)
    requires 0 <= x < TWO_63
    ensures Int64(x) == x
  {}

  /** Quotient and remainder are determined by x == q * k + r with 0 <= r < k. */
  lemma QuotientUnique(x: int, k: int, q: int, r: int)
    requires 0 <= r < k && x == q * k + r
    ensures x / k == q && x % k == r
  {
    var d := x / k - q;
    assert d * k == r - x % k;
    assert d >= 1 ==> d * k >= k;
    assert d <= -1 ==> d * k <= -k;
  }
}

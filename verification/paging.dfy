/** Page-count arithmetic shared by the two paginated views. */
module Paging {

  /** `Math.ceil(n / k)` for a positive page size `k`: the least page count
      whose pages hold `n` items. */
  function CeilDiv(n: int, k: int): (r: int)
    requires k > 0
    ensures (r - 1) * k < n <= r * k
  {
    if n >= 0 then (n + k - 1) / k else -((-n) / k)
  }

  /** The page count is never negative, and it is zero exactly when there is
      nothing to show. */
  lemma CeilDivSign(n: int, k: int)
    requires k > 0
    ensures CeilDiv(n, k) >= 0 <==> n > -k
    ensures n >= 0 ==> (CeilDiv(n, k) == 0 <==> n == 0)
  {
  }
}

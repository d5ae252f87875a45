/** Whole pieces and quotients. */
module Counting {
  /** Whole pieces of `d` needed for `n`, as `insert` and `encode` count them. */
  function Pieces(n: nat, d: nat): nat
    requires 0 < d
  {
    n / d + if n % d != 0 then 1 else 0
  }

  function Shorter(x: nat, y: nat): nat {
    if x < y then x else y
  }

  lemma MulOrder(a: int, b: int, d: nat)
    requires a <= b
    ensures a * d <= b * d
    ensures (a + 1) * d == a * d + d
  {
  }

  lemma QuotientIs(n: nat, d: nat, q: nat, r: nat)
    requires 0 < d && r < d && n == q * d + r
    ensures n / d == q && n % d == r
  {
    var q', r' := n / d, n % d;
    assert q' * d + r' == q * d + r;
    if q' < q {
      MulOrder(q' + 1, q, d);
    } else if q < q' {
      MulOrder(q + 1, q', d);
    }
  }

  /** The count is `k` exactly when `n` ends in the `k`-th piece; both ways the source counts agree. */
  lemma PiecesIs(n: nat, d: nat, k: nat)
    requires 0 < d
    ensures n <= k * d < n + d <==> Pieces(n, d) == k
    ensures (n + (d - 1)) / d == Pieces(n, d)
  {
    var q, r := n / d, n % d;
    assert n == q * d + r;
    if r == 0 {
      assert n + (d - 1) == q * d + (d - 1);
      QuotientIs(n + (d - 1), d, q, d - 1);
    } else {
      assert n + (d - 1) == (q + 1) * d + (r - 1);
      QuotientIs(n + (d - 1), d, q + 1, r - 1);
    }
    var p := Pieces(n, d);
    assert p * d < n + d && n <= p * d;
    if k < p {
      assert k * d <= (p - 1) * d == p * d - d by { MulOrder(k, p - 1, d); }
    } else if k > p {
      assert (p + 1) * d == p * d + d <= k * d by { MulOrder(p + 1, k, d); }
    }
  }

  lemma Distribute(x: nat, y: nat, b: nat)
    ensures (x + y) * b == x * b + y * b
  {
  }

  lemma MulMinus(q: int, p: int, n: nat)
    ensures (q - p) * n == q * n - p * n
  {
  }
}

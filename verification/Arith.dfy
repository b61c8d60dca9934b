/** Division facts the solver does not find on its own. */
module Arith {

  lemma {:induction false} ScaleAtLeast(a: nat, k: nat)
    requires a > 0
    ensures a * k >= k
  {
    if a <= 1 {
    } else {
      ScaleAtLeast(a - 1, k);
      assert a * k == (a - 1) * k + k;
    }
  }

  lemma Quotient(q: nat, r: nat, k: nat)
    requires r < k
    ensures (q * k + r) / k == q && (q * k + r) % k == r
  {
    var n := q * k + r;
    var q', r' := n / k, n % k;
    assert n == q' * k + r' && 0 <= r' < k;
    if q > q' {
      ScaleAtLeast(q - q', k);
    } else if q < q' {
      ScaleAtLeast(q' - q, k);
    }
  }

  lemma NextMultiple(n: nat, k: nat)
    requires k > 0
    ensures (n + 1) / k == n / k + if (n + 1) % k == 0 then 1 else 0
  {
    var q, r := n / k, n % k;
    assert n == q * k + r && 0 <= r < k;
    if r == k - 1 {
      assert n + 1 == (q + 1) * k;
      Quotient(q + 1, 0, k);
    } else {
      Quotient(q, r + 1, k);
    }
  }
}

/** Index arithmetic of an `n x n` matrix stored row by row, as numpy's
    `reshape` and `ravel` lay it out: flat index `k` is row `k / n`, column `k % n`. */
module RowMajor {

  lemma MulLeft(a: int, b: int, n: nat)
    requires a <= b
    ensures a * n <= b * n
  {
  }

  /** Row `r`, column `c` has flat index `r * n + c`, and that index maps back. */
  lemma IndexOf(r: nat, c: nat, n: nat)
    requires r < n && c < n
    ensures r * n + c < n * n
    ensures (r * n + c) / n == r && (r * n + c) % n == c
  {
    MulLeft(r + 1, n, n);
    var k := r * n + c;
    var q, m := k / n, k % n;
    assert k == q * n + m && 0 <= m < n;
    if q < r {
      MulLeft(q + 1, r, n);
      assert false;
    } else if q > r {
      MulLeft(r + 1, q, n);
      assert false;
    }
  }

  /** A slice of one whole row stays inside the matrix. */
  lemma RowSlice(r: nat, n: nat)
    requires r < n
    ensures r * n + n <= n * n
  {
    MulLeft(r + 1, n, n);
  }

  /** Row-major order on positions is order on flat indices. */
  lemma Position(r1: nat, c1: nat, r2: nat, c2: nat, n: nat)
    requires c1 < n && c2 < n
    requires r1 < r2 || (r1 == r2 && c1 <= c2)
    ensures r1 * n + c1 <= r2 * n + c2
  {
    if r1 < r2 {
      MulLeft(r1 + 1, r2, n);
    }
  }
}

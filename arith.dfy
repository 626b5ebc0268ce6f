/** Facts about integer multiplication and Euclidean division used by the grid index proofs. */
module Arith {

  lemma DivModOf(k: int, q: int, j: int, h: int)
    requires h > 0 && 0 <= j < h && k == q * h + j
    ensures k / h == q && k % h == j
  {
    var q', j' := k / h, k % h;
    assert q' * h + j' == k;
    assert (q - q') * h == j' - j;
    if q > q' {
      MulAtLeast(q - q', h);
    } else if q < q' {
      MulAtLeast(q' - q, h);
    }
  }

  lemma MulAtLeast(a: int, h: int)
    requires a >= 1 && h > 0
    ensures a * h >= h
  {
    assert a * h == (a - 1) * h + h;
    assert (a - 1) * h >= 0;
  }

  /**
   * In a grid of w runs of h entries each, entry k belongs to run k / h at
   * position k % h, both in range, and is found again from them.
   */
  lemma IndexInGrid(k: int, w: nat, h: nat)
    requires 0 <= k < w * h
    ensures h > 0 && 0 <= k / h < w && 0 <= k % h < h
    ensures k == (k / h) * h + k % h
  {
    assert h > 0;
    if k / h >= w {
      MulLe(w, k / h, h);
    }
  }

  lemma MulSucc(a: int, b: int)
    ensures (a + 1) * b == a * b + b
  {
  }

  lemma MulLe(a: int, b: int, h: int)
    requires a <= b && h >= 0
    ensures a * h <= b * h
  {
    assert b * h - a * h == (b - a) * h;
  }
}

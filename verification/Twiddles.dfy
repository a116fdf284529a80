/** The table that fix_fft reads its factors from. */
module Twiddles {
  import opened Indexes

  /** sine_table: three quarters of a period of N = 2^log2 samples. */
  function TableLength(log2: nat): nat {
    Pow2(log2) * 3 / 4
  }

  lemma Product(m: nat, n: nat, d: nat)
    requires m < n
    ensures 0 <= m * d <= n * d - d
  {
    assert (n - 1 - m) * d >= 0;
    assert (n - 1 - m) * d == n * d - d - m * d;
  }

  /** Every index into the table is in the first three quarters, and the sine is read in the first half. */
  lemma TwiddleInTable(log2: nat, q: nat, m: nat)
    requires q < log2 && m < Pow2(q)
    ensures 0 <= m * Pow2(log2 - 1 - q) < Pow2(log2 - 1)
    ensures m * Pow2(log2 - 1 - q) + Pow2(log2) / 4 < TableLength(log2)
  {
    var d := log2 - 1 - q;
    Pow2Add(q, d);
    assert Pow2(log2) == 2 * Pow2(log2 - 1);
    Product(m, Pow2(q), Pow2(d));
    if log2 > 1 {
      assert Pow2(log2 - 1) == 2 * Pow2(log2 - 2);
    }
  }

  /** The sine that is read for lane m when blocks of 2^q are joined; the cosine is a quarter further on. */
  function SineAt(log2: nat, q: nat, m: nat): (j: nat)
    requires q < log2 && m < Pow2(q)
    ensures j < Pow2(log2 - 1) && j + Pow2(log2) / 4 < TableLength(log2)
  {
    TwiddleInTable(log2, q, m);
    m * Pow2(log2 - 1 - q)
  }
}

/** Powers of two, and indexes taken apart into a block and a place in it. */
module Indexes {
  function Pow2(k: nat): (n: nat)
    ensures n >= 1
  {
    if k == 0 then 1 else 2 * Pow2(k - 1)
  }

  lemma {:induction false} Pow2Add(i: nat, j: nat)
    ensures Pow2(i + j) == Pow2(i) * Pow2(j)
  {
    if i > 0 {
      Pow2Add(i - 1, j);
    }
  }

  lemma {:induction false} Pow2Grows(i: nat, j: nat)
    ensures i <= j <==> Pow2(i) <= Pow2(j)
    decreases i + j
  {
    if i > 0 && j > 0 {
      Pow2Grows(i - 1, j - 1);
    }
  }

  lemma Multiples(d: int, l: nat)
    ensures d >= 1 ==> d * l >= l
    ensures d <= -1 ==> d * l + l <= 0
  {
    if d >= 1 {
      assert d * l == (d - 1) * l + l;
    } else if d <= -1 {
      assert d * l == (d + 1) * l - l;
    }
  }

  lemma DropMultiple(t: nat, l: nat, r: nat)
    requires r < l
    ensures (t * l + r) % l == r
  {
    var x := t * l + r;
    var d := x / l - t;
    assert x == l * (x / l) + x % l;
    assert d * l == (x / l) * l - t * l;
    Multiples(d, l);
  }

  /** The remainder, as a function that is unfolded only where its value matters. */
  function Rem(i: nat, n: nat): (r: nat)
    requires n >= 1
    ensures r < n && r <= i
  {
    i % n
  }

  function Div(i: nat, n: nat): nat
    requires n >= 1
  {
    i / n
  }

  /** c * n + r is place r of block c, and nothing else is. */
  lemma Place(c: nat, n: nat, r: nat)
    requires r < n
    ensures c * n >= 0 && Rem(c * n + r, n) == r && Div(c * n + r, n) == c
  {
    DropMultiple(c, n, r);
    var x := c * n + r;
    assert x == n * (x / n) + x % n;
    assert (x / n - c) * n == n * (x / n) - c * n;
    Multiples(x / n - c, n);
  }

  lemma Placed(i: nat, n: nat)
    requires n >= 1
    ensures i == Div(i, n) * n + Rem(i, n)
  {
  }

  /** The two halves of the block of 2 * l that i is in. */
  lemma Halves(i: nat, l: nat)
    requires l >= 1
    ensures var r := Rem(i, 2 * l);
      if r < l then Rem(i, l) == r && Rem(i + l, l) == r
      else Rem(i, l) == r - l && Rem(i - l, l) == r - l
  {
    hide Rem, Div;
    Placed(i, 2 * l);
    var b, r := Div(i, 2 * l), Rem(i, 2 * l);
    assert (2 * b) * l == b * (2 * l) && (2 * b + 1) * l == b * (2 * l) + l;
    if r < l {
      Place(2 * b, l, r);
      Place(2 * b + 1, l, r);
    } else {
      Place(2 * b, l, r - l);
      Place(2 * b + 1, l, r - l);
    }
  }

  /** Among whole blocks, an index is in one of them and so is the end of its block. */
  lemma InRange(i: nat, n: nat, c: nat)
    requires n >= 1 && i < c * n
    ensures Div(i, n) < c && i - Rem(i, n) + n <= c * n
  {
    hide Rem, Div;
    Placed(i, n);
    assert (c - Div(i, n)) * n == c * n - Div(i, n) * n;
    Multiples(c - Div(i, n), n);
    Multiples(c - Div(i, n) - 1, n);
    assert (c - Div(i, n) - 1) * n == c * n - Div(i, n) * n - n;
  }

  lemma DivIs(a: nat, n: nat, q: int)
    requires n >= 1
    ensures q * n <= a ==> q <= Div(a, n)
    ensures a < (q + 1) * n ==> Div(a, n) <= q
  {
    hide Div, Rem;
    Placed(a, n);
    var d := q - Div(a, n);
    assert d * n == q * n - Div(a, n) * n && (d + 1) * n == d * n + n && (q + 1) * n == q * n + n;
    Multiples(d, n);
    Multiples(d + 1, n);
  }
}

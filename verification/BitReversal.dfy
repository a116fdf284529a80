/** The first half of fix_fft: counting with the carry going the wrong way, and the swaps that
    put every sample where its bit-reversed index says. */
module BitReversal {
  import opened Indexes
  import opened Samples

  /** The low p bits of k, in reverse order. */
  function Rev(p: nat, k: nat): (r: nat)
    ensures r < Pow2(p)
  {
    if p == 0 then 0 else (if k % 2 == 1 then Pow2(p - 1) else 0) + Rev(p - 1, k / 2)
  }

  /** The same, taking k apart from its top bit. */
  lemma {:induction false} RevFromTop(p: nat, k: nat)
    requires k < Pow2(p)
    ensures Rev(p + 1, k) == 2 * Rev(p, k)
    ensures Rev(p + 1, k + Pow2(p)) == 2 * Rev(p, k) + 1
  {
    if p == 0 {
      assert Rev(1, k) == 0 && Rev(1, k + 1) == 1;
    } else {
      RevFromTop(p - 1, k / 2);
      assert (k + Pow2(p)) / 2 == k / 2 + Pow2(p - 1) && (k + Pow2(p)) % 2 == k % 2;
    }
  }

  lemma {:induction false} RevInvolution(p: nat, k: nat)
    requires k < Pow2(p)
    ensures Rev(p, Rev(p, k)) == k
  {
    if p > 0 {
      RevInvolution(p - 1, k / 2);
      RevFromTop(p - 1, Rev(p - 1, k / 2));
    }
  }

  /** Adding one at the top with the carry going down: what the loop over l does to mr. */
  function Carried(p: nat, mr: nat): (r: nat) {
    if p == 0 then 0
    else if mr < Pow2(p - 1) then mr + Pow2(p - 1)
    else Carried(p - 1, mr - Pow2(p - 1))
  }

  lemma {:induction false} CarriedIsRev(p: nat, m: nat)
    requires 0 < m < Pow2(p)
    ensures Carried(p, Rev(p, m - 1)) == Rev(p, m)
  {
    if m % 2 == 1 {
      assert (m - 1) / 2 == m / 2;
    } else {
      assert (m - 1) / 2 == m / 2 - 1 && (m - 1) % 2 == 1;
      CarriedIsRev(p - 1, m / 2);
    }
  }

  /** A carry can always come to rest, unless every bit is set. */
  lemma {:induction false} OnlyLastIsFull(p: nat, m: nat)
    requires m < Pow2(p)
    ensures Rev(p, m) == Pow2(p) - 1 <==> m == Pow2(p) - 1
  {
    if p > 0 {
      OnlyLastIsFull(p - 1, m / 2);
    }
  }

  lemma DropMultiples(u: nat, l: nat, x: nat)
    requires u >= 2 && u * l - 2 * l <= x < u * l - l
    ensures x % l == x - (u * l - 2 * l)
  {
    var t := u - 2;
    assert t * l == u * l - 2 * l;
    DropMultiple(t, l, x - t * l);
  }

  /** Below the bits that the carry has cleared, all of them at the top. */
  lemma BelowCleared(p: nat, q: nat, mr: nat)
    requires q < p && Pow2(p) - 2 * Pow2(q) <= mr < Pow2(p) - Pow2(q)
    ensures mr % Pow2(q) == mr - (Pow2(p) - 2 * Pow2(q))
  {
    Pow2Add(p - q, q);
    assert Pow2(p - q) >= 2;
    hide Pow2;
    DropMultiples(Pow2(p - q), Pow2(q), mr);
  }

  /** The inner loop finds a bit l >= 1, and replacing mr by (mr mod l) + l is the carried increment. */
  method NextReversed(p: nat, mr: nat, ghost m: nat) returns (next: nat)
    requires 0 < m < Pow2(p) && mr == Rev(p, m - 1)
    ensures next == Rev(p, m)
  {
    hide Rev;
    var nn := Pow2(p) - 1;
    OnlyLastIsFull(p, m - 1);
    CarriedIsRev(p, m);
    var l := Pow2(p) / 2;
    ghost var q: nat := p - 1;
    while mr + l > nn
      invariant q < p && l == Pow2(q)
      invariant Pow2(p) - 2 * l <= mr < Pow2(p) - 1
      invariant Carried(q + 1, mr - (Pow2(p) - 2 * l)) == Rev(p, m)
      decreases l
    {
      l := l / 2;
      q := q - 1;
    }
    BelowCleared(p, q, mr);
    next := mr % l + l;
  }

  // ---------------------------------------------------------------- the swaps

  function BitReversed<T>(p: nat, x: seq<T>): (y: seq<T>)
    requires |x| == Pow2(p)
    ensures |y| == |x| && forall k :: 0 <= k < |y| ==> y[k] == x[Rev(p, k)]
  {
    seq(|x|, k requires 0 <= k < |x| => x[Rev(p, k)])
  }

  lemma BitReversedTwice<T>(p: nat, x: seq<T>)
    requires |x| == Pow2(p)
    ensures BitReversed(p, BitReversed(p, x)) == x
  {
    forall k | 0 <= k < |x|
      ensures BitReversed(p, BitReversed(p, x))[k] == x[k]
    {
      RevInvolution(p, k);
    }
  }

  /** Halfway through: the indexes up to m, and their reversals, have been dealt with. */
  ghost predicate Halfway(p: nat, x: seq<Point>, m: nat, y: seq<Point>)
    requires |x| == Pow2(p)
  {
    |y| == |x| && forall k :: 0 <= k < |x| ==> y[k] == if k <= m || Rev(p, k) <= m then x[Rev(p, k)] else x[k]
  }

  method SwapPoints(iq: array<int>, a: nat, b: nat)
    requires 2 * a + 1 < iq.Length && 2 * b + 1 < iq.Length
    modifies iq
    ensures Points(iq[..]) == old(Points(iq[..])[a := Points(iq[..])[b]][b := Points(iq[..])[a]])
  {
    ghost var x := iq[..];
    iq[2 * a], iq[2 * b] := iq[2 * b], iq[2 * a];
    iq[2 * a + 1], iq[2 * b + 1] := iq[2 * b + 1], iq[2 * a + 1];
    SwappedPoints(x, iq[..], a, b);
  }

  lemma SwappedPoints(x: seq<int>, y: seq<int>, a: nat, b: nat)
    requires |x| == |y| && 2 * a + 1 < |x| && 2 * b + 1 < |x|
    requires y == x[2 * a := x[2 * b]][2 * b := x[2 * a]][2 * a + 1 := x[2 * b + 1]][2 * b + 1 := x[2 * a + 1]]
    ensures Points(y) == Points(x)[a := Points(x)[b]][b := Points(x)[a]]
  {
  }

  lemma SwapStep(p: nat, x: seq<Point>, m: nat, y: seq<Point>)
    requires |x| == Pow2(p) && 0 < m < |x| && Halfway(p, x, m - 1, y)
    ensures var r := Rev(p, m); Halfway(p, x, m, if r <= m then y else y[m := y[r]][r := y[m]])
  {
    var r := Rev(p, m);
    RevInvolution(p, m);
    forall k | 0 <= k < |x| && (Rev(p, k) == m || Rev(p, k) == r)
      ensures (Rev(p, k) == m <==> k == r) && (Rev(p, k) == r <==> k == m)
    {
      RevInvolution(p, k);
      RevInvolution(p, r);
    }
  }

  lemma HalfwayFirst(p: nat, x: seq<Point>)
    requires |x| == Pow2(p)
    ensures Halfway(p, x, 0, x)
  {
    RevZero(p);
  }

  lemma HalfwayLast(p: nat, x: seq<Point>, y: seq<Point>)
    requires |x| == Pow2(p) && Halfway(p, x, |x| - 1, y)
    ensures y == BitReversed(p, x)
  {
    hide Rev;
  }

  method ReorderData(iq: array<int>, p: nat)
    requires iq.Length == 2 * Pow2(p)
    modifies iq
    ensures Points(iq[..]) == BitReversed(p, old(Points(iq[..])))
  {
    hide *;
    ghost var x := Points(iq[..]);
    var mr, n := 0, Pow2(p);
    RevZero(p);
    HalfwayFirst(p, x);
    for m := 1 to n
      invariant mr == Rev(p, m - 1)
      invariant Halfway(p, x, m - 1, Points(iq[..]))
    {
      mr := NextReversed(p, mr, m);
      SwapStep(p, x, m, Points(iq[..]));
      if mr > m {
        SwapPoints(iq, m, mr);
      }
    }
    HalfwayLast(p, x, Points(iq[..]));
  }

  lemma {:induction false} RevZero(p: nat)
    ensures Rev(p, 0) == 0
    ensures forall k :: 0 <= k < Pow2(p) && Rev(p, k) == 0 ==> k == 0
  {
    if p > 0 {
      RevZero(p - 1);
    }
  }
}

/** The droop compensation of rtl_ais on nine samples, and when its sums fit 32 bits. */
module DroopSums {
  import opened Bytes

  /** The sum of the compensation after its first n terms. */
  function DroopSum(fir: seq<int>, w: seq<int>, n: nat): int
    requires |fir| >= 6 && |w| == 9 && n <= 5
  {
    (if n >= 1 then (w[0] + w[8]) * fir[1] else 0) + (if n >= 2 then (w[1] + w[7]) * fir[2] else 0)
    + (if n >= 3 then (w[2] + w[6]) * fir[3] else 0) + (if n >= 4 then (w[3] + w[5]) * fir[4] else 0)
    + (if n >= 5 then w[4] * fir[5] else 0)
  }

  /** The droop compensation: a symmetric filter over nine samples. */
  function Droop(fir: seq<int>, w: seq<int>): int
    requires |fir| >= 6 && |w| == 9
  {
    Int16(DroopSum(fir, w, 5) / 32768)
  }

  /** What is added up is the convolution with nine taps that are the same from both ends. */
  lemma DroopIsSymmetric(fir: seq<int>, w: seq<int>)
    requires |fir| == 10 && |w| == 9 && forall k :: 1 <= k <= 9 ==> fir[k] == fir[10 - k]
    ensures DroopSum(fir, w, 5) == fir[1] * w[0] + fir[2] * w[1] + fir[3] * w[2] + fir[4] * w[3] + fir[5] * w[4]
      + fir[6] * w[5] + fir[7] * w[6] + fir[8] * w[7] + fir[9] * w[8]
  {
    assert fir[6] == fir[4] && fir[7] == fir[3] && fir[8] == fir[2] && fir[9] == fir[1];
    SumTimes(w[0], w[8], fir[1]);
    SumTimes(w[1], w[7], fir[2]);
    SumTimes(w[2], w[6], fir[3]);
    SumTimes(w[3], w[5], fir[4]);
  }

  lemma SumTimes(x: int, y: int, f: int)
    ensures (x + y) * f == f * x + f * y
  {
  }

  /** The result is the sum divided by 2^15 and rounded down, as long as that fits 16 bits. */
  lemma DroopRoundsDown(fir: seq<int>, w: seq<int>)
    requires |fir| >= 6 && |w| == 9 && Fits32(DroopSum(fir, w, 5) * 2)
    ensures 0 <= DroopSum(fir, w, 5) - 32768 * Droop(fir, w) < 32768
  {
    hide DroopSum;
  }

  // ---------------------------------------------------------------- 32 bits

  function Abs(x: int): nat { if x >= 0 then x else -x }

  function Weight(fir: seq<int>): nat
    requires |fir| >= 6
  {
    2 * Abs(fir[1]) + 2 * Abs(fir[2]) + 2 * Abs(fir[3]) + 2 * Abs(fir[4]) + Abs(fir[5])
  }

  lemma TermBounded(x: int, f: int, bound: int)
    requires bound >= 0 && -bound <= x <= bound
    ensures -(bound * Abs(f)) <= x * f <= bound * Abs(f)
  {
    NotNegative(bound - x, Abs(f));
    NotNegative(bound + x, Abs(f));
    assert (bound - x) * Abs(f) == bound * Abs(f) - x * Abs(f) && (bound + x) * Abs(f) == bound * Abs(f) + x * Abs(f);
    assert x * Abs(f) == x * f || x * Abs(f) == -(x * f);
  }

  lemma NotNegative(m: nat, n: nat)
    ensures m * n >= 0
  {
  }

  lemma SumBounded(fir: seq<int>, w: seq<int>, n: nat, bound: nat)
    requires |fir| >= 6 && |w| == 9 && n <= 5 && Bounded(w, bound)
    ensures -(bound * Weight(fir)) <= DroopSum(fir, w, n) <= bound * Weight(fir)
  {
    var f1, f2, f3, f4, f5 := Abs(fir[1]), Abs(fir[2]), Abs(fir[3]), Abs(fir[4]), Abs(fir[5]);
    TermBounded(w[0] + w[8], fir[1], 2 * bound);
    TermBounded(w[1] + w[7], fir[2], 2 * bound);
    TermBounded(w[2] + w[6], fir[3], 2 * bound);
    TermBounded(w[3] + w[5], fir[4], 2 * bound);
    TermBounded(w[4], fir[5], bound);
    FiveTerms(bound, f1, f2, f3, f4, f5);
    hide Abs, Bounded;
  }

  lemma FiveTerms(b: nat, f1: nat, f2: nat, f3: nat, f4: nat, f5: nat)
    ensures b * (2 * f1 + 2 * f2 + 2 * f3 + 2 * f4 + f5)
      == (2 * b) * f1 + (2 * b) * f2 + (2 * b) * f3 + (2 * b) * f4 + b * f5
    ensures (2 * b) * f1 >= 0 && (2 * b) * f2 >= 0 && (2 * b) * f3 >= 0 && (2 * b) * f4 >= 0 && b * f5 >= 0
  {
  }

  /** Samples with the signs of the taps. */
  function Worst(fir: seq<int>, bound: nat): (w: seq<int>)
    requires |fir| >= 6
    ensures |w| == 9 && Bounded(w, bound)
  {
    var s := (k: nat) requires k < |fir| => Signed(fir[k], bound);
    [s(1), s(2), s(3), s(4), s(5), s(4), s(3), s(2), s(1)]
  }

  function Signed(f: int, bound: int): int {
    if f >= 0 then bound else -bound
  }

  lemma SignedTerm(f: int, bound: nat)
    ensures Signed(f, bound) * f == bound * Abs(f)
    ensures (Signed(f, bound) + Signed(f, bound)) * f == (2 * bound) * Abs(f)
  {
  }

  lemma WorstSum(fir: seq<int>, bound: nat)
    requires |fir| >= 6
    ensures DroopSum(fir, Worst(fir, bound), 5) == bound * Weight(fir)
  {
    SignedTerm(fir[1], bound);
    SignedTerm(fir[2], bound);
    SignedTerm(fir[3], bound);
    SignedTerm(fir[4], bound);
    SignedTerm(fir[5], bound);
    FiveTerms(bound, Abs(fir[1]), Abs(fir[2]), Abs(fir[3]), Abs(fir[4]), Abs(fir[5]));
    hide Abs;
  }

  /** No sum of the compensation leaves 32 bits. */
  ghost predicate SumsFit(fir: seq<int>, bound: nat)
    requires |fir| >= 6
  {
    forall w: seq<int>, n: nat :: |w| == 9 && Bounded(w, bound) && n <= 5 ==> Fits32(DroopSum(fir, w, n))
  }

  /** The sums of the compensation fit 32 bits for all samples up to a bound if and only if the
      weight of the taps times the bound does. */
  lemma SumsFitIff(fir: seq<int>, bound: nat)
    requires |fir| >= 6
    ensures SumsFit(fir, bound) <==> Fits32(bound * Weight(fir))
  {
    hide DroopSum, Weight, Worst, Bounded;
    assert |Worst(fir, bound)| == 9;
    WorstSum(fir, bound);
    if Fits32(bound * Weight(fir)) {
      forall w: seq<int>, n: nat | |w| == 9 && Bounded(w, bound) && n <= 5
        ensures Fits32(DroopSum(fir, w, n))
      {
        SumBounded(fir, w, n, bound);
      }
    }
  }

  /** The taps for 0 to 10 passes; the first entry is their number. */
  const CIC_9_TABLES: seq<seq<int>> := [
    [0, 0, 0, 0, 0, 0, 0, 0, 0, 0],
    [9, -156, -97, 2798, -15489, 61019, -15489, 2798, -97, -156],
    [9, -128, -568, 5593, -24125, 74126, -24125, 5593, -568, -128],
    [9, -129, -639, 6187, -26281, 77511, -26281, 6187, -639, -129],
    [9, -122, -612, 6082, -26353, 77818, -26353, 6082, -612, -122],
    [9, -120, -602, 6015, -26269, 77757, -26269, 6015, -602, -120],
    [9, -120, -582, 5951, -26128, 77542, -26128, 5951, -582, -120],
    [9, -119, -580, 5931, -26094, 77505, -26094, 5931, -580, -119],
    [9, -119, -578, 5921, -26077, 77484, -26077, 5921, -578, -119],
    [9, -119, -577, 5917, -26067, 77473, -26067, 5917, -577, -119],
    [9, -199, -362, 5303, -25505, 77489, -25505, 5303, -362, -199]
  ]

  lemma TableWeights(p: nat)
    requires p < |CIC_9_TABLES|
    ensures |CIC_9_TABLES[p]| == 10 && Weight(CIC_9_TABLES[p]) <= 144156
    ensures p == 4 ==> Weight(CIC_9_TABLES[p]) == 144156
  {
  }

  /** Each table is the same from both ends; the gain for a constant and the second moment of its taps. */
  lemma TableGains(p: nat)
    requires p < |CIC_9_TABLES|
    ensures var f := CIC_9_TABLES[p];
      && |f| == 10 && f[9] == f[1] && f[8] == f[2] && f[7] == f[3] && f[6] == f[4]
      && f[1] + f[2] + f[3] + f[4] + f[5] + f[6] + f[7] + f[8] + f[9]
        == [0, 35131, 35670, 35787, 35808, 35805, 35784, 35781, 35778, 35781, 35963][p]
      && f[1] + 4 * f[2] + 9 * f[3] + 16 * f[4] + 25 * f[5] + 36 * f[6] + 49 * f[7] + 64 * f[8] + 81 * f[9]
        == [0, 862943, 873924, 875979, 876230, 876031, 875636, 875537, 875452, 875533, 877605][p]
  {
  }

  ghost predicate TableFits(p: nat, bound: nat) {
    p < |CIC_9_TABLES| && |CIC_9_TABLES[p]| == 10 && SumsFit(CIC_9_TABLES[p], bound)
  }

  /** With these taps that is so for samples up to 14896, and for no larger bound. */
  lemma TablesFitIff(bound: nat)
    ensures (forall p :: 0 <= p <= 10 ==> TableFits(p, bound)) <==> bound <= 14896
  {
    hide SumsFit, Weight;
    assert |CIC_9_TABLES| == 11;
    if bound <= 14896 {
      forall p | 0 <= p <= 10
        ensures TableFits(p, bound)
      {
        TableFitsUpTo(p, bound);
      }
    } else {
      TableFitsUpTo(4, bound);
      assert !TableFits(4, bound);
    }
  }

  lemma TableFitsUpTo(p: nat, bound: nat)
    requires p <= 10
    ensures bound <= 14896 ==> TableFits(p, bound)
    ensures p == 4 && TableFits(p, bound) ==> bound <= 14896
  {
    hide SumsFit, Weight;
    TableWeights(p);
    SumsFitIff(CIC_9_TABLES[p], bound);
    LessWeight(bound, Weight(CIC_9_TABLES[p]), 144156);
  }

  lemma LessWeight(bound: nat, weight: nat, most: nat)
    requires weight <= most == 144156
    ensures Fits32(bound * most) <==> bound <= 14896
    ensures 0 <= bound * weight <= bound * most
  {
    NotNegative(bound, most - weight);
    NotNegative(bound, weight);
    assert bound * most == bound * weight + bound * (most - weight);
  }
}

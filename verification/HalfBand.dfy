/** What the half-band filter of fifth_order computes: its weights are the fifth row of Pascal's
    triangle, so it adds up neighbours five times and divides by 16. */
module HalfBand {
  import opened Bytes
  import opened Downsample

  function Neighbours(s: seq<int>): (t: seq<int>)
    requires |s| > 0
    ensures |t| == |s| - 1 && forall i :: 0 <= i < |t| ==> t[i] == s[i] + s[i + 1]
  {
    seq(|s| - 1, i requires 0 <= i < |s| - 1 => s[i] + s[i + 1])
  }

  /** The last of n successive sums of neighbours. */
  function Sums(s: seq<int>, n: nat): (t: seq<int>)
    requires n < |s|
    ensures |t| == |s| - n
  {
    if n == 0 then s else Neighbours(Sums(s, n - 1))
  }

  lemma FifthRow(w: seq<int>)
    requires |w| == 6
    ensures Sums(w, 5) == [w[0] + 5 * w[1] + 10 * w[2] + 10 * w[3] + 5 * w[4] + w[5]]
  {
    hide Sums, Neighbours;
    var a := NextSums(w, 0);
    var b := NextSums(w, 1);
    var c := NextSums(w, 2);
    var d := NextSums(w, 3);
    var e := NextSums(w, 4);
    NoSums(w);
    assert e[0] == d[0] + d[1] == c[0] + 2 * c[1] + c[2];
    assert c[0] + 2 * c[1] + c[2] == b[0] + 3 * b[1] + 3 * b[2] + b[3];
    assert b[0] + 3 * b[1] + 3 * b[2] + b[3] == a[0] + 4 * a[1] + 6 * a[2] + 4 * a[3] + a[4];
  }

  lemma NoSums(s: seq<int>)
    requires |s| > 0
    ensures Sums(s, 0) == s
  {
  }

  lemma NextSums(s: seq<int>, n: nat) returns (t: seq<int>)
    requires n + 1 < |s|
    ensures t == Sums(s, n + 1) && |t| == |s| - n - 1
    ensures forall i :: 0 <= i < |t| ==> t[i] == Sums(s, n)[i] + Sums(s, n)[i + 1]
  {
    t := Neighbours(Sums(s, n));
  }

  /** Each output, before it is cut to 16 bits, is a 16th of five successive sums, rounded down. */
  lemma TapIsPascal(w: seq<int>)
    requires |w| == 6
    ensures exists v :: 0 <= Sums(w, 5)[0] - 16 * v < 16 && Tap(w) == Int16(v)
    ensures -16 * 32768 <= Sums(w, 5)[0] < 16 * 32768 ==> 0 <= Sums(w, 5)[0] - 16 * Tap(w) < 16
  {
    FifthRow(w);
    hide Sums;
    var sum := Sums(w, 5)[0];
    assert Tap(w) == Int16(sum / 16);
    assert 0 <= sum - 16 * (sum / 16) < 16;
  }

  /** Zeros except for a 16 at j. */
  predicate Impulse(x: seq<int>, j: nat) {
    j < |x| && x[j] == 16 && forall k :: 0 <= k < |x| && k != j ==> x[k] == 0
  }

  /** The response to a 16: from the output for the sample itself on, every second number of the row. */
  lemma ImpulseResponse(hist: seq<int>, x: seq<int>, j: nat, m: nat)
    requires |hist| == 6 && (forall k :: 0 <= k < 6 ==> hist[k] == 0) && Impulse(x, j) && m < (|x| + 1) / 2
    ensures Halved(hist, x)[m] == if 0 <= 2 * m - j <= 5 then [1, 5, 10, 10, 5, 1][2 * m - j] else 0
  {
    var y := hist[1..] + x;
    var w := y[2 * m..2 * m + 6];
    assert Halved(hist, x)[m] == Tap(w);
    assert forall k :: 0 <= k < 6 ==> w[k] == if 2 * m + k == 5 + j then 16 else 0;
    var at := 5 - (2 * m - j);
    assert forall k :: 0 <= k < 6 ==> w[k] == if k == at then 16 else 0;
    TapOfImpulse(w, at);
  }

  lemma TapOfImpulse(w: seq<int>, at: int)
    requires |w| == 6 && forall k :: 0 <= k < 6 ==> w[k] == if k == at then 16 else 0
    ensures Tap(w) == if 0 <= at <= 5 then [1, 5, 10, 10, 5, 1][5 - at] else 0
  {
    var sum := (w[0] + (w[1] + w[4]) * 5 + (w[2] + w[3]) * 10 + w[5]);
    assert sum == 16 * (if 0 <= at <= 5 then [1, 5, 10, 10, 5, 1][5 - at] else 0);
  }
}

/** demodulate: the discriminator of each sample and the one before, with the last sample of a
    block kept for the next one. What the discriminator computes does not matter here. */
module Demodulate {
  import opened Blocks
  import opened Bytes
  import opened Samples

  /** The discriminator of a sample and its predecessor. */
  type Disc = (int, int, int, int) -> int

  function Phase(disc: Disc, p: Point, previous: Point): int {
    Int16(disc(p.re, p.im, previous.re, previous.im))
  }

  /** Output k is that of samples k and k - 1 of the whole input, pre being the one before it. */
  function Phases(disc: Disc, pre: Point, x: seq<Point>): (out: seq<int>)
    ensures |out| == |x|
  {
    seq(|x|, k requires 0 <= k < |x| => Phase(disc, x[k], if k == 0 then pre else x[k - 1]))
  }

  /** The discriminator gets the sample first and the one before it after that. */
  lemma SampleThenPrevious(pre: Point, x: seq<Point>, k: nat)
    requires 0 < k < |x|
    ensures Phases((ar, aj, br, bj) => ar, pre, x)[k] == Int16(x[k].re)
    ensures Phases((ar, aj, br, bj) => aj, pre, x)[k] == Int16(x[k].im)
    ensures Phases((ar, aj, br, bj) => br, pre, x)[k] == Int16(x[k - 1].re)
    ensures Phases((ar, aj, br, bj) => bj, pre, x)[k] == Int16(x[k - 1].im)
  {
  }

  function Last(pre: Point, x: seq<Point>): Point {
    if x == [] then pre else x[|x| - 1]
  }

  /** The outputs of blocks that are demodulated one after the other. */
  function BlockByBlock(disc: Disc, pre: Point, blocks: seq<seq<Point>>): seq<int>
    decreases |blocks|
  {
    if blocks == [] then []
    else Phases(disc, pre, blocks[0]) + BlockByBlock(disc, Last(pre, blocks[0]), blocks[1..])
  }

  /** Any way to cut the input gives the same outputs. */
  lemma {:induction false} BlocksDoNotMatter(disc: Disc, pre: Point, blocks: seq<seq<Point>>)
    ensures BlockByBlock(disc, pre, blocks) == Phases(disc, pre, Joined(blocks))
    decreases |blocks|
  {
    if blocks != [] {
      BlocksDoNotMatter(disc, Last(pre, blocks[0]), blocks[1..]);
      PhasesSplit(disc, pre, blocks[0], Joined(blocks[1..]));
    }
  }

  lemma PhasesSplit(disc: Disc, pre: Point, x: seq<Point>, y: seq<Point>)
    ensures Phases(disc, pre, x + y) == Phases(disc, pre, x) + Phases(disc, Last(pre, x), y)
  {
    hide Phase;
  }

  class DemodState {
    const buf: array<int>
    const result: array<int>
    var bufLen: nat
    var preR: int
    var preJ: int

    constructor (buf: array<int>, result: array<int>)
      ensures this.buf == buf && this.result == result && bufLen == 0 && preR == preJ == 0
    {
      this.buf, this.result, bufLen, preR, preJ := buf, result, 0, 0, 0;
    }

    method Demodulate(disc: Disc)
      requires 2 <= bufLen <= buf.Length && bufLen % 2 == 0 && bufLen / 2 <= result.Length && buf != result
      modifies this`preR, this`preJ, result
      ensures var x := Points(buf[..bufLen]);
        && result[..bufLen / 2] == Phases(disc, old(Point(preR, preJ)), x)
        && Point(preR, preJ) == Last(old(Point(preR, preJ)), x)
      ensures result[bufLen / 2..] == old(result[bufLen / 2..])
    {
      hide Int16, Phase, Phases, Points;
      ghost var s, pre := buf[..bufLen], Point(preR, preJ);
      ghost var x := Points(s);
      PhaseAt(disc, pre, s, 0);
      result[0] := Int16(disc(buf[0], buf[1], preR, preJ));
      var i := 2;
      ghost var k := 1;
      while i < bufLen - 1
        invariant i == 2 * k && 1 <= k <= |x| && Point(preR, preJ) == pre && buf[..bufLen] == s
        invariant result[..k] == Phases(disc, pre, x)[..k]
        invariant result[bufLen / 2..] == old(result[bufLen / 2..])
      {
        PhaseAt(disc, pre, s, k);
        assert s[i] == buf[i] && s[i + 1] == buf[i + 1] && s[i - 2] == buf[i - 2] && s[i - 1] == buf[i - 1];
        result[i / 2] := Int16(disc(buf[i], buf[i + 1], buf[i - 2], buf[i - 1]));
        i := i + 2;
        k := k + 1;
      }
      LastPoint(pre, s);
      preR := buf[bufLen - 2];
      preJ := buf[bufLen - 1];
    }
  }

  lemma PhaseAt(disc: Disc, pre: Point, s: seq<int>, k: nat)
    requires 2 * k + 1 < |s|
    ensures Phases(disc, pre, Points(s))[k] ==
      if k == 0 then Int16(disc(s[0], s[1], pre.re, pre.im))
        else Int16(disc(s[2 * k], s[2 * k + 1], s[2 * k - 2], s[2 * k - 1]))
  {
    hide Int16, Phases, Points;
    var x := Points(s);
    PhasesIs(disc, pre, x, k);
    assert x[k] == Point(s[2 * k], s[2 * k + 1]);
    if k > 0 {
      assert x[k - 1] == Point(s[2 * (k - 1)], s[2 * (k - 1) + 1]);
    }
  }

  lemma PhasesIs(disc: Disc, pre: Point, x: seq<Point>, k: nat)
    requires k < |x|
    ensures Phases(disc, pre, x)[k] == Phase(disc, x[k], if k == 0 then pre else x[k - 1])
  {
    hide Phase;
  }

  lemma LastPoint(pre: Point, s: seq<int>)
    requires |s| >= 2 && |s| % 2 == 0
    ensures Last(pre, Points(s)) == Point(s[|s| - 2], s[|s| - 1])
  {
  }
}

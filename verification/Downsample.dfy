/** The decimating filters of rtl_ais: half-band passes and a droop compensation, in place, on
    every second element of an interleaved buffer. */
module Downsample {
  import opened Blocks
  import opened Bytes
  import opened DroopSums
  import opened Indexes

  // ---------------------------------------------------------------- out of place

  /** The filter 1-5-10-10-5-1 over six samples; a right shift rounds down. */
  function Tap(w: seq<int>): int
    requires |w| == 6
  {
    Int16((w[0] + (w[1] + w[4]) * 5 + (w[2] + w[3]) * 10 + w[5]) / 16)
  }

  /** Every second output of the filter, with five samples of history before the input. */
  function Halved(hist: seq<int>, x: seq<int>): (out: seq<int>)
    requires |hist| == 6
    ensures |out| == (|x| + 1) / 2
  {
    seq((|x| + 1) / 2, m requires 0 <= m < (|x| + 1) / 2 => Tap((hist[1..] + x)[2 * m..2 * m + 6]))
  }

  /** A pass at most doubles the samples; below 2^14 nothing is cut off. */
  lemma HalvedDoubles(hist: seq<int>, x: seq<int>, bound: int)
    requires |hist| == 6 && Bounded(hist, bound) && Bounded(x, bound) && 2 * bound <= 32767
    ensures Bounded(Halved(hist, x), 2 * bound)
  {
    hide Tap;
    forall m | 0 <= m < |Halved(hist, x)|
      ensures -2 * bound <= Halved(hist, x)[m] <= 2 * bound
    {
      TapDoubles((hist[1..] + x)[2 * m..2 * m + 6], bound);
    }
  }

  lemma TapDoubles(w: seq<int>, bound: int)
    requires |w| == 6 && Bounded(w, bound) && 2 * bound <= 32767
    ensures -2 * bound <= Tap(w) <= 2 * bound
  {
    var sum := w[0] + (w[1] + w[4]) * 5 + (w[2] + w[3]) * 10 + w[5];
    assert -32 * bound <= sum <= 32 * bound;
  }

  /** Each output is that of the nine samples before. */
  function Compensated(fir: seq<int>, hist: seq<int>, x: seq<int>): (out: seq<int>)
    requires |fir| >= 6 && |hist| == 9
    ensures |out| == |x|
  {
    seq(|x|, k requires 0 <= k < |x| => Droop(fir, (hist + x)[k..k + 9]))
  }

  /** The last nine samples. */
  function Recent(hist: seq<int>, x: seq<int>): (h: seq<int>)
    requires |hist| == 9
    ensures |h| == 9
  {
    (hist + x)[|x|..]
  }

  /** Blocks do not matter to the droop compensation. */
  lemma CompensatedSplits(fir: seq<int>, hist: seq<int>, x: seq<int>, y: seq<int>)
    requires |fir| >= 6 && |hist| == 9
    ensures Compensated(fir, hist, x + y) == Compensated(fir, hist, x) + Compensated(fir, Recent(hist, x), y)
    ensures Recent(hist, x + y) == Recent(Recent(hist, x), y)
  {
    hide Droop;
    var all, first, later := hist + (x + y), hist + x, Recent(hist, x) + y;
    assert all == first + y;
    forall k | 0 <= k < |x + y|
      ensures Compensated(fir, hist, x + y)[k] == (Compensated(fir, hist, x) + Compensated(fir, Recent(hist, x), y))[k]
    {
      if k < |x| {
        assert all[k..k + 9] == first[k..k + 9];
      } else {
        assert all[k..k + 9] == later[k - |x|..k - |x| + 9];
      }
    }
  }

  /** The outputs of blocks that are compensated one after the other. */
  function BlockByBlock(fir: seq<int>, hist: seq<int>, blocks: seq<seq<int>>): seq<int>
    requires |fir| >= 6 && |hist| == 9
    decreases |blocks|
  {
    if blocks == [] then []
    else Compensated(fir, hist, blocks[0]) + BlockByBlock(fir, Recent(hist, blocks[0]), blocks[1..])
  }

  /** Each output is that of the nine samples before it in all of the input, however it is cut. */
  lemma {:induction false} BlocksDoNotMatter(fir: seq<int>, hist: seq<int>, blocks: seq<seq<int>>)
    requires |fir| >= 6 && |hist| == 9
    ensures BlockByBlock(fir, hist, blocks) == Compensated(fir, hist, Joined(blocks))
    decreases |blocks|
  {
    hide Compensated, Recent;
    if blocks == [] {
      assert Compensated(fir, hist, []) == [];
    } else {
      BlocksDoNotMatter(fir, Recent(hist, blocks[0]), blocks[1..]);
      CompensatedSplits(fir, hist, blocks[0], Joined(blocks[1..]));
    }
  }

  // ---------------------------------------------------------------- in place

  /** The samples at off, off + 2, ... of the first length elements from off on. */
  function Strided(data: seq<int>, off: nat, length: nat): (x: seq<int>)
    requires off + length <= |data|
    ensures |x| == (length + 1) / 2 && forall k :: 0 <= k < |x| ==> x[k] == data[off + 2 * k]
  {
    seq((length + 1) / 2, k requires 0 <= k < (length + 1) / 2 => data[off + 2 * k])
  }

  /** The first outputs are in place, and every other element is as it was. */
  ghost predicate Replaced(was: seq<int>, now: seq<int>, off: nat, out: seq<int>, count: nat)
    requires count <= |out| && off + 2 * count <= |was| + 1
  {
    && |now| == |was|
    && (forall m :: 0 <= m < count ==> now[off + 2 * m] == out[m])
    && (forall k :: 0 <= k < |was| && (k < off || (k - off) % 2 == 1 || k >= off + 2 * count) ==> now[k] == was[k])
  }

  lemma ReplacedNext(was: seq<int>, now: seq<int>, off: nat, out: seq<int>, m: nat, v: int)
    requires m < |out| && off + 2 * m < |was| && Replaced(was, now, off, out, m) && v == out[m]
    ensures Replaced(was, now[off + 2 * m := v], off, out, m + 1)
  {
  }

  lemma ReplacedFirst(was: seq<int>, off: nat, out: seq<int>)
    requires off < |was| && |out| > 0
    ensures Replaced(was, was[off := out[0]], off, out, 1)
  {
  }

  /** What has not been read yet has not been written. */
  lemma ReplacedAt(was: seq<int>, now: seq<int>, off: nat, out: seq<int>, m: nat, k: nat)
    requires m <= |out| && off + 2 * m <= |was| + 1 && Replaced(was, now, off, out, m) && off + 2 * m <= k < |was|
    ensures now[k] == was[k]
  {
  }

  lemma HalvedAt(hist: seq<int>, x: seq<int>, m: nat)
    requires |hist| == 6 && m < (|x| + 1) / 2
    ensures Halved(hist, x)[m] == Tap((hist[1..] + x)[2 * m..2 * m + 6])
  {
  }

  lemma FirstWindow(hist: seq<int>, x: seq<int>)
    requires |hist| == 6 && |x| >= 1
    ensures hist[1..] + [x[0]] == (hist[1..] + x)[0..6]
  {
  }

  lemma WindowMoves(hist: seq<int>, x: seq<int>, m: nat)
    requires |hist| == 6 && 1 <= m && 2 * m < |x|
    ensures var y := hist[1..] + x; y[2 * m - 2..2 * m + 4][2..] + [x[2 * m - 1], x[2 * m]] == y[2 * m..2 * m + 6]
  {
  }

  /** m outputs are in place, and h are the six samples that the last one was made of. */
  ghost predicate Reached(was: seq<int>, now: seq<int>, off: nat, length: nat, hist: seq<int>, m: nat, h: seq<int>)
    requires 1 <= length && off + length <= |was| && |hist| == 6
  {
    var x := Strided(was, off, length);
    1 <= m <= (|x| + 1) / 2 && Replaced(was, now, off, Halved(hist, x), m) && h == (hist[1..] + x)[2 * m - 2..2 * m + 4]
  }

  lemma ReachedFirst(was: seq<int>, now: seq<int>, off: nat, length: nat, hist: seq<int>, h: seq<int>)
    requires 1 <= length && off + length <= |was| && |hist| == 6
    requires h == hist[1..] + [was[off]] && now == was[off := Tap(h)]
    ensures Reached(was, now, off, length, hist, 1, h)
  {
    hide Tap, Int16, Replaced, Halved, Strided;
    var x := Strided(was, off, length);
    FirstWindow(hist, x);
    HalvedAt(hist, x, 0);
    ReplacedFirst(was, off, Halved(hist, x));
  }

  /** The next two samples have not been overwritten yet. */
  lemma ReachedNext(was: seq<int>, now: seq<int>, off: nat, length: nat, hist: seq<int>, m: nat, h: seq<int>,
      h': seq<int>)
    requires off + length <= |was| == |now| && |hist| == 6 && 1 <= m && 4 * m < length
    requires Reached(was, now, off, length, hist, m, h)
    requires h' == h[2..] + [now[off + 4 * m - 2], now[off + 4 * m]]
    ensures |h'| == 6 && Reached(was, now[off + 2 * m := Tap(h')], off, length, hist, m + 1, h')
  {
    hide Tap, Int16, Replaced, Halved, Strided;
    var x := Strided(was, off, length);
    ReplacedAt(was, now, off, Halved(hist, x), m, off + 4 * m - 2);
    ReplacedAt(was, now, off, Halved(hist, x), m, off + 4 * m);
    HalvedAt(hist, x, m);
    WindowMoves(hist, x, m);
    assert x[2 * m - 1] == was[off + 4 * m - 2] && x[2 * m] == was[off + 4 * m];
    ReplacedNext(was, now, off, Halved(hist, x), m, Tap(h'));
  }

  /** A pass over the samples from off on has turned was into now and left the history h: every second
      of them is the filter of what was there, and nothing else has changed. */
  ghost predicate Passed(was: seq<int>, now: seq<int>, off: nat, length: nat, hist: seq<int>, h: seq<int>)
    requires 1 <= length && off + length <= |was| && |hist| == 6
  {
    var x := Strided(was, off, length);
    && Replaced(was, now, off, Halved(hist, x), (|x| + 1) / 2)
    && h == (hist[1..] + x)[2 * ((|x| + 1) / 2) - 2..2 * ((|x| + 1) / 2) + 4]
  }

  lemma ReachedShape(was: seq<int>, now: seq<int>, off: nat, length: nat, hist: seq<int>, m: nat, h: seq<int>)
    requires 1 <= length && off + length <= |was| && |hist| == 6 && Reached(was, now, off, length, hist, m, h)
    ensures |now| == |was| && |h| == 6 && m >= 1
  {
    hide Halved, Strided;
  }

  lemma ReachedAll(was: seq<int>, now: seq<int>, off: nat, length: nat, hist: seq<int>, m: nat, h: seq<int>)
    requires 1 <= length <= 4 * m && off + length <= |was| && |hist| == 6
    requires Reached(was, now, off, length, hist, m, h)
    ensures Passed(was, now, off, length, hist, h)
  {
    hide Replaced, Halved, Strided;
  }

  /** fifth_order, on the samples from off on; the history is returned. It is one sample behind what
      the next block would need. */
  method FifthOrder(data: array<int>, off: nat, length: nat, hist: seq<int>) returns (hist': seq<int>)
    requires 1 <= length && off + length <= data.Length && |hist| == 6
    modifies data
    ensures Passed(old(data[..]), data[..], off, length, hist, hist')
  {
    hide *;
    ghost var was := data[..];
    hist' := hist[1..] + [data[off]];
    PutFiltered(data, off, hist');
    ReachedFirst(was, data[..], off, length, hist, hist');
    var i := 4;
    ghost var m := 1;
    while i < length
      invariant i == 4 * m && m >= 1 && |hist'| == 6
      invariant Reached(was, data[..], off, length, hist, m, hist')
    {
      ghost var before, h := data[..], hist';
      ReachedShape(was, before, off, length, hist, m, h);
      hist' := hist'[2..] + [data[off + i - 2], data[off + i]];
      ReachedNext(was, before, off, length, hist, m, h, hist');
      PutFiltered(data, off + i / 2, hist');
      i := i + 4;
      m := m + 1;
    }
    ReachedAll(was, data[..], off, length, hist, m, hist');
  }

  /** The variables a, ..., f of the loop as a sequence, whose filtered value is stored at i. */
  method PutFiltered(data: array<int>, i: nat, w: seq<int>)
    requires i < data.Length && |w| == 6
    modifies data
    ensures data[..] == old(data[..])[i := Tap(w)]
  {
    var a, b, c, d, e, f := w[0], w[1], w[2], w[3], w[4], w[5];
    data[i] := Int16((a + (b + e) * 5 + (c + d) * 10 + f) / 16);
  }

  method Compensation(fir: seq<int>, hist: seq<int>) returns (v: int)
    requires |fir| >= 6 && |hist| == 9
    ensures v == Droop(fir, hist)
  {
    var sum := 0;
    sum := sum + (hist[0] + hist[8]) * fir[1];
    sum := sum + (hist[1] + hist[7]) * fir[2];
    sum := sum + (hist[2] + hist[6]) * fir[3];
    sum := sum + (hist[3] + hist[5]) * fir[4];
    sum := sum + hist[4] * fir[5];
    v := Int16(sum / 32768);
  }

  /** generic_fir, with its history of nine samples. */
  method GenericFir(data: array<int>, off: nat, length: nat, fir: seq<int>, hist: seq<int>) returns (hist': seq<int>)
    requires off + length <= data.Length && |fir| >= 6 && |hist| == 9
    modifies data
    ensures var x := Strided(old(data[..]), off, length);
      Replaced(old(data[..]), data[..], off, Compensated(fir, hist, x), |x|) && hist' == Recent(hist, x)
  {
    hide Droop, Int16;
    ghost var was := data[..];
    ghost var x := Strided(was, off, length);
    ghost var w := hist + x;
    ghost var out := Compensated(fir, hist, x);
    hist' := hist;
    var d := 0;
    ghost var k := 0;
    while d < length
      invariant d == 2 * k && k <= |x|
      invariant Replaced(was, data[..], off, out, k)
      invariant hist' == w[k..k + 9]
    {
      var temp := data[off + d];
      assert temp == x[k] == w[k + 9];
      ghost var before := data[..];
      data[off + d] := Compensation(fir, hist');
      ReplacedNext(was, before, off, out, k, out[k]);
      assert data[..] == before[off + 2 * k := out[k]];
      hist' := hist'[1..] + [temp];
      d := d + 2;
      k := k + 1;
    }
  }

  // ---------------------------------------------------------------- the cascade

  /** What fifth_order leaves in its history. */
  function Archived(hist: seq<int>, x: seq<int>): (h: seq<int>)
    requires |hist| == 6 && |x| >= 1
    ensures |h| == 6
  {
    var m := (|x| + 1) / 2;
    (hist[1..] + x)[2 * m - 2..2 * m + 4]
  }

  /** How many samples channel c, 0 or 1, has in length elements. */
  function Samples(length: nat, c: nat): nat
    requires c <= 1
  {
    (length + 1 - c) / 2
  }

  function SixEach(hists: seq<seq<int>>): bool {
    forall h :: h in hists ==> |h| == 6
  }

  /** The composition of the passes over one channel; every pass is for half the length. */
  function Cascade(hists: seq<seq<int>>, x: seq<int>, length: nat, c: nat): (out: seq<int>)
    requires SixEach(hists) && c <= 1 && |x| == Samples(length, c)
    decreases |hists|
  {
    if hists == [] then x
    else Cascade(hists[1..], Halved(hists[0], x)[..Samples(length / 2, c)], length / 2, c)
  }

  function CascadeHists(hists: seq<seq<int>>, x: seq<int>, length: nat, c: nat): seq<seq<int>>
    requires SixEach(hists) && c <= 1 && |x| == Samples(length, c)
    decreases |hists|
  {
    if hists == [] then []
    else
      [if x == [] then hists[0] else Archived(hists[0], x)]
        + CascadeHists(hists[1..], Halved(hists[0], x)[..Samples(length / 2, c)], length / 2, c)
  }

  /** The samples double with every pass at most: eight passes leave those of a 7-bit input whole. */
  lemma {:induction false} CascadeDoubles(hists: seq<seq<int>>, x: seq<int>, length: nat, c: nat, bound: int)
    requires SixEach(hists) && c <= 1 && |x| == Samples(length, c) && Bounded(x, bound) && bound >= 0
    requires bound * Pow2(|hists|) <= 32767
    requires forall i :: 0 <= i < |hists| ==> Bounded(hists[i], bound)
    ensures Bounded(Cascade(hists, x, length, c), bound * Pow2(|hists|))
    decreases |hists|
  {
    if hists == [] {
      assert bound * Pow2(0) == bound;
    } else {
      DoubledBound(bound, |hists| - 1);
      hide Pow2, Halved;
      HalvedDoubles(hists[0], x, bound);
      var next := Halved(hists[0], x)[..Samples(length / 2, c)];
      assert forall i :: 0 <= i < |hists[1..]| ==> hists[1..][i] == hists[i + 1];
      CascadeDoubles(hists[1..], next, length / 2, c, 2 * bound);
    }
  }

  lemma DoubledBound(bound: int, n: nat)
    requires bound >= 0
    ensures bound * Pow2(n + 1) == (2 * bound) * Pow2(n) >= 2 * bound
  {
    assert bound * (Pow2(n) - 1) >= 0;
  }

  function Channel(data: seq<int>, length: nat, c: nat): (x: seq<int>)
    requires c <= length <= |data| && c <= 1
    ensures |x| == Samples(length, c)
  {
    Strided(data, c, length - c)
  }

  /** A pass over one channel puts its outputs where the next pass reads them, and leaves the other channel alone. */
  lemma PassDone(was: seq<int>, now: seq<int>, c: nat, length: nat, out: seq<int>, n: nat)
    requires c <= 1 && 2 <= length <= |was| && |out| == (Samples(length, c) + 1) / 2 && c + 2 * |out| <= |was| + 1
    requires Replaced(was, now, c, out, |out|)
    ensures Channel(now, length / 2, c) == out[..Samples(length / 2, c)]
    ensures 1 <= n <= |was| ==> Channel(now, n, 1 - c) == Channel(was, n, 1 - c)
  {
  }

  /** One pass for one channel: what the next pass will read is the pass's output, the other channel is
      left alone. */
  method Pass(buf: array<int>, length: nat, c: nat, hist: seq<int>) returns (hist': seq<int>)
    requires c <= 1 && 2 <= length <= buf.Length && |hist| == 6
    modifies buf
    ensures var x := Channel(old(buf[..]), length, c);
      Channel(buf[..], length / 2, c) == Halved(hist, x)[..Samples(length / 2, c)] && hist' == Archived(hist, x)
    ensures Channel(buf[..], length, 1 - c) == Channel(old(buf[..]), length, 1 - c)
    ensures Channel(buf[..], length / 2, 1 - c) == Channel(old(buf[..]), length / 2, 1 - c)
  {
    hide Halved, Strided, Replaced;
    ghost var was := buf[..];
    ghost var out := Halved(hist, Channel(was, length, c));
    hist' := FifthOrder(buf, c, length - c, hist);
    PassDone(was, buf[..], c, length, out, length);
    PassDone(was, buf[..], c, length, out, length / 2);
  }

  function Shifted(length: nat, i: nat): (n: nat)
    ensures n <= length
  {
    if i == 0 then length else Shifted(length, i - 1) / 2
  }

  lemma {:induction false} ShiftedLess(length: nat, i: nat, passes: nat)
    requires i < passes && Shifted(length, passes) >= 1
    ensures Shifted(length, i) >= 2
    decreases passes
  {
    if i + 1 < passes {
      ShiftedLess(length, i, passes - 1);
    }
  }

  /** After some passes over a channel: those that are left complete the cascade. */
  ghost predicate OnTheWay(hists: seq<seq<int>>, x: seq<int>, length: nat, c: nat, i: nat, hists': seq<seq<int>>,
      x': seq<int>, length': nat)
    requires SixEach(hists) && c <= 1 && |x| == Samples(length, c) && i <= |hists| == |hists'|
  {
    && |x'| == Samples(length', c) && hists'[i..] == hists[i..]
    && Cascade(hists[i..], x', length', c) == Cascade(hists, x, length, c)
    && hists'[..i] + CascadeHists(hists[i..], x', length', c) == CascadeHists(hists, x, length, c)
  }

  lemma NextPass(hists: seq<seq<int>>, x: seq<int>, length: nat, c: nat, i: nat, hists': seq<seq<int>>, x': seq<int>,
      length': nat)
    requires SixEach(hists) && c <= 1 && |x| == Samples(length, c) && i < |hists| == |hists'| && length' >= 2
    requires OnTheWay(hists, x, length, c, i, hists', x', length')
    ensures |hists'[i]| == 6 && hists'[i] == hists[i]
    ensures OnTheWay(hists, x, length, c, i + 1, hists'[i := Archived(hists[i], x')],
      Halved(hists[i], x')[..Samples(length' / 2, c)], length' / 2)
  {
    hide Archived, Halved;
    var rest := hists[i..];
    assert rest[1..] == hists[i + 1..] && hists'[i] == hists'[i..][0] == rest[0];
    assert hists'[i + 1..] == hists'[i..][1..];
    var h := Archived(hists[i], x');
    var later := CascadeHists(hists[i + 1..], Halved(hists[i], x')[..Samples(length' / 2, c)], length' / 2, c);
    assert hists'[i := h][..i + 1] + later == hists'[..i] + ([h] + later);
  }

  lemma Arrived(hists: seq<seq<int>>, x: seq<int>, length: nat, c: nat, hists': seq<seq<int>>, x': seq<int>,
      length': nat)
    requires SixEach(hists) && c <= 1 && |x| == Samples(length, c) && |hists| == |hists'|
    requires OnTheWay(hists, x, length, c, |hists|, hists', x', length')
    ensures x' == Cascade(hists, x, length, c) && hists' == CascadeHists(hists, x, length, c)
  {
    assert hists'[..|hists|] + [] == hists';
  }

  /** The loop over the passes, two channels at a time. */
  method Passes(buf: array<int>, lenIn: nat, ihists: seq<seq<int>>, qhists: seq<seq<int>>)
    returns (ihists': seq<seq<int>>, qhists': seq<seq<int>>)
    requires lenIn <= buf.Length && |ihists| == |qhists| && SixEach(ihists) && SixEach(qhists)
      && Shifted(lenIn, |ihists|) >= 1
    modifies buf
    ensures var x, y := Channel(old(buf[..]), lenIn, 0), Channel(old(buf[..]), lenIn, 1);
      && Channel(buf[..], Shifted(lenIn, |ihists|), 0) == Cascade(ihists, x, lenIn, 0)
        && ihists' == CascadeHists(ihists, x, lenIn, 0)
      && Channel(buf[..], Shifted(lenIn, |ihists|), 1) == Cascade(qhists, y, lenIn, 1)
        && qhists' == CascadeHists(qhists, y, lenIn, 1)
  {
    hide Halved, Strided, Archived, Cascade, CascadeHists, OnTheWay, Channel;
    ghost var x, y := Channel(buf[..], lenIn, 0), Channel(buf[..], lenIn, 1);
    ihists', qhists' := ihists, qhists;
    var length := lenIn;
    Departs(ihists, x, lenIn, 0);
    Departs(qhists, y, lenIn, 1);
    for i := 0 to |ihists|
      invariant length == Shifted(lenIn, i) && 1 <= length && |ihists'| == |qhists'| == |ihists|
      invariant OnTheWay(ihists, x, lenIn, 0, i, ihists', Channel(buf[..], length, 0), length)
      invariant OnTheWay(qhists, y, lenIn, 1, i, qhists', Channel(buf[..], length, 1), length)
    {
      ShiftedLess(lenIn, i, |ihists|);
      NextPass(ihists, x, lenIn, 0, i, ihists', Channel(buf[..], length, 0), length);
      NextPass(qhists, y, lenIn, 1, i, qhists', Channel(buf[..], length, 1), length);
      var h := Pass(buf, length, 0, ihists'[i]);
      ihists' := ihists'[i := h];
      h := Pass(buf, length, 1, qhists'[i]);
      qhists' := qhists'[i := h];
      length := length / 2;
    }
    Arrived(ihists, x, lenIn, 0, ihists', Channel(buf[..], length, 0), length);
    Arrived(qhists, y, lenIn, 1, qhists', Channel(buf[..], length, 1), length);
  }

  lemma Departs(hists: seq<seq<int>>, x: seq<int>, length: nat, c: nat)
    requires SixEach(hists) && c <= 1 && |x| == Samples(length, c)
    ensures OnTheWay(hists, x, length, c, 0, hists, x, length)
  {
    hide Cascade, CascadeHists;
    assert hists[0..] == hists;
    assert hists[..0] + CascadeHists(hists, x, length, c) == CascadeHists(hists, x, length, c);
  }

  /** The compensation of one channel, which leaves the other one alone. */
  method Compensate(buf: array<int>, length: nat, c: nat, fir: seq<int>, hist: seq<int>) returns (hist': seq<int>)
    requires c <= 1 <= length <= buf.Length && |fir| >= 6 && |hist| == 9
    modifies buf
    ensures var x := Channel(old(buf[..]), length, c);
      Channel(buf[..], length, c) == Compensated(fir, hist, x) && hist' == Recent(hist, x)
    ensures Channel(buf[..], length, 1 - c) == Channel(old(buf[..]), length, 1 - c)
  {
    hide Compensated, Recent;
    hist' := GenericFir(buf, c, length - c, fir, hist);
  }

  class DownsampleState {
    const buf: array<int>
    const lenIn: nat
    var lpIHist: seq<seq<int>>
    var lpQHist: seq<seq<int>>
    var droopIHist: seq<int>
    var droopQHist: seq<int>

    /** Enough input for every pass. */
    predicate Valid()
      reads this
    {
      && 1 <= lenIn <= buf.Length && |lpIHist| == |lpQHist| && SixEach(lpIHist) && SixEach(lpQHist)
      && |droopIHist| == |droopQHist| == 9 && Shifted(lenIn, |lpIHist|) >= 1
    }

    constructor (buf: array<int>, passes: nat)
      requires Shifted(buf.Length, passes) >= 1
      ensures Valid() && this.buf == buf && lenIn == buf.Length && |lpIHist| == passes
    {
      this.buf, lenIn := buf, buf.Length;
      lpIHist, lpQHist := seq(passes, _ => [0, 0, 0, 0, 0, 0]), seq(passes, _ => [0, 0, 0, 0, 0, 0]);
      droopIHist, droopQHist := [0, 0, 0, 0, 0, 0, 0, 0, 0], [0, 0, 0, 0, 0, 0, 0, 0, 0];
    }

    /** downsample: both channels come out as the cascade of their passes, compensated. */
    method Downsample(fir: seq<int>)
      requires Valid() && |fir| >= 6
      modifies this, buf
      ensures Valid()
      ensures var n := Shifted(lenIn, old(|lpIHist|));
        var i := Cascade(old(lpIHist), Channel(old(buf[..]), lenIn, 0), lenIn, 0);
        var q := Cascade(old(lpQHist), Channel(old(buf[..]), lenIn, 1), lenIn, 1);
        && Channel(buf[..], n, 0) == Compensated(fir, old(droopIHist), i) && droopIHist == Recent(old(droopIHist), i)
        && Channel(buf[..], n, 1) == Compensated(fir, old(droopQHist), q) && droopQHist == Recent(old(droopQHist), q)
      ensures lpIHist == CascadeHists(old(lpIHist), Channel(old(buf[..]), lenIn, 0), lenIn, 0)
      ensures lpQHist == CascadeHists(old(lpQHist), Channel(old(buf[..]), lenIn, 1), lenIn, 1)
    {
      hide Compensated, Recent, Cascade, CascadeHists, Channel;
      StillSix(lpIHist, Channel(buf[..], lenIn, 0), lenIn, 0);
      StillSix(lpQHist, Channel(buf[..], lenIn, 1), lenIn, 1);
      var length := Shifted(lenIn, |lpIHist|);
      lpIHist, lpQHist := Passes(buf, lenIn, lpIHist, lpQHist);
      droopIHist := Compensate(buf, length, 0, fir, droopIHist);
      droopQHist := Compensate(buf, length, 1, fir, droopQHist);
    }
  }

  lemma {:induction false} StillSix(hists: seq<seq<int>>, x: seq<int>, length: nat, c: nat)
    requires SixEach(hists) && c <= 1 && |x| == Samples(length, c)
    ensures |CascadeHists(hists, x, length, c)| == |hists| && SixEach(CascadeHists(hists, x, length, c))
    decreases |hists|
  {
    if hists != [] {
      StillSix(hists[1..], Halved(hists[0], x)[..Samples(length / 2, c)], length / 2, c);
    }
  }
}

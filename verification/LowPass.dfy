/** The square-window filters of rtl_fm: low_pass and low_pass_real. Both add up their input in
    groups and write each group's sum over the input that has been read. */
module LowPass {
  import opened Blocks
  import opened Bytes
  import opened Indexes

  /** The rates of the input and of the output. */
  datatype Rates = Rates(fast: nat, slow: nat) {
    predicate Valid() {
      0 < slow <= fast
    }
  }

  /** What is carried from block to block: the sum so far and how far the group has come. */
  datatype State = State(now: int, index: nat)

  /** Division rounds towards zero. */
  function Truncated(x: int, d: int): int
    requires d > 0
  {
    if x >= 0 then x / d else -(-x / d)
  }

  /** The quotient is the largest whole number of steps that does not go past x, from 0 on. */
  lemma TruncatedIs(x: int, d: int)
    requires d > 0
    ensures x >= 0 ==> 0 <= Truncated(x, d) && 0 <= x - d * Truncated(x, d) < d
    ensures x <= 0 ==> Truncated(x, d) <= 0 && 0 <= d * Truncated(x, d) - x < d
  {
    if x >= 0 {
      Quotient(x, d);
    } else {
      Quotient(-x, d);
      NegatedProduct(d, -x / d);
    }
  }

  lemma Quotient(x: nat, d: nat)
    requires d > 0
    ensures x / d >= 0 && 0 <= x - d * (x / d) < d
  {
  }

  lemma NegatedProduct(d: int, q: int)
    ensures d * -q == -(d * q)
  {
  }

  /** What low_pass_real makes of the sum of a group. */
  function Averaged(r: Rates, sum: int): int
    requires r.Valid()
  {
    RatioIsPositive(r);
    Int16(Truncated(sum, r.fast / r.slow))
  }

  lemma RatioIsPositive(r: Rates)
    requires r.Valid()
    ensures r.fast / r.slow >= 1
  {
    hide Div;
    DivIs(r.fast, r.slow, 1);
    assert Div(r.fast, r.slow) == r.fast / r.slow by { Quotients(r.fast, r.slow); }
  }

  lemma Quotients(a: nat, n: nat)
    requires n > 0
    ensures Div(a, n) == a / n
  {
  }

  // ---------------------------------------------------------------- sample by sample

  /** One sample: the next state, and an output when a group is complete. */
  function Step(r: Rates, emit: int -> int, s: State, x: int): (State, seq<int>) {
    var now := s.now + x;
    if s.index + r.slow < r.fast then (State(now, s.index + r.slow), [])
    else (State(0, s.index + r.slow - r.fast), [emit(now)])
  }

  /** State and outputs after the input xs. */
  function Run(r: Rates, emit: int -> int, s: State, xs: seq<int>): (State, seq<int>) {
    if xs == [] then (s, [])
    else
      var (t, out) := Run(r, emit, s, xs[..|xs| - 1]);
      var (t', o) := Step(r, emit, t, xs[|xs| - 1]);
      (t', out + o)
  }

  lemma {:induction false} RunSplits(r: Rates, emit: int -> int, s: State, xs: seq<int>, ys: seq<int>)
    ensures var first := Run(r, emit, s, xs);
      var second := Run(r, emit, first.0, ys);
      Run(r, emit, s, xs + ys) == (second.0, first.1 + second.1)
    decreases |ys|
  {
    hide Step;
    if ys == [] {
      assert xs + ys == xs && Run(r, emit, s, xs).1 + [] == Run(r, emit, s, xs).1;
    } else {
      var n := |ys| - 1;
      RunSplits(r, emit, s, xs, ys[..n]);
      assert (xs + ys)[..|xs + ys| - 1] == xs + ys[..n];
      var first := Run(r, emit, s, xs);
      var second := Run(r, emit, first.0, ys[..n]);
      var o := Step(r, emit, second.0, ys[n]).1;
      assert first.1 + second.1 + o == first.1 + (second.1 + o);
    }
  }

  lemma RunSnoc(r: Rates, emit: int -> int, s: State, xs: seq<int>, x: int)
    ensures var (t, out) := Run(r, emit, s, xs);
      var (t', o) := Step(r, emit, t, x);
      Run(r, emit, s, xs + [x]) == (t', out + o)
  {
    hide Step;
    assert (xs + [x])[..|xs|] == xs;
  }

  // ---------------------------------------------------------------- group by group

  /** How many inputs the first k outputs take: the least number that reaches k * fast. */
  function First(r: Rates, index: nat, k: nat): nat
    requires r.Valid()
  {
    if k * r.fast <= index then 0 else Div(k * r.fast - index + r.slow - 1, r.slow)
  }

  lemma FirstIsLeast(r: Rates, index: nat, k: nat, j: nat)
    requires r.Valid()
    ensures j >= First(r, index, k) <==> index + j * r.slow >= k * r.fast
  {
    hide Div;
    if k * r.fast > index {
      var a := k * r.fast - index + r.slow - 1;
      assert (j + 1) * r.slow == j * r.slow + r.slow;
      DivIs(a, r.slow, j);
      DivIs(a, r.slow, j + 1);
    } else {
      assert j * r.slow >= 0;
    }
  }

  function Sum(xs: seq<int>): int {
    if xs == [] then 0 else Sum(xs[..|xs| - 1]) + xs[|xs| - 1]
  }

  /** Output k is made of the inputs First(k), ..., First(k + 1) - 1, and the first one of what was carried. */
  ghost predicate MadeOf(r: Rates, emit: int -> int, s: State, xs: seq<int>, k: nat, output: int)
    requires r.Valid()
  {
    && First(r, s.index, k) <= First(r, s.index, k + 1) <= |xs|
    && output == emit((if k == 0 then s.now else 0) + Sum(xs[First(r, s.index, k)..First(r, s.index, k + 1)]))
  }

  /** What the run has done after xs, in closed form. */
  ghost predicate Grouped(r: Rates, emit: int -> int, s: State, xs: seq<int>, t: State, out: seq<int>)
    requires r.Valid()
  {
    && t.index < r.fast && s.index + |xs| * r.slow == |out| * r.fast + t.index
    && First(r, s.index, |out|) <= |xs|
    && t.now == (if |out| == 0 then s.now else 0) + Sum(xs[First(r, s.index, |out|)..])
    && forall k :: 0 <= k < |out| ==> MadeOf(r, emit, s, xs, k, out[k])
  }

  /** Every input is in exactly one group, and group k is where the progress passes k * fast. */
  lemma {:induction false} RunGroups(r: Rates, emit: int -> int, s: State, xs: seq<int>)
    requires r.Valid() && s.index < r.fast
    ensures Grouped(r, emit, s, xs, Run(r, emit, s, xs).0, Run(r, emit, s, xs).1)
    decreases |xs|
  {
    if xs == [] {
      FirstIsLeast(r, s.index, 0, 0);
    } else {
      hide Grouped, Run, Step;
      var n := |xs| - 1;
      RunGroups(r, emit, s, xs[..n]);
      var (t, out) := Run(r, emit, s, xs[..n]);
      GroupStep(r, emit, s, xs[..n], xs[n], t, out);
      RunSnoc(r, emit, s, xs[..n], xs[n]);
      assert xs == xs[..n] + [xs[n]];
    }
  }

  lemma Kept(r: Rates, emit: int -> int, s: State, xs: seq<int>, x: int, k: nat, output: int)
    requires r.Valid() && MadeOf(r, emit, s, xs, k, output)
    ensures MadeOf(r, emit, s, xs + [x], k, output)
  {
    hide First, Sum;
    var a, b := First(r, s.index, k), First(r, s.index, k + 1);
    assert (xs + [x])[a..b] == xs[a..b];
  }

  /** The input after n others that completes group m. */
  lemma Completes(r: Rates, index: nat, n: nat, m: nat, reached: nat)
    requires r.Valid() && index + n * r.slow == m * r.fast + reached && reached < r.fast
    ensures index + (n + 1) * r.slow == m * r.fast + reached + r.slow
    ensures (m + 1) * r.fast == m * r.fast + r.fast
    ensures reached + r.slow >= r.fast ==> First(r, index, m + 1) == n + 1
  {
    hide First;
    FirstIsLeast(r, index, m + 1, n);
    FirstIsLeast(r, index, m + 1, n + 1);
  }

  lemma GroupStep(r: Rates, emit: int -> int, s: State, xs: seq<int>, x: int, t: State, out: seq<int>)
    requires r.Valid() && Grouped(r, emit, s, xs, t, out)
    ensures var (t', o) := Step(r, emit, t, x); Grouped(r, emit, s, xs + [x], t', out + o)
  {
    hide First, Sum;
    var n, m, f := |xs|, |out|, First(r, s.index, |out|);
    var (t', o) := Step(r, emit, t, x);
    var ys := xs + [x];
    Completes(r, s.index, n, m, t.index);
    SumSnoc(xs[f..], x);
    assert ys[f..] == xs[f..] + [x];
    assert ys[f..n + 1] == ys[f..] && ys[n + 1..] == [];
    SumNone();
    forall k | 0 <= k < |out + o|
      ensures MadeOf(r, emit, s, ys, k, (out + o)[k])
    {
      if k < m {
        Kept(r, emit, s, xs, x, k, out[k]);
      }
    }
  }

  lemma SumNone()
    ensures Sum([]) == 0
  {
  }

  lemma SumSnoc(xs: seq<int>, x: int)
    ensures Sum(xs + [x]) == Sum(xs) + x
  {
    assert (xs + [x])[..|xs|] == xs;
  }

  /** The number of outputs, from a fresh state: the floor of N * slow / fast. */
  lemma OutputCount(r: Rates, emit: int -> int, s: State, xs: seq<int>)
    requires r.Valid() && s.index < r.fast
    ensures var (t, out) := Run(r, emit, s, xs);
      |out| == Div(s.index + |xs| * r.slow, r.fast) && t.index == Rem(s.index + |xs| * r.slow, r.fast)
  {
    RunGroups(r, emit, s, xs);
    var (t, out) := Run(r, emit, s, xs);
    hide Run, Grouped, Div, Rem;
    Place(|out|, r.fast, t.index);
  }

  /** Blocks that are run one after the other, each from the state that the one before leaves. */
  function RunBlocks(r: Rates, emit: int -> int, s: State, blocks: seq<seq<int>>): (State, seq<int>)
    decreases |blocks|
  {
    if blocks == [] then (s, [])
    else
      var (t, out) := Run(r, emit, s, blocks[0]);
      var (u, more) := RunBlocks(r, emit, t, blocks[1..]);
      (u, out + more)
  }

  lemma {:induction false} BlocksRun(r: Rates, emit: int -> int, s: State, blocks: seq<seq<int>>)
    ensures RunBlocks(r, emit, s, blocks) == Run(r, emit, s, Joined(blocks))
    decreases |blocks|
  {
    hide Step;
    if blocks != [] {
      RunSplits(r, emit, s, blocks[0], Joined(blocks[1..]));
      BlocksRun(r, emit, Run(r, emit, s, blocks[0]).0, blocks[1..]);
    }
  }

  /** However the input is cut, output k is made of the inputs First(k), ..., First(k + 1) - 1 of all of
      it, and as many inputs as make up the rest are carried. */
  lemma BlocksGroup(r: Rates, emit: int -> int, s: State, blocks: seq<seq<int>>)
    requires r.Valid() && s.index < r.fast
    ensures var (t, out) := RunBlocks(r, emit, s, blocks); Grouped(r, emit, s, Joined(blocks), t, out)
  {
    hide Grouped, Run, RunBlocks;
    BlocksRun(r, emit, s, blocks);
    RunGroups(r, emit, s, Joined(blocks));
  }

  // ---------------------------------------------------------------- in place

  /** The first or the second of each pair. */
  function Channel(s: seq<int>, c: nat): (x: seq<int>)
    requires c < 2
    ensures |x| == |s| / 2 && forall k :: 0 <= k < |x| ==> x[k] == s[2 * k + c]
  {
    seq(|s| / 2, k requires 0 <= k < |s| / 2 => s[2 * k + c])
  }

  lemma NextPair(s: seq<int>, x: int, y: int)
    requires |s| % 2 == 0
    ensures Channel(s + [x, y], 0) == Channel(s, 0) + [x] && Channel(s + [x, y], 1) == Channel(s, 1) + [y]
  {
  }

  lemma RunNext(r: Rates, emit: int -> int, s: State, xs: seq<int>, i: nat, t: State, out: seq<int>)
    requires i < |xs| && Run(r, emit, s, xs[..i]) == (t, out)
    ensures Run(r, emit, s, xs[..i + 1]) ==
      if t.index + r.slow < r.fast then (State(t.now + xs[i], t.index + r.slow), out)
      else (State(0, t.index + r.slow - r.fast), out + [emit(t.now + xs[i])])
  {
    hide Run;
    RunSnoc(r, emit, s, xs[..i], xs[i]);
    assert xs[..i + 1] == xs[..i] + [xs[i]];
    assert out + [] == out;
  }

  lemma RunNothing(r: Rates, emit: int -> int, s: State)
    ensures Run(r, emit, s, []) == (s, [])
  {
  }

  /** The loop of low_pass_real over the first len elements: each output replaces an input that
      has been read. Returns the number of outputs. */
  method SumGroups(a: array<int>, len: nat, r: Rates, s: State) returns (t: State, n: nat)
    requires r.Valid() && len <= a.Length && s.index < r.fast
    modifies a
    ensures n <= len && t.index < r.fast
    ensures Run(r, x => Averaged(r, x), s, old(a[..len])) == (t, a[..n])
  {
    hide Run, Truncated, Int16;
    RatioIsPositive(r);
    ghost var emit := (x: int) => Averaged(r, x);
    ghost var xs := a[..len];
    var i := 0;
    t, n := s, 0;
    RunNothing(r, emit, s);
    while i < len
      invariant n <= i <= len && t.index < r.fast
      invariant Run(r, emit, s, xs[..i]) == (t, a[..n])
      invariant forall j :: i <= j < len ==> a[j] == xs[j]
    {
      RunNext(r, emit, s, xs, i, t, a[..n]);
      t := State(t.now + a[i], t.index + r.slow);
      i := i + 1;
      if t.index < r.fast {
        continue;
      }
      ghost var before := a[..n];
      a[n] := Int16(Truncated(t.now, r.fast / r.slow));
      assert a[..n + 1] == before + [emit(t.now)];
      t := State(0, t.index - r.fast);
      n := n + 1;
    }
    assert xs[..i] == xs;
  }

  /** After k pairs of x: the states of both components, and the pairs that are out. */
  ghost predicate PairsRead(r: Rates, s: State, t: State, x: seq<int>, k: nat, re: State, im: State, out: seq<int>) {
    && k <= |x| / 2 && |out| % 2 == 0
    && Run(r, Int16, s, Channel(x, 0)[..k]) == (re, Channel(out, 0))
    && Run(r, Int16, t, Channel(x, 1)[..k]) == (im, Channel(out, 1))
  }

  lemma NoPairsRead(r: Rates, s: State, t: State, x: seq<int>)
    ensures PairsRead(r, s, t, x, 0, s, t, [])
  {
    hide Run;
    RunNothing(r, Int16, s);
    RunNothing(r, Int16, t);
    assert Channel([], 0) == [] && Channel([], 1) == [];
  }

  lemma PairRead(r: Rates, s: State, t: State, x: seq<int>, k: nat, re: State, im: State, out: seq<int>)
    requires r.slow == 1 && 2 * k + 1 < |x| && re.index == im.index < r.fast && PairsRead(r, s, t, x, k, re, im, out)
    ensures var v, w := re.now + x[2 * k], im.now + x[2 * k + 1];
      if re.index + 1 < r.fast
      then PairsRead(r, s, t, x, k + 1, State(v, re.index + 1), State(w, im.index + 1), out)
      else PairsRead(r, s, t, x, k + 1, State(0, 0), State(0, 0), out + [Int16(v), Int16(w)])
  {
    hide Run, Int16, Channel;
    RunNext(r, Int16, s, Channel(x, 0), k, re, Channel(out, 0));
    RunNext(r, Int16, t, Channel(x, 1), k, im, Channel(out, 1));
    NextPair(out, Int16(re.now + x[2 * k]), Int16(im.now + x[2 * k + 1]));
  }

  lemma AllPairsRead(r: Rates, s: State, t: State, x: seq<int>, k: nat, re: State, im: State, out: seq<int>)
    requires |x| == 2 * k && PairsRead(r, s, t, x, k, re, im, out)
    ensures Run(r, Int16, s, Channel(x, 0)) == (re, Channel(out, 0))
    ensures Run(r, Int16, t, Channel(x, 1)) == (im, Channel(out, 1))
  {
    hide Run;
    assert Channel(x, 0)[..k] == Channel(x, 0) && Channel(x, 1)[..k] == Channel(x, 1);
  }

  /** The loop of low_pass over pairs. */
  method SumPairs(a: array<int>, len: nat, downsample: nat, nowR: int, nowJ: int, prevIndex: nat)
    returns (re: State, im: State, n: nat)
    requires 0 < downsample && len <= a.Length && len % 2 == 0 && prevIndex < downsample
    modifies a
    ensures n <= len && re.index == im.index < downsample
    ensures var r, x := Rates(downsample, 1), old(a[..len]);
      && Run(r, Int16, State(nowR, prevIndex), Channel(x, 0)) == (re, Channel(a[..n], 0))
      && Run(r, Int16, State(nowJ, prevIndex), Channel(x, 1)) == (im, Channel(a[..n], 1))
  {
    hide Run, Int16, Channel, PairsRead;
    ghost var r, s, t, x := Rates(downsample, 1), State(nowR, prevIndex), State(nowJ, prevIndex), a[..len];
    re, im, n := State(nowR, prevIndex), State(nowJ, prevIndex), 0;
    NoPairsRead(r, s, t, x);
    var i := 0;
    ghost var k := 0;
    while i < len
      invariant n <= i == 2 * k <= len && re.index == im.index < downsample
      invariant PairsRead(r, s, t, x, k, re, im, a[..n])
      invariant forall j :: i <= j < len ==> a[j] == x[j]
    {
      ghost var out := a[..n];
      PairRead(r, s, t, x, k, re, im, out);
      re, im := State(re.now + a[i], re.index + 1), State(im.now + a[i + 1], im.index + 1);
      i := i + 2;
      k := k + 1;
      if re.index < downsample {
        continue;
      }
      a[n], a[n + 1] := Int16(re.now), Int16(im.now);
      assert a[..n + 2] == out + [Int16(re.now), Int16(im.now)];
      re, im, n := State(0, 0), State(0, 0), n + 2;
    }
    AllPairsRead(r, s, t, x, k, re, im, a[..n]);
  }

  class Demod {
    var result: array<int>
    var resultLen: nat
    var nowLpr: int
    var prevLprIndex: nat
    var lowpassed: array<int>
    var lpLen: nat
    var nowR: int
    var nowJ: int
    var prevIndex: nat

    constructor (result: array<int>, lowpassed: array<int>)
      ensures this.result == result && resultLen == 0 && nowLpr == prevLprIndex == 0
      ensures this.lowpassed == lowpassed && lpLen == 0 && nowR == nowJ == prevIndex == 0
    {
      this.result, resultLen, nowLpr, prevLprIndex := result, 0, 0, 0;
      this.lowpassed, lpLen, nowR, nowJ, prevIndex := lowpassed, 0, 0, 0, 0;
    }

    /** low_pass_real: the rates are rate_out and rate_out2. */
    method LowPassReal(rateOut: nat, rateOut2: nat)
      requires 0 < rateOut2 <= rateOut && resultLen <= result.Length && prevLprIndex < rateOut
      modifies this`resultLen, this`nowLpr, this`prevLprIndex, result
      ensures resultLen <= old(resultLen) && prevLprIndex < rateOut
      ensures Run(Rates(rateOut, rateOut2), x => Averaged(Rates(rateOut, rateOut2), x),
          State(old(nowLpr), old(prevLprIndex)), old(result[..resultLen]))
        == (State(nowLpr, prevLprIndex), result[..resultLen])
    {
      var s, n := SumGroups(result, resultLen, Rates(rateOut, rateOut2), State(nowLpr, prevLprIndex));
      nowLpr, prevLprIndex, resultLen := s.now, s.index, n;
    }

    /** low_pass: every downsample-th pair completes a group; sums are cut to 16 bits. */
    method LowPass(downsample: nat)
      requires 0 < downsample && lpLen <= lowpassed.Length && lpLen % 2 == 0 && prevIndex < downsample
      modifies this`lpLen, this`nowR, this`nowJ, this`prevIndex, lowpassed
      ensures lpLen <= old(lpLen) && prevIndex < downsample
      ensures Run(Rates(downsample, 1), Int16, State(old(nowR), old(prevIndex)), Channel(old(lowpassed[..lpLen]), 0))
        == (State(nowR, prevIndex), Channel(lowpassed[..lpLen], 0))
      ensures Run(Rates(downsample, 1), Int16, State(old(nowJ), old(prevIndex)), Channel(old(lowpassed[..lpLen]), 1))
        == (State(nowJ, prevIndex), Channel(lowpassed[..lpLen], 1))
    {
      var re, im, n := SumPairs(lowpassed, lpLen, downsample, nowR, nowJ, prevIndex);
      nowR, nowJ, prevIndex, lpLen := re.now, im.now, re.index, n;
    }
  }
}

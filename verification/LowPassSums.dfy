/** How large the sums of low_pass and low_pass_real become, and when they fit 32 bits. */
module LowPassSums {
  import opened Bytes
  import opened Indexes
  import opened LowPass

  /** The inputs of the largest group. */
  function GroupSize(r: Rates): nat
    requires r.Valid()
  {
    Div(r.fast + r.slow - 1, r.slow)
  }

  /** What has been added up when the last input has been read, from a fresh state. */
  function Accumulated(r: Rates, emit: int -> int, xs: seq<int>): int
    requires |xs| > 0
  {
    Run(r, emit, State(0, 0), xs[..|xs| - 1]).0.now + xs[|xs| - 1]
  }

  lemma {:induction false} SumBounded(xs: seq<int>, bound: nat)
    requires Bounded(xs, bound)
    ensures -(bound * |xs|) <= Sum(xs) <= bound * |xs|
  {
    if xs != [] {
      var n := |xs| - 1;
      SumBounded(xs[..n], bound);
      assert bound * |xs| == bound * n + bound;
    }
  }

  lemma {:induction false} SumConstant(xs: seq<int>, v: int)
    requires forall k :: 0 <= k < |xs| ==> xs[k] == v
    ensures Sum(xs) == v * |xs|
  {
    if xs != [] {
      var n := |xs| - 1;
      SumConstant(xs[..n], v);
      assert v * |xs| == v * n + v;
    }
  }

  /** A group that is not complete after c inputs has room for another one. */
  lemma GroupHasRoom(r: Rates, c: int)
    requires r.Valid() && c * r.slow < r.fast
    ensures c + 1 <= GroupSize(r)
  {
    hide Div;
    assert (c + 1) * r.slow == c * r.slow + r.slow;
    DivIs(r.fast + r.slow - 1, r.slow, c + 1);
  }

  /** All but the last input of the largest group leave it incomplete. */
  lemma LastCompletes(r: Rates)
    requires r.Valid()
    ensures GroupSize(r) >= 1 && (GroupSize(r) - 1) * r.slow < r.fast
  {
    hide Div, Rem;
    var a := r.fast + r.slow - 1;
    Placed(a, r.slow);
    DivIs(a, r.slow, 1);
    assert (GroupSize(r) - 1) * r.slow == GroupSize(r) * r.slow - r.slow;
  }

  lemma AccumulatedBounded(r: Rates, emit: int -> int, xs: seq<int>, bound: nat)
    requires r.Valid() && |xs| > 0 && Bounded(xs, bound)
    ensures -(bound * GroupSize(r)) <= Accumulated(r, emit, xs) <= bound * GroupSize(r)
  {
    hide Run, First, Sum, GroupSize, MadeOf;
    var n, s := |xs| - 1, State(0, 0);
    var (t, out) := Run(r, emit, s, xs[..n]);
    RunGroups(r, emit, s, xs[..n]);
    var f := First(r, 0, |out|);
    FirstIsLeast(r, 0, |out|, f);
    assert (n - f) * r.slow == n * r.slow - f * r.slow;
    GroupHasRoom(r, n - f);
    SumBounded(xs[..n][f..], bound);
    Grown(bound, n - f, GroupSize(r));
  }

  lemma Grown(bound: nat, c: nat, size: nat)
    requires c + 1 <= size
    ensures 0 <= bound * c + bound <= bound * size
  {
    assert bound * (size - c - 1) >= 0;
    assert bound * size == bound * (size - c - 1) + bound * c + bound;
  }

  /** The largest input, as often as the largest group takes it. */
  lemma LargestSum(r: Rates, emit: int -> int, xs: seq<int>, bound: nat)
    requires r.Valid() && |xs| == GroupSize(r) > 0 && forall k :: 0 <= k < |xs| ==> xs[k] == bound
    ensures Accumulated(r, emit, xs) == bound * GroupSize(r)
  {
    hide Run, Sum, GroupSize, MadeOf;
    var n, s := |xs| - 1, State(0, 0);
    var (t, out) := Run(r, emit, s, xs[..n]);
    RunGroups(r, emit, s, xs[..n]);
    LastCompletes(r);
    NoOutput(|out|, r.fast, t.index, n * r.slow);
    assert First(r, 0, 0) == 0;
    assert xs[..n][0..] == xs[..n];
    SumConstant(xs[..n], bound);
    assert bound * |xs| == bound * n + bound;
  }

  lemma NoOutput(m: nat, fast: nat, reached: nat, progress: int)
    requires progress == m * fast + reached && progress < fast
    ensures m == 0
  {
    Multiples(m, fast);
  }

  ghost predicate SumsFit(r: Rates, emit: int -> int, bound: nat) {
    forall xs: seq<int> :: |xs| > 0 && Bounded(xs, bound) ==> Fits32(Accumulated(r, emit, xs))
  }

  /** The sums fit 32 bits for all inputs up to a bound if and only if that many of the bound do as
      are in the largest group, which has the ratio of the rates, rounded up. */
  lemma SumsFitIff(r: Rates, emit: int -> int, bound: nat)
    requires r.Valid()
    ensures SumsFit(r, emit, bound) <==> Fits32(bound * GroupSize(r))
  {
    hide Accumulated;
    LastCompletes(r);
    hide GroupSize;
    var worst := seq(GroupSize(r), _ => bound);
    LargestSum(r, emit, worst, bound);
    assert Bounded(worst, bound);
    if Fits32(bound * GroupSize(r)) {
      forall xs: seq<int> | |xs| > 0 && Bounded(xs, bound)
        ensures Fits32(Accumulated(r, emit, xs))
      {
        AccumulatedBounded(r, emit, xs, bound);
      }
    }
  }

  // ---------------------------------------------------------------- an average

  lemma FirstOfGroup(r: Rates, m: nat, k: nat)
    requires r.Valid() && r.fast == m * r.slow
    ensures k * m >= 0 && First(r, 0, k) == k * m
  {
    hide First;
    assert (k * m) * r.slow == k * r.fast;
    FirstIsLeast(r, 0, k, k * m);
    if k * m > 0 {
      assert (k * m - 1) * r.slow == (k * m) * r.slow - r.slow;
      FirstIsLeast(r, 0, k, k * m - 1);
    }
  }

  lemma AverageIs(r: Rates, m: nat, v: int)
    requires r.Valid() && r.fast == m * r.slow
    ensures Averaged(r, v * m) == Int16(v)
  {
    hide Int16;
    Ratio(r.fast, r.slow, m);
    TruncatedExact(v, m);
  }

  lemma Ratio(fast: nat, slow: nat, m: nat)
    requires slow > 0 && fast == m * slow
    ensures fast / slow == m
  {
    Place(m, slow, 0);
  }

  lemma TruncatedExact(v: int, m: nat)
    requires m > 0
    ensures Truncated(v * m, m) == v
  {
    if v >= 0 {
      Place(v, m, 0);
    } else {
      assert -(v * m) == (-v) * m;
      Place(-v, m, 0);
    }
  }

  /** With rates in a whole ratio, low_pass_real leaves a constant as it is. */
  lemma ConstantIsKept(r: Rates, m: nat, v: int, xs: seq<int>)
    requires r.Valid() && r.fast == m * r.slow && forall k :: 0 <= k < |xs| ==> xs[k] == v
    ensures var out := Run(r, x => Averaged(r, x), State(0, 0), xs).1;
      forall k :: 0 <= k < |out| ==> out[k] == Int16(v)
  {
    hide Run, First, Averaged, Sum;
    var emit, s := (x: int) => Averaged(r, x), State(0, 0);
    RunGroups(r, emit, s, xs);
    var out := Run(r, emit, s, xs).1;
    AverageIs(r, m, v);
    forall k | 0 <= k < |out|
      ensures out[k] == Int16(v)
    {
      assert MadeOf(r, emit, s, xs, k, out[k]);
      FirstOfGroup(r, m, k);
      FirstOfGroup(r, m, k + 1);
      assert (k + 1) * m == k * m + m;
      SumConstant(xs[k * m..(k + 1) * m], v);
    }
  }
}

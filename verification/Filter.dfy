/** The FIR filter of filter.c: a window that slides along a buffer and is copied back to its
    start at the end. Whatever the blocks are that the input comes in, the output is that of one
    filter over the whole input. */
module Filter {
  import opened Blocks

  const BUFFER_LEN := 1024

  /** Floating point numbers: nothing is known of their sum, product and conversion. */
  datatype Arith<!F> = Arith(zero: F, add: (F, F) -> F, mul: (F, F) -> F, ofShort: int -> F)

  /** The multiply-accumulate over two sequences, in the order of the loop. */
  function Mac<F>(o: Arith<F>, a: seq<F>, b: seq<F>): F
    requires |a| == |b|
  {
    if a == [] then o.zero
    else o.add(Mac(o, a[..|a| - 1], b[..|b| - 1]), o.mul(a[|a| - 1], b[|b| - 1]))
  }

  /** What precedes position k of the input: n samples, zeros before the start. */
  function Before<F>(o: Arith<F>, x: seq<F>, n: nat, k: nat): (w: seq<F>)
    requires k <= |x|
    ensures |w| == n
  {
    seq(n, j => if k + j < n then o.zero else if k + j - n < |x| then x[k + j - n] else o.zero)
  }

  /** The filter as a function of its whole input: output k is the sum over j of
      taps[j] * x[k - length + j]. */
  function Convolved<F>(o: Arith<F>, taps: seq<F>, x: seq<F>, k: nat): F
    requires k < |x|
  {
    Mac(o, Before(o, x, |taps|, k), taps)
  }

  /** The outputs for the samples ys that follow the samples x. */
  function Outputs<F>(o: Arith<F>, taps: seq<F>, x: seq<F>, ys: seq<F>): (out: seq<F>)
    ensures |out| == |ys|
  {
    seq(|ys|, i requires 0 <= i < |ys| => Convolved(o, taps, x + ys, |x| + i))
  }

  // ---------------------------------------------------------------- with exact numbers

  /** Sum and product of real numbers. */
  function Reals(): Arith<real> {
    Arith(0.0, (x: real, y: real) => x + y, (x: real, y: real) => x * y, (i: int) => i as real)
  }

  /** The first n terms of the sum over j of taps[j] * x[k - length + j], what precedes the input being 0. */
  function Terms(taps: seq<real>, x: seq<real>, k: nat, n: nat): real
    requires n <= |taps| && k <= |x|
  {
    if n == 0 then 0.0
    else
      var at := k - |taps| + n - 1;
      Terms(taps, x, k, n - 1) + (if at >= 0 then taps[n - 1] * x[at] else 0.0)
  }

  lemma {:induction false} MacIsTerms(taps: seq<real>, x: seq<real>, k: nat, n: nat)
    requires n <= |taps| && k <= |x|
    ensures Mac(Reals(), Before(Reals(), x, |taps|, k)[..n], taps[..n]) == Terms(taps, x, k, n)
  {
    var w := Before(Reals(), x, |taps|, k);
    if n > 0 {
      MacIsTerms(taps, x, k, n - 1);
      assert w[..n][..n - 1] == w[..n - 1] && taps[..n][..n - 1] == taps[..n - 1];
      assert w[n - 1] == if k - |taps| + n - 1 >= 0 then x[k - |taps| + n - 1] else 0.0;
    }
  }

  /** For an arithmetic that is exact, output k is that sum. */
  lemma ConvolvedIsSum(taps: seq<real>, x: seq<real>, k: nat)
    requires k < |x|
    ensures Convolved(Reals(), taps, x, k) == Terms(taps, x, k, |taps|)
  {
    MacIsTerms(taps, x, k, |taps|);
    var w := Before(Reals(), x, |taps|, k);
    assert w[..|taps|] == w && taps[..|taps|] == taps;
  }

  // ---------------------------------------------------------------- in place

  class Filter<F> {
    const o: Arith<F>
    const length: nat
    const taps: array<F>
    const buffer: array<F>
    var pointer: nat
    ghost var history: seq<F>

    /** The window before the pointer holds the last samples. */
    ghost predicate Valid()
      reads this, taps, buffer
    {
      && taps != buffer && taps.Length == length && buffer.Length == BUFFER_LEN
      && 2 * length <= BUFFER_LEN && length <= pointer < BUFFER_LEN
      && buffer[pointer - length..pointer] == Before(o, history, length, |history|)
    }

    constructor (o: Arith<F>, taps: seq<F>)
      requires 2 * |taps| <= BUFFER_LEN
      ensures Valid() && fresh(this.taps) && fresh(buffer)
      ensures this.o == o && this.taps[..] == taps && history == []
    {
      this.o := o;
      length := |taps|;
      this.taps := new F[|taps|](i requires 0 <= i < |taps| => taps[i]);
      buffer := new F[BUFFER_LEN](_ => o.zero);
      pointer := |taps|;
      history := [];
    }

    /** filter_mac over the window that starts at start. */
    method FilterMac(start: nat) returns (sum: F)
      requires taps.Length == length && start + length <= buffer.Length
      ensures sum == Mac(o, buffer[start..start + length], taps[..])
    {
      sum := o.zero;
      for i := 0 to length
        invariant sum == Mac(o, buffer[start..start + i], taps[..i])
      {
        assert buffer[start..start + i + 1][..i] == buffer[start..start + i];
        assert taps[..i + 1][..i] == taps[..i];
        sum := o.add(sum, o.mul(buffer[start + i], taps[i]));
      }
      assert taps[..length] == taps[..];
    }

    /** Stores a sample behind the window, and moves the window, back to the start of the buffer
        if its end is reached. */
    method Store(x: F)
      requires Valid()
      modifies this`pointer, this`history, buffer
      ensures Valid() && history == old(history) + [x]
    {
      hide Before;
      ghost var b := buffer[..];
      buffer[pointer] := x;
      pointer := pointer + 1;
      NextWindow(b, buffer[..], pointer - 1, length, x);
      WindowSlides(o, history, x, length);
      history := history + [x];
      if pointer == BUFFER_LEN {
        MoveToFront(buffer, BUFFER_LEN - length, length);
        pointer := length;
      }
    }

    method FilterRun(x: F) returns (out: F)
      requires Valid()
      modifies this`pointer, this`history, buffer
      ensures Valid() && history == old(history) + [x]
      ensures out == Convolved(o, taps[..], history, old(|history|))
    {
      out := FilterMac(pointer - length);
      assert Before(o, history, length, |history|) == Before(o, history + [x], length, |history|);
      Store(x);
    }

    /** Every step-th sample of the input from the start: len of them. Returns the loudest. */
    method FilterRunBuf(input: seq<int>, out: array<F>, step: nat, len: nat) returns (maxval: int)
      requires Valid() && out != buffer && out != taps && out.Length >= len
      requires len > 0 ==> (len - 1) * step < |input|
      modifies this`pointer, this`history, buffer, out
      ensures Valid() && history == old(history) + Converted(o, Picked(input, step, len))
      ensures out[..len] == Outputs(o, taps[..], old(history), Converted(o, Picked(input, step, len)))
      ensures out[len..] == old(out[len..])
      ensures IsPeak(Picked(input, step, len), maxval)
    {
      var id, od := 0, 0;
      maxval := 0;
      ghost var x, was := history, out[..];
      hide Convolved, Picked, Converted, Outputs, IsPeak, Valid, Progress;
      Begins(o, taps[..], x, input, step, len, was);
      while od < len
        invariant od <= len && id == od * step && Valid() && |out[..]| == |was|
        invariant Progress(o, taps[..], x, input, step, len, od, history, was, out[..], maxval)
      {
        InReach(od, len, step, |input|);
        ghost var history0, now, peak := history, out[..], maxval;
        if input[id] > maxval {
          maxval := input[id];
        }
        var y := FilterRun(o.ofShort(input[id]));
        out[od] := y;
        Progresses(o, taps[..], x, input, step, len, od, history0, was, now, peak);
        assert out[..] == now[od := y];
        id := id + step;
        od := od + 1;
      }
      Ends(o, taps[..], x, input, step, len, history, was, out[..], maxval);
    }
  }

  /** memcpy of the n elements at from to the start of the array. */
  method MoveToFront<F>(a: array<F>, from: nat, n: nat)
    requires n <= from && from + n <= a.Length
    modifies a
    ensures a[..n] == old(a[from..from + n])
  {
    forall i | 0 <= i < n {
      a[i] := a[from + i];
    }
  }

  lemma NextWindow<F>(b: seq<F>, b': seq<F>, p: nat, n: nat, x: F)
    requires n <= p < |b| && b' == b[p := x]
    ensures b'[p + 1 - n..p + 1] == (b[p - n..p] + [x])[1..]
  {
  }

  lemma OneMore<T>(s: seq<T>, i: nat)
    requires i < |s|
    ensures s[..i + 1] == s[..i] + [s[i]]
  {
  }

  /** The first n of all have been written, and nothing else. */
  ghost predicate Written<T>(was: seq<T>, now: seq<T>, all: seq<T>, n: nat) {
    n <= |all| <= |was| == |now| && now[..n] == all[..n] && now[n..] == was[n..]
  }

  lemma OneWritten<T>(was: seq<T>, now: seq<T>, all: seq<T>, n: nat)
    requires n < |all| && Written(was, now, all, n)
    ensures |now| == |was| && Written(was, now[n := all[n]], all, n + 1)
  {
    var next := now[n := all[n]];
    assert next[..n] == now[..n];
    assert next[..n + 1] == next[..n] + [all[n]] && all[..n + 1] == all[..n] + [all[n]];
    assert next[n + 1..] == now[n..][1..] && was[n + 1..] == was[n..][1..];
  }

  lemma NextPeak(s: seq<int>, i: nat, peak: int)
    requires i < |s| && IsPeak(s[..i], peak)
    ensures IsPeak(s[..i + 1], if s[i] > peak then s[i] else peak)
  {
    OneMore(s, i);
  }

  lemma InReach(i: nat, len: nat, step: nat, n: nat)
    requires i < len && (len - 1) * step < n
    ensures 0 <= i * step < n && (i + 1) * step == i * step + step
  {
    assert (len - 1) * step == i * step + (len - 1 - i) * step;
    NotNegative(i, step);
    NotNegative(len - 1 - i, step);
  }

  lemma NotNegative(m: nat, n: nat)
    ensures m * n >= 0
  {
  }

  /** The samples that filter_run_buf takes. */
  function Picked(input: seq<int>, step: nat, len: nat): (s: seq<int>)
    requires len > 0 ==> (len - 1) * step < |input|
    ensures |s| == len
  {
    seq(len, i requires 0 <= i < len =>
      InReach(i, len, step, |input|);
      input[i * step])
  }

  lemma PickedAt(input: seq<int>, step: nat, len: nat, i: nat)
    requires i < len && (len - 1) * step < |input|
    ensures 0 <= i * step < |input| && Picked(input, step, len)[i] == input[i * step]
  {
    InReach(i, len, step, |input|);
  }

  function Converted<F>(o: Arith<F>, s: seq<int>): (ys: seq<F>)
    ensures |ys| == |s|
  {
    seq(|s|, i requires 0 <= i < |s| => o.ofShort(s[i]))
  }

  lemma ConvertedAt<F>(o: Arith<F>, s: seq<int>, i: nat)
    requires i < |s|
    ensures Converted(o, s)[i] == o.ofShort(s[i])
  {
  }

  /** The largest sample, but at least 0. */
  predicate IsPeak(s: seq<int>, peak: int) {
    peak >= 0 && (forall v :: v in s ==> v <= peak) && (peak > 0 ==> peak in s)
  }

  /** Output i knows what came before only. */
  lemma OutputAt<F>(o: Arith<F>, taps: seq<F>, x: seq<F>, ys: seq<F>, i: nat)
    requires i < |ys|
    ensures Outputs(o, taps, x, ys)[i] == Convolved(o, taps, x + ys[..i] + [ys[i]], |x| + i)
  {
    SameBefore(o, x + ys, x + ys[..i] + [ys[i]], |taps|, |x| + i);
  }

  lemma WindowSlides<F>(o: Arith<F>, history: seq<F>, x: F, n: nat)
    ensures (Before(o, history, n, |history|) + [x])[1..] == Before(o, history + [x], n, |history| + 1)
  {
  }

  /** The window before k depends on the samples before k only. */
  lemma SameBefore<F>(o: Arith<F>, x: seq<F>, y: seq<F>, n: nat, k: nat)
    requires k <= |x| && k <= |y| && x[..k] == y[..k]
    ensures Before(o, x, n, k) == Before(o, y, n, k)
  {
    forall j | 0 <= j < n
      ensures Before(o, x, n, k)[j] == Before(o, y, n, k)[j]
    {
      if k + j >= n {
        assert x[..k][k + j - n] == y[..k][k + j - n];
      }
    }
  }

  // ---------------------------------------------------------------- filter_run_buf

  /** Where filter_run_buf is after n of its samples. */
  ghost predicate Progress<F>(o: Arith<F>, taps: seq<F>, x: seq<F>, input: seq<int>, step: nat, len: nat, n: nat,
      history: seq<F>, was: seq<F>, now: seq<F>, peak: int)
    requires n <= len && (len > 0 ==> (len - 1) * step < |input|)
  {
    var s := Picked(input, step, len);
    var ys := Converted(o, s);
    history == x + ys[..n] && Written(was, now, Outputs(o, taps, x, ys), n) && IsPeak(s[..n], peak)
  }

  lemma Begins<F>(o: Arith<F>, taps: seq<F>, x: seq<F>, input: seq<int>, step: nat, len: nat, was: seq<F>)
    requires len > 0 ==> (len - 1) * step < |input|
    requires len <= |was|
    ensures Progress(o, taps, x, input, step, len, 0, x, was, was, 0)
  {
    hide Convolved, Picked, Converted, Outputs;
  }

  lemma Progresses<F>(o: Arith<F>, taps: seq<F>, x: seq<F>, input: seq<int>, step: nat, len: nat, n: nat,
      history: seq<F>, was: seq<F>, now: seq<F>, peak: int)
    requires n < len && (len - 1) * step < |input| && 0 <= n * step < |input|
    requires Progress(o, taps, x, input, step, len, n, history, was, now, peak)
    ensures var v := input[n * step];
      var next := history + [o.ofShort(v)];
      && n < |now| == |was|
      && Progress(o, taps, x, input, step, len, n + 1, next, was,
           now[n := Convolved(o, taps, next, |history|)], if v > peak then v else peak)
  {
    hide Convolved, Picked, Converted, Outputs, IsPeak, Written;
    var s := Picked(input, step, len);
    var ys := Converted(o, s);
    PickedAt(input, step, len, n);
    ConvertedAt(o, s, n);
    OneMore(ys, n);
    OutputAt(o, taps, x, ys, n);
    OneWritten(was, now, Outputs(o, taps, x, ys), n);
    NextPeak(s, n, peak);
    assert x + ys[..n] + [ys[n]] == x + ys[..n + 1];
  }

  lemma Ends<F>(o: Arith<F>, taps: seq<F>, x: seq<F>, input: seq<int>, step: nat, len: nat,
      history: seq<F>, was: seq<F>, now: seq<F>, peak: int)
    requires len > 0 ==> (len - 1) * step < |input|
    requires Progress(o, taps, x, input, step, len, len, history, was, now, peak)
    ensures var s := Picked(input, step, len);
      var ys := Converted(o, s);
      && len <= |now| == |was|
      && history == x + ys && now[..len] == Outputs(o, taps, x, ys) && now[len..] == was[len..] && IsPeak(s, peak)
  {
    hide Convolved, Picked, Converted, Outputs, IsPeak;
    var s := Picked(input, step, len);
    assert s[..len] == s && Converted(o, s)[..len] == Converted(o, s);
    var all := Outputs(o, taps, x, Converted(o, s));
    assert all[..len] == all;
  }

  // ---------------------------------------------------------------- blocks

  /** The outputs of the blocks, one after the other, each block after what came before. */
  function BlockByBlock<F>(o: Arith<F>, taps: seq<F>, x: seq<F>, blocks: seq<seq<F>>): seq<F>
    decreases |blocks|
  {
    if blocks == [] then [] else Outputs(o, taps, x, blocks[0]) + BlockByBlock(o, taps, x + blocks[0], blocks[1..])
  }

  lemma OutputsSplit<F>(o: Arith<F>, taps: seq<F>, x: seq<F>, a: seq<F>, b: seq<F>)
    ensures Outputs(o, taps, x, a + b) == Outputs(o, taps, x, a) + Outputs(o, taps, x + a, b)
  {
    assert x + (a + b) == x + a + b;
    forall i | 0 <= i < |a|
      ensures Outputs(o, taps, x, a + b)[i] == Outputs(o, taps, x, a)[i]
    {
      var all, part := x + (a + b), x + a;
      assert all[..|x| + i] == part[..|x| + i];
      SameBefore(o, all, part, |taps|, |x| + i);
      assert Convolved(o, taps, all, |x| + i) == Convolved(o, taps, part, |x| + i);
    }
    assert Outputs(o, taps, x, a + b)[|a|..] == Outputs(o, taps, x + a, b);
  }

  /** Any two ways to cut the input give the same output, also one sample at a time. */
  lemma {:induction false} BlocksDoNotMatter<F>(o: Arith<F>, taps: seq<F>, x: seq<F>, blocks: seq<seq<F>>)
    ensures BlockByBlock(o, taps, x, blocks) == Outputs(o, taps, x, Joined(blocks))
    decreases |blocks|
  {
    if blocks != [] {
      BlocksDoNotMatter(o, taps, x + blocks[0], blocks[1..]);
      OutputsSplit(o, taps, x, blocks[0], Joined(blocks[1..]));
    }
  }
}

/** fix_fft: a butterfly, the loops over stages, lanes and butterflies, in 16 bits. */
module Fft {
  import opened BitReversal
  import opened Butterflies
  import opened Bytes
  import opened FixedPoint
  import opened Indexes
  import opened Samples
  import opened Twiddles

  /** The factor that is read for lane m when blocks of 2^q are joined. */
  function Twiddle(sine: seq<int>, log2: nat, q: nat, m: nat): Point {
    if q < log2 && m < Pow2(q) && |sine| == TableLength(log2) then
      var j := SineAt(log2, q, m);
      Point(sine[j + Pow2(log2) / 4], Int16(-sine[j]))
    else Point(0, 0)
  }

  function Net(sine: seq<int>, log2: nat): Network<Point> {
    Network(Point(0, 0),
      (q, m, a, b) => Plus(Twiddle(sine, log2, q, m), a, b),
      (q, m, a, b) => Minus(Twiddle(sine, log2, q, m), a, b))
  }

  // ---------------------------------------------------------------- the loops

  /** wr and wi are halves already. */
  method Butterfly(iq: array<int>, i: nat, j: nat, wr: int, wi: int, ghost w: Point)
    requires i < j && 2 * j + 1 < iq.Length && Point(wr, wi) == Half(w)
    modifies iq
    ensures Points(iq[..]) == old(var x := Points(iq[..]); x[i := Plus(w, x[i], x[j])][j := Minus(w, x[i], x[j])])
  {
    hide Half, Int16, FixMpy, Points;
    ghost var x := iq[..];
    var tr := Int16(FixMpy(wr, iq[2 * j]) - FixMpy(wi, iq[2 * j + 1]));
    var ti := Int16(FixMpy(wr, iq[2 * j + 1]) + FixMpy(wi, iq[2 * j]));
    var qr := iq[2 * i] / 2;
    var qi := iq[2 * i + 1] / 2;
    iq[2 * j] := Int16(qr - tr);
    iq[2 * j + 1] := Int16(qi - ti);
    iq[2 * i] := Int16(qr + tr);
    iq[2 * i + 1] := Int16(qi + ti);
    TwoPoints(x, iq[..], i, j);
    assert Half(Points(x)[i]) == Point(qr, qi) by { HalfOf(Points(x)[i]); }
  }

  lemma HalfOf(a: Point)
    ensures Half(a) == Point(a.re / 2, a.im / 2)
  {
  }

  lemma TwoPoints(x: seq<int>, y: seq<int>, i: nat, j: nat)
    requires |x| == |y| && i < j && 2 * j + 1 < |x|
    requires y == x[2 * j := y[2 * j]][2 * j + 1 := y[2 * j + 1]][2 * i := y[2 * i]][2 * i + 1 := y[2 * i + 1]]
    ensures Points(y) == Points(x)[i := Point(y[2 * i], y[2 * i + 1])][j := Point(y[2 * j], y[2 * j + 1])]
  {
  }

  /** In lane m the network multiplies by w. */
  ghost predicate Turns(o: Network<Point>, q: nat, m: nat, w: Point) {
    forall a, b :: o.plus(q, m, a, b) == Plus(w, a, b) && o.minus(q, m, a, b) == Minus(w, a, b)
  }

  lemma NetTurns(sine: seq<int>, log2: nat, q: nat, m: nat)
    ensures Turns(Net(sine, log2), q, m, Twiddle(sine, log2, q, m))
  {
  }

  lemma LaneStep(o: Network<Point>, q: nat, l: nat, z: seq<Point>, m: nat, c: nat, x: seq<Point>, i: nat, w: Point)
    requires m < l && Partly(o, q, l, z, m, c, x) && i == c * (2 * l) + m && i + l < |z| && Turns(o, q, m, w)
    ensures |x| == |z|
    ensures Partly(o, q, l, z, m, c + 1, x[i := Plus(w, x[i], x[i + l])][i + l := Minus(w, x[i], x[i + l])])
  {
    hide Plus, Minus;
    ButterflyStep(o, q, l, z, m, c, x, i);
  }

  /** One lane of a stage: the loop over i. */
  method Lane(iq: array<int>, m: nat, l: nat, wr: int, wi: int,
      ghost o: Network<Point>, ghost w: Point, ghost q: nat, ghost z: seq<Point>, ghost blocks: nat)
    requires m < l && Point(wr, wi) == Half(w)
    requires Turns(o, q, m, w)
    requires iq.Length == 2 * |z| && |z| == blocks * (2 * l) && Partly(o, q, l, z, m, 0, Points(iq[..]))
    modifies iq
    ensures Partly(o, q, l, z, m + 1, 0, Points(iq[..]))
  {
    hide Partly, Plus, Minus, Half, Turns, Points;
    var n := iq.Length / 2;
    var i, istep := m, l * 2;
    ghost var c := 0;
    while i < n
      invariant c <= blocks && i == c * (2 * l) + m && Partly(o, q, l, z, m, c, Points(iq[..]))
      decreases n - i
    {
      NextFits(c, blocks, l, m);
      LaneStep(o, q, l, z, m, c, Points(iq[..]), i, w);
      Butterfly(iq, i, i + l, wr, wi, w);
      i := i + istep;
      c := c + 1;
    }
    AllDone(c, blocks, l, m);
    LaneEnd(o, q, l, z, m, c, Points(iq[..]));
  }

  lemma NextFits(c: nat, blocks: nat, l: nat, m: nat)
    requires m < l && c * (2 * l) + m < blocks * (2 * l)
    ensures 0 <= c * (2 * l) && c < blocks && c * (2 * l) + m + l < blocks * (2 * l)
      && (c + 1) * (2 * l) == c * (2 * l) + 2 * l
  {
    assert (blocks - c) * (2 * l) == blocks * (2 * l) - c * (2 * l);
    Multiples(blocks - c, 2 * l);
    Multiples(blocks - c - 1, 2 * l);
    assert (blocks - c - 1) * (2 * l) == (blocks - c) * (2 * l) - 2 * l;
  }

  lemma AllDone(c: nat, blocks: nat, l: nat, m: nat)
    requires m < l && c <= blocks && c * (2 * l) + m >= blocks * (2 * l)
    ensures c == blocks
  {
    assert (blocks - c) * (2 * l) == blocks * (2 * l) - c * (2 * l);
    Multiples(blocks - c, 2 * l);
  }

  /** wr and wi, each halved by a right shift. */
  method HalfTwiddle(sine: array<int>, log2: nat, ghost q: nat, k: nat, m: nat) returns (wr: int, wi: int)
    requires q + k == log2 - 1 && m < Pow2(q) && sine.Length == TableLength(log2)
    ensures Point(wr, wi) == Half(Twiddle(sine[..], log2, q, m))
  {
    ghost var at := SineAt(log2, q, m);
    hide Pow2, TableLength, Int16;
    var j := m * Pow2(k);
    wr, wi := sine[j + Pow2(log2) / 4], Int16(-sine[j]);
    wr, wi := wr / 2, wi / 2;
  }

  /** One stage: the loop over m. The shift k is that of the source, log2 - 1 - q. */
  method Stage(iq: array<int>, l: nat, k: nat, sine: array<int>, log2: nat, ghost q: nat, ghost blocks: nat)
    requires q + k == log2 - 1 && l == Pow2(q) && iq.Length == 2 * (blocks * (2 * l))
    requires sine != iq && sine.Length == TableLength(log2)
    modifies iq
    ensures |Points(iq[..])| == old(|Points(iq[..])|)
    ensures var z := old(Points(iq[..]));
      forall i :: 0 <= i < |z| ==> Points(iq[..])[i] == Joined(Net(sine[..], log2), q, l, z, i)
  {
    ghost var z, o := Points(iq[..]), Net(sine[..], log2);
    StageStart(o, q, l, z);
    hide *;
    for m := 0 to l
      invariant Partly(o, q, l, z, m, 0, Points(iq[..]))
    {
      var wr, wi := HalfTwiddle(sine, log2, q, k, m);
      NetTurns(sine[..], log2, q, m);
      Lane(iq, m, l, wr, wi, o, Twiddle(sine[..], log2, q, m), q, z, blocks);
    }
    StageEnd(o, q, l, z, Points(iq[..]));
  }

  lemma WholeBlock<T>(o: Network<T>, y: seq<T>, p: nat, z: seq<T>)
    requires Blocks(o, y, p, z) && |y| == Pow2(p)
    ensures |z| == |y| && forall k :: 0 <= k < |z| ==> z[k] == Block(o, y, 0, p, k)
  {
    hide Block;
    forall k | 0 <= k < |z|
      ensures z[k] == Block(o, y, 0, p, k)
    {
      Place(0, Pow2(p), k);
    }
  }

  /** The loop over the stages: l = 1, 2, 4, ... and the shift k counts down. */
  method Stages(iq: array<int>, p: nat, sine: array<int>, log2: nat)
    requires iq.Length == 2 * Pow2(p) && p <= log2 && sine != iq && sine.Length == TableLength(log2)
    modifies iq
    ensures forall i :: 0 <= i < Pow2(p) ==>
      Points(iq[..])[i] == Block(Net(sine[..], log2), old(Points(iq[..])), 0, p, i)
  {
    hide Blocks, Points, Joined, Net, TableLength, Block;
    ghost var y, o := Points(iq[..]), Net(sine[..], log2);
    var n := Pow2(p);
    var l, k := 1, log2 - 1;
    ghost var q := 0;
    BlocksStart(o, y);
    while l < n
      invariant q <= p && l == Pow2(q) && k == log2 - 1 - q && Blocks(o, y, q, Points(iq[..]))
      decreases p - q
    {
      Pow2Grows(p, q);
      Pow2Add(p - q - 1, q + 1);
      ghost var z, blocks := Points(iq[..]), Pow2(p - q - 1);
      Stage(iq, l, k, sine, log2, q, blocks);
      BlocksJoin(o, y, q, z, Points(iq[..]), blocks);
      k, l, q := k - 1, l * 2, q + 1;
    }
    Pow2Grows(p, q);
    WholeBlock(o, y, p, Points(iq[..]));
  }

  /** Output k of the network of butterflies, given the samples in order. */
  function Output(sine: seq<int>, log2: nat, x: seq<Point>, p: nat, k: nat): Point
    requires |x| == Pow2(p) && k < |x|
  {
    Block(Net(sine, log2), BitReversed(p, x), 0, p, k)
  }

  /** fix_fft on 2^p interleaved samples. */
  method FixFft(iq: array<int>, p: nat, sine: array<int>, log2: nat) returns (r: int)
    requires iq.Length == 2 * Pow2(p) && sine != iq && sine.Length == TableLength(log2)
    modifies iq
    ensures r == if p <= log2 then 0 else -1
    ensures r == -1 ==> iq[..] == old(iq[..])
    ensures r == 0 ==> forall k :: 0 <= k < Pow2(p) ==>
      Points(iq[..])[k] == Output(sine[..], log2, old(Points(iq[..])), p, k)
  {
    Pow2Grows(p, log2);
    hide Net, BitReversed, Points;
    var n := Pow2(p);
    if n > Pow2(log2) {
      return -1;
    }
    ReorderData(iq, p);
    Stages(iq, p, sine, log2);
    return 0;
  }
}

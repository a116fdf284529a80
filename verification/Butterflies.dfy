/** The order in which fix_fft goes through its butterflies, whatever a butterfly computes. */
module Butterflies {
  import opened Indexes

  /** In the stage that joins blocks of 2^q, lane m turns a and b into plus(q, m, a, b) and minus(q, m, a, b). */
  datatype Network<!T> = Network(zero: T, plus: (nat, nat, T, T) -> T, minus: (nat, nat, T, T) -> T)

  function Get<T>(o: Network<T>, x: seq<T>, i: nat): T {
    if i < |x| then x[i] else o.zero
  }

  /** Output k of the block of 2^q samples that starts at lo: one recursive call for each half. */
  function Block<T>(o: Network<T>, y: seq<T>, lo: nat, q: nat, k: nat): T
    requires k < Pow2(q)
    decreases q
  {
    if q == 0 then Get(o, y, lo)
    else
      var h := Pow2(q - 1);
      if k < h then o.plus(q - 1, k, Block(o, y, lo, q - 1, k), Block(o, y, lo + h, q - 1, k))
      else o.minus(q - 1, k - h, Block(o, y, lo, q - 1, k - h), Block(o, y, lo + h, q - 1, k - h))
  }

  /** Every block of 2^q has been transformed. */
  ghost predicate Blocks<T>(o: Network<T>, y: seq<T>, q: nat, z: seq<T>) {
    |z| == |y| && forall i :: 0 <= i < |z| ==> z[i] == Block(o, y, i - Rem(i, Pow2(q)), q, Rem(i, Pow2(q)))
  }

  /** Element i after neighbouring blocks of l = 2^q have been joined. */
  function Joined<T>(o: Network<T>, q: nat, l: nat, z: seq<T>, i: nat): T
    requires i < |z| && l >= 1
  {
    var r := Rem(i, 2 * l);
    if r < l then o.plus(q, r, z[i], Get(o, z, i + l)) else o.minus(q, r - l, z[i - l], z[i])
  }

  lemma BlocksStart<T>(o: Network<T>, y: seq<T>)
    ensures Blocks(o, y, 0, y)
  {
    hide Rem;
    forall i | 0 <= i < |y|
      ensures y[i] == Block(o, y, i - Rem(i, Pow2(0)), 0, Rem(i, Pow2(0)))
    {
      assert Rem(i, 1) == 0;
    }
  }

  lemma BlockJoins<T>(o: Network<T>, y: seq<T>, q: nat, z: seq<T>, c: nat, i: nat)
    requires Blocks(o, y, q, z) && |z| == c * (2 * Pow2(q)) && i < |z|
    ensures Joined(o, q, Pow2(q), z, i) == Block(o, y, i - Rem(i, Pow2(q + 1)), q + 1, Rem(i, Pow2(q + 1)))
  {
    hide Blocks, Block, Joined, Rem;
    var l := Pow2(q);
    InRange(i, 2 * l, c);
    PairJoins(o, y, q, z, i, l, Rem(i, 2 * l));
  }

  /** Both elements of a pair are there. */
  lemma PairJoins<T>(o: Network<T>, y: seq<T>, q: nat, z: seq<T>, i: nat, l: nat, r: nat)
    requires Blocks(o, y, q, z) && l == Pow2(q) && Pow2(q + 1) == 2 * l
    requires r == Rem(i, 2 * l) && r <= i && i - r + 2 * l <= |z|
    ensures i < |z| && Joined(o, q, l, z, i) == Block(o, y, i - r, q + 1, r)
  {
    hide Blocks, Rem, Pow2, Block;
    Halves(i, l);
    NextBlock(o, y, i - r, q, r);
    InBlock(o, y, q, z, i);
    InBlock(o, y, q, z, if r < l then i + l else i - l);
  }

  lemma NextBlock<T>(o: Network<T>, y: seq<T>, lo: nat, q: nat, k: nat)
    requires k < Pow2(q + 1) == 2 * Pow2(q)
    ensures Block(o, y, lo, q + 1, k) ==
      var h := Pow2(q);
      if k < h then o.plus(q, k, Block(o, y, lo, q, k), Block(o, y, lo + h, q, k))
      else o.minus(q, k - h, Block(o, y, lo, q, k - h), Block(o, y, lo + h, q, k - h))
  {
  }

  lemma InBlock<T>(o: Network<T>, y: seq<T>, q: nat, z: seq<T>, i: nat)
    requires Blocks(o, y, q, z) && i < |z|
    ensures z[i] == Block(o, y, i - Rem(i, Pow2(q)), q, Rem(i, Pow2(q)))
  {
  }

  /** If blocks of 2^q were transformed, joining them transforms the blocks of 2^(q+1). */
  lemma BlocksJoin<T>(o: Network<T>, y: seq<T>, q: nat, z: seq<T>, z': seq<T>, c: nat)
    requires Blocks(o, y, q, z) && |z| == c * (2 * Pow2(q)) && |z'| == |z|
    requires forall i :: 0 <= i < |z| ==> z'[i] == Joined(o, q, Pow2(q), z, i)
    ensures Blocks(o, y, q + 1, z')
  {
    hide Joined, Block, Rem;
    forall i | 0 <= i < |z'|
      ensures z'[i] == Block(o, y, i - Rem(i, Pow2(q + 1)), q + 1, Rem(i, Pow2(q + 1)))
    {
      BlockJoins(o, y, q, z, c, i);
    }
  }

  // ---------------------------------------------------------------- one stage

  function LaneOf(l: nat, i: nat): nat
    requires l >= 1
  {
    var r := Rem(i, 2 * l);
    if r < l then r else r - l
  }

  /** Lanes before m are through, and the first c butterflies of lane m. */
  predicate Through(l: nat, m: nat, c: nat, i: nat)
    requires l >= 1
  {
    LaneOf(l, i) < m || (LaneOf(l, i) == m && Div(i, 2 * l) < c)
  }

  /** Nothing is touched twice: what is not through is as it was before the stage. */
  ghost predicate Partly<T>(o: Network<T>, q: nat, l: nat, z: seq<T>, m: nat, c: nat, z': seq<T>)
    requires l >= 1
  {
    |z'| == |z| && forall i :: 0 <= i < |z| ==> z'[i] == if Through(l, m, c, i) then Joined(o, q, l, z, i) else z[i]
  }

  lemma PairPlace(l: nat, m: nat, c: nat)
    requires m < l
    ensures var i := c * (2 * l) + m; i >= 0 && Rem(i, 2 * l) == m && Rem(i + l, 2 * l) == m + l
    ensures var i := c * (2 * l) + m; Div(i, 2 * l) == c && Div(i + l, 2 * l) == c
  {
    hide Rem, Div;
    Place(c, 2 * l, m);
    Place(c, 2 * l, m + l);
  }

  /** Butterfly c of lane m is for two elements that are not through, and it is for no others. */
  lemma OnePair(l: nat, m: nat, c: nat, j: nat)
    requires m < l
    ensures var i := c * (2 * l) + m;
      if j == i || j == i + l then Through(l, m, c + 1, j) && !Through(l, m, c, j)
      else Through(l, m, c + 1, j) <==> Through(l, m, c, j)
  {
    hide Rem, Div;
    PairPlace(l, m, c);
    Placed(j, 2 * l);
  }

  lemma ButterflyStep<T>(o: Network<T>, q: nat, l: nat, z: seq<T>, m: nat, c: nat, z': seq<T>, i: nat)
    requires m < l && Partly(o, q, l, z, m, c, z') && i == c * (2 * l) + m && i + l < |z|
    ensures Partly(o, q, l, z, m, c + 1,
      z'[i := o.plus(q, m, z'[i], z'[i + l])][i + l := o.minus(q, m, z'[i], z'[i + l])])
  {
    hide Rem, Through;
    PairPlace(l, m, c);
    OnePair(l, m, c, i);
    OnePair(l, m, c, i + l);
    var z'' := z'[i := o.plus(q, m, z'[i], z'[i + l])][i + l := o.minus(q, m, z'[i], z'[i + l])];
    forall j | 0 <= j < |z|
      ensures z''[j] == if Through(l, m, c + 1, j) then Joined(o, q, l, z, j) else z[j]
    {
      OnePair(l, m, c, j);
    }
  }

  lemma StageStart<T>(o: Network<T>, q: nat, l: nat, z: seq<T>)
    requires l >= 1
    ensures Partly(o, q, l, z, 0, 0, z)
  {
    hide Joined, Rem, Div;
  }

  lemma LaneEnd<T>(o: Network<T>, q: nat, l: nat, z: seq<T>, m: nat, c: nat, z': seq<T>)
    requires l >= 1 && Partly(o, q, l, z, m, c, z') && |z| == c * (2 * l)
    ensures Partly(o, q, l, z, m + 1, 0, z')
  {
    hide Joined, Rem, Div, LaneOf;
    forall i | 0 <= i < |z|
      ensures Through(l, m, c, i) <==> Through(l, m + 1, 0, i)
    {
      InRange(i, 2 * l, c);
    }
  }

  lemma StageEnd<T>(o: Network<T>, q: nat, l: nat, z: seq<T>, z': seq<T>)
    requires l >= 1 && Partly(o, q, l, z, l, 0, z')
    ensures |z'| == |z| && forall i :: 0 <= i < |z| ==> z'[i] == Joined(o, q, l, z, i)
  {
    hide Joined;
    forall i | 0 <= i < |z|
      ensures Through(l, l, 0, i)
    {
    }
  }
}

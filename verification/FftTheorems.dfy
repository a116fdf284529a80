/** The exact network computes the discrete Fourier transform, divided by its length, if its table is
    one of an exact sine. */
module FftTheorems {
  import opened Complexes
  import opened Indexes
  import opened BitReversal
  import opened Butterflies
  import opened ExactFft
  import opened Twiddles

  // ---------------------------------------------------------------- the transform

  /** The first n terms of the sum over j of x[j] * w^(j * k). */
  function Sum(x: seq<Complex>, w: Complex, k: nat, n: nat): Complex
    requires n <= |x|
  {
    if n == 0 then ZERO else Add(Sum(x, w, k, n - 1), Mul(Pow(w, (n - 1) * k), x[n - 1]))
  }

  function Dft(x: seq<Complex>, w: Complex, k: nat): Complex {
    Sum(x, w, k, |x|)
  }

  function Evens(x: seq<Complex>): (y: seq<Complex>)
    ensures |y| == |x| / 2 && forall i :: 0 <= i < |y| ==> y[i] == x[2 * i]
  {
    seq(|x| / 2, i requires 0 <= i < |x| / 2 => x[2 * i])
  }

  function Odds(x: seq<Complex>): (y: seq<Complex>)
    ensures |y| == |x| / 2 && forall i :: 0 <= i < |y| ==> y[i] == x[2 * i + 1]
  {
    seq(|x| / 2, i requires 0 <= i < |x| / 2 => x[2 * i + 1])
  }

  lemma Regroup(a: Complex, b: Complex, p: Complex, s: Complex, r: Complex, t: Complex)
    ensures Add(Add(Add(a, Mul(p, b)), s), Mul(Mul(p, r), t)) == Add(Add(a, s), Mul(p, Add(b, Mul(r, t))))
  {
    MulAssoc(p, r, t);
    MulAdd(p, b, Mul(r, t));
    hide Mul;
  }

  lemma MulAdd(p: Complex, b: Complex, c: Complex)
    ensures Mul(p, Add(b, c)) == Add(Mul(p, b), Mul(p, c))
  {
  }

  /** A sum of 2n terms is the sum over the even ones plus w^k times the sum over the odd ones. */
  lemma {:induction false} SumSplits(x: seq<Complex>, w: Complex, k: nat, n: nat)
    requires 2 * n <= |x|
    ensures Sum(x, w, k, 2 * n) == Add(Sum(Evens(x), Pow(w, 2), k, n), Mul(Pow(w, k), Sum(Odds(x), Pow(w, 2), k, n)))
  {
    hide Mul, Add, Pow;
    if n == 0 {
      NoTerms(Pow(w, k), ZERO);
    } else {
      var v, m := Pow(w, 2), n - 1;
      var e := m * k;
      SumSplits(x, w, k, m);
      SplitTerms(x, w, k, m, e);
      NextTerm(Evens(x), v, k, m, e);
      NextTerm(Odds(x), v, k, m, e);
      Regroup(Sum(Evens(x), v, k, m), Sum(Odds(x), v, k, m), Pow(w, k), Mul(Pow(v, e), x[2 * m]), Pow(v, e),
        x[2 * m + 1]);
    }
  }

  lemma NoTerms(p: Complex, z: Complex)
    requires z == ZERO
    ensures Add(z, Mul(p, z)) == z
  {
    assert p.re * z.re == 0.0 && p.im * z.im == 0.0 && p.re * z.im == 0.0 && p.im * z.re == 0.0;
  }

  lemma NextTerm(x: seq<Complex>, w: Complex, k: nat, j: nat, e: nat)
    requires j < |x| && e == j * k
    ensures Sum(x, w, k, j + 1) == Add(Sum(x, w, k, j), Mul(Pow(w, e), x[j]))
  {
    hide Add, Mul, Pow;
  }

  lemma SplitTerms(x: seq<Complex>, w: Complex, k: nat, m: nat, e: nat)
    requires 2 * m + 2 <= |x| && e == m * k
    ensures var v := Pow(w, 2);
      Sum(x, w, k, 2 * m + 2) ==
        Add(Add(Sum(x, w, k, 2 * m), Mul(Pow(v, e), x[2 * m])), Mul(Mul(Pow(w, k), Pow(v, e)), x[2 * m + 1]))
  {
    hide Mul, Add, Sum, Pow;
    assert (2 * m) * k == 2 * e && (2 * m + 1) * k == k + 2 * e;
    NextTerm(x, w, k, 2 * m, 2 * e);
    NextTerm(x, w, k, 2 * m + 1, k + 2 * e);
    PowPow(w, 2, e);
    PowAdd(w, k, 2 * e);
  }

  lemma {:induction false} OnePow(k: nat)
    ensures Pow(ONE, k) == ONE
  {
    hide Mul;
    if k > 0 {
      OnePow(k - 1);
      OneTimes(ONE);
    }
  }

  /** Outputs of a transform of length h repeat after h. */
  lemma {:induction false} SumPeriod(x: seq<Complex>, v: Complex, k: nat, h: nat, n: nat)
    requires n <= |x| && Pow(v, h) == ONE
    ensures Sum(x, v, k + h, n) == Sum(x, v, k, n)
  {
    hide Mul, Add;
    if n > 0 {
      SumPeriod(x, v, k, h, n - 1);
      var m := n - 1;
      assert m * k >= 0 && h * m >= 0 && m * (k + h) == m * k + h * m;
      PowAdd(v, m * k, h * m);
      PowPow(v, h, m);
      OnePow(m);
      OneTimes(Pow(v, m * k));
    }
  }

  // ---------------------------------------------------------------- roots of unity

  /** The table holds the sine, read as the powers of a root of unity w: the first quarter further
      on is the cosine. */
  ghost predicate SineTable(sine: seq<real>, log2: nat, w: Complex) {
    && log2 >= 2 && |sine| == TableLength(log2) && Pow(w, Pow2(log2 - 1)) == MINUS_ONE
    && forall j :: 0 <= j < Pow2(log2 - 1) ==> Cosine(sine, log2, j) == Pow(w, j)
  }

  function Cosine(sine: seq<real>, log2: nat, j: nat): Complex
    requires log2 >= 2 && |sine| == TableLength(log2) && j < Pow2(log2 - 1)
  {
    assert Pow2(log2 - 1) == 2 * Pow2(log2 - 2);
    Complex(sine[j + Pow2(log2) / 4], -sine[j])
  }

  /** There are such tables: the one for four samples, with w = -i. */
  lemma FourPointTable(sine: seq<real>, log2: nat, w: Complex)
    requires sine == [0.0, 1.0, 0.0] && log2 == 2 && w == Complex(0.0, -1.0)
    ensures SineTable(sine, log2, w)
  {
    FirstPow2s(log2);
    FirstPowers(w);
    hide Pow, Pow2;
    forall j | 0 <= j < Pow2(log2 - 1)
      ensures Cosine(sine, log2, j) == Pow(w, j)
    {
      assert j == 0 || j == 1;
    }
  }

  /** The one for eight samples, s being the square root of 1/2. */
  lemma EightPointTable(s: real, sine: seq<real>, log2: nat, w: Complex)
    requires 2.0 * (s * s) == 1.0 && sine == [0.0, s, 1.0, s, 0.0, -s] && log2 == 3 && w == Complex(s, -s)
    ensures SineTable(sine, log2, w)
  {
    FirstPow2s(log2 - 1);
    assert Pow2(log2) == 8;
    EighthRoot(s, w);
    hide Pow, Pow2;
    forall j | 0 <= j < Pow2(log2 - 1)
      ensures Cosine(sine, log2, j) == Pow(w, j)
    {
      assert j == 0 || j == 1 || j == 2 || j == 3;
    }
  }

  lemma EighthRoot(s: real, w: Complex)
    requires 2.0 * (s * s) == 1.0 && w == Complex(s, -s)
    ensures Pow(w, 0) == ONE && Pow(w, 1) == w && Pow(w, 2) == Complex(0.0, -1.0)
    ensures Pow(w, 3) == Complex(-s, -s) && Pow(w, 4) == MINUS_ONE
  {
    FirstPowers(w);
    assert Mul(w, w) == Complex(0.0, -1.0);
    assert Pow(w, 3) == Mul(w, Pow(w, 2)) && Pow(w, 4) == Mul(w, Pow(w, 3));
    hide Pow;
    assert Mul(w, Complex(0.0, -1.0)) == Complex(-s, -s);
    assert Mul(w, Complex(-s, -s)) == MINUS_ONE;
  }

  lemma FirstPow2s(two: nat)
    requires two == 2
    ensures Pow2(two) == 4 && Pow2(two - 1) == 2
  {
  }

  lemma FirstPowers(w: Complex)
    ensures Pow(w, 0) == ONE && Pow(w, 1) == w && Pow(w, 2) == Mul(w, w)
  {
    hide Mul;
    OneTimes(w);
  }

  /** The root of unity for transforms of 2^q samples. */
  function Root(w: Complex, log2: nat, q: nat): Complex
    requires q <= log2
  {
    Pow(w, Pow2(log2 - q))
  }

  lemma RootSquared(w: Complex, log2: nat, q: nat)
    requires q < log2
    ensures Pow(Root(w, log2, q + 1), 2) == Root(w, log2, q)
  {
    hide Mul;
    PowPow(w, Pow2(log2 - q - 1), 2);
  }

  lemma RootHalfway(w: Complex, log2: nat, q: nat)
    requires q < log2 && Pow(w, Pow2(log2 - 1)) == MINUS_ONE
    ensures Pow(Root(w, log2, q + 1), Pow2(q)) == MINUS_ONE
  {
    PowPow(w, Pow2(log2 - q - 1), Pow2(q));
    Pow2Add(log2 - q - 1, q);
  }

  lemma TwiddleIsRoot(sine: seq<real>, log2: nat, w: Complex, q: nat, m: nat)
    requires SineTable(sine, log2, w) && q < log2 && m < Pow2(q)
    ensures Twiddle(sine, log2, q, m) == Pow(Root(w, log2, q + 1), m)
  {
    TwiddleInTable(log2, q, m);
    var j := m * Pow2(log2 - 1 - q);
    assert Twiddle(sine, log2, q, m) == Cosine(sine, log2, j);
    PowPow(w, Pow2(log2 - 1 - q), m);
    hide Mul;
  }

  // ---------------------------------------------------------------- the theorem

  lemma HalvesCancel(n: real, w: Complex, a: Complex, b: Complex)
    ensures Scale(2.0 * n, Plus(w, a, b)) == Add(Scale(n, a), Mul(w, Scale(n, b)))
    ensures Scale(2.0 * n, Minus(w, a, b)) == Sub(Scale(n, a), Mul(w, Scale(n, b)))
  {
    hide Scale, Add, Sub, Mul;
    HalfMul(w, b);
    ScaleSpreads(2.0 * n, Scale(0.5, a), Scale(0.5, Mul(w, b)));
    TwiceHalf(n, a);
    TwiceHalf(n, Mul(w, b));
    ScaleMul(n, w, b);
  }

  lemma TwiceHalf(n: real, a: Complex)
    ensures Scale(2.0 * n, Scale(0.5, a)) == Scale(n, a)
  {
  }

  lemma HalfMul(w: Complex, b: Complex)
    ensures Mul(Scale(0.5, w), b) == Scale(0.5, Mul(w, b))
  {
  }

  lemma ScaleMul(n: real, w: Complex, b: Complex)
    ensures Scale(n, Mul(w, b)) == Mul(w, Scale(n, b))
  {
    ScaledDifference(n, w.re, b.re, w.im, b.im);
    ScaledDifference(n, w.re, b.im, -w.im, b.re);
  }

  lemma ScaledDifference(n: real, x: real, u: real, y: real, v: real)
    ensures n * (x * u - y * v) == x * (n * u) - y * (n * v)
  {
    assert n * (x * u - y * v) == n * (x * u) - n * (y * v);
    assert n * (x * u) == x * (n * u);
    assert n * (y * v) == y * (n * v);
  }

  lemma ScaleSpreads(n: real, a: Complex, b: Complex)
    ensures Scale(n, Add(a, b)) == Add(Scale(n, a), Scale(n, b))
    ensures Scale(n, Sub(a, b)) == Sub(Scale(n, a), Scale(n, b))
  {
  }

  /** The samples of a block are those of g in bit-reversed order. */
  ghost predicate Reversed(y: seq<Complex>, lo: nat, q: nat, g: seq<Complex>) {
    |g| == Pow2(q) && lo + |g| <= |y| && forall i :: 0 <= i < |g| ==> y[lo + i] == g[Rev(q, i)]
  }

  lemma ReversedHalves(y: seq<Complex>, lo: nat, q: nat, g: seq<Complex>)
    requires Reversed(y, lo, q + 1, g)
    ensures Reversed(y, lo, q, Evens(g)) && Reversed(y, lo + Pow2(q), q, Odds(g))
  {
    var h := Pow2(q);
    forall i | 0 <= i < h
      ensures y[lo + i] == Evens(g)[Rev(q, i)] && y[lo + h + i] == Odds(g)[Rev(q, i)]
    {
      RevFromTop(q, i);
      assert y[lo + (i + h)] == g[Rev(q + 1, i + h)];
    }
  }

  /** The transform of length 2h from those of the even and the odd samples. */
  lemma DftFromHalves(g: seq<Complex>, r: Complex, h: nat, k: nat)
    requires |g| == 2 * h && Pow(r, h) == MINUS_ONE
    ensures var v := Pow(r, 2);
      && Dft(g, r, k) == Add(Dft(Evens(g), v, k), Mul(Pow(r, k), Dft(Odds(g), v, k)))
      && Dft(g, r, k + h) == Sub(Dft(Evens(g), v, k), Mul(Pow(r, k), Dft(Odds(g), v, k)))
  {
    hide Mul, Add, Sub, Pow, Sum;
    var v := Pow(r, 2);
    SumSplits(g, r, k, h);
    SumSplits(g, r, k + h, h);
    SquareToOne(r, h);
    SumPeriod(Evens(g), v, k, h, h);
    SumPeriod(Odds(g), v, k, h, h);
    PowAdd(r, k, h);
    Negated(Dft(Evens(g), v, k), Pow(r, k), Dft(Odds(g), v, k));
  }

  lemma SquareToOne(r: Complex, h: nat)
    requires Pow(r, h) == MINUS_ONE
    ensures Pow(Pow(r, 2), h) == ONE
  {
    hide Mul, Pow;
    PowPow(r, 2, h);
    PowPow(r, h, 2);
    FirstPowers(MINUS_ONE);
    MinusOneSquared(MINUS_ONE);
  }

  lemma MinusOneSquared(a: Complex)
    requires a == MINUS_ONE
    ensures Mul(a, a) == ONE
  {
  }

  lemma Negated(a: Complex, p: Complex, b: Complex)
    ensures Add(a, Mul(Mul(p, MINUS_ONE), b)) == Sub(a, Mul(p, b))
  {
  }

  lemma {:induction false} BlockIsDft(sine: seq<real>, log2: nat, w: Complex, y: seq<Complex>, lo: nat, q: nat,
      g: seq<Complex>, k: nat)
    requires SineTable(sine, log2, w) && q <= log2 && Reversed(y, lo, q, g) && k < Pow2(q)
    ensures Scale(Pow2(q) as real, Block(Net(sine, log2), y, lo, q, k)) == Dft(g, Root(w, log2, q), k)
    decreases q
  {
    hide SineTable, Root, Reversed, Twiddle, Plus, Minus, Add, Mul, Sub, Scale, Sum, Pow, Rev;
    if q == 0 {
      OneSample(sine, log2, y, lo, g, Root(w, log2, q), k);
    } else {
      var h := Pow2(q - 1);
      var k' := if k < h then k else k - h;
      ReversedHalves(y, lo, q - 1, g);
      BlockIsDft(sine, log2, w, y, lo, q - 1, Evens(g), k');
      BlockIsDft(sine, log2, w, y, lo + h, q - 1, Odds(g), k');
      RootSquared(w, log2, q - 1);
      TwiddleIsRoot(sine, log2, w, q - 1, k');
      DftHalfway(sine, log2, w, q - 1, y, lo, g, k');
      HalvesCancel(h as real, Twiddle(sine, log2, q - 1, k'),
        Block(Net(sine, log2), y, lo, q - 1, k'), Block(Net(sine, log2), y, lo + h, q - 1, k'));
      assert Pow2(q) as real == 2.0 * (h as real);
    }
  }

  lemma DftHalfway(sine: seq<real>, log2: nat, w: Complex, q: nat, y: seq<Complex>, lo: nat, g: seq<Complex>, k: nat)
    requires SineTable(sine, log2, w) && q < log2 && Reversed(y, lo, q + 1, g)
    ensures var r := Root(w, log2, q + 1);
      var v := Root(w, log2, q);
      && Dft(g, r, k) == Add(Dft(Evens(g), v, k), Mul(Pow(r, k), Dft(Odds(g), v, k)))
      && Dft(g, r, k + Pow2(q)) == Sub(Dft(Evens(g), v, k), Mul(Pow(r, k), Dft(Odds(g), v, k)))
  {
    hide Root, Mul, Add, Sub, Sum, Pow, Rev;
    RootHalfway(w, log2, q);
    RootSquared(w, log2, q);
    DftFromHalves(g, Root(w, log2, q + 1), Pow2(q), k);
  }

  lemma OneSample(sine: seq<real>, log2: nat, y: seq<Complex>, lo: nat, g: seq<Complex>, r: Complex, k: nat)
    requires Reversed(y, lo, 0, g) && k == 0
    ensures Scale(1.0, Block(Net(sine, log2), y, lo, 0, k)) == Dft(g, r, k)
  {
    assert y[lo + 0] == g[Rev(0, 0)];
    assert Sum(g, r, k, 1) == Add(Sum(g, r, k, 0), Mul(Pow(r, 0), g[0]));
  }

  /** Slot k of the result, times the length, is the sum over j of x[j] * r^(j * k). */
  lemma FftIsDft(sine: seq<real>, log2: nat, w: Complex, x: seq<Complex>, p: nat, k: nat)
    requires SineTable(sine, log2, w) && p <= log2 && |x| == Pow2(p) && k < |x|
    ensures Scale(Pow2(p) as real, Output(sine, log2, x, p, k)) == Dft(x, Root(w, log2, p), k)
  {
    hide SineTable, Dft, Scale, Block;
    BlockIsDft(sine, log2, w, BitReversed(p, x), 0, p, x, k);
  }
}

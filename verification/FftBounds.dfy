/** How far fix_fft is from the discrete Fourier transform: at most 4 for each stage, and nothing
    wraps, as long as the samples leave room for that. */
module FftBounds {
  import opened BitReversal
  import opened Butterflies
  import opened Bytes
  import opened Complexes
  import opened FftTheorems
  import opened FixedPoint
  import opened Indexes
  import opened Moduli
  import opened Samples
  import opened Twiddles
  import ExactFft
  import Fft

  function Value(a: Point): Complex {
    Complex(a.re as real, a.im as real)
  }

  function Values(x: seq<Point>): (z: seq<Complex>)
    ensures |z| == |x| && forall i :: 0 <= i < |z| ==> z[i] == Value(x[i])
  {
    seq(|x|, i requires 0 <= i < |x| => Value(x[i]))
  }

  /** The distance of a from z is at most e. */
  predicate Near(a: Point, z: Complex, e: real) {
    Within(Sub(Value(a), z), e)
  }

  /** An entry of the table: 32767 times the sine, rounded to the nearest. */
  predicate Entry(i: int, sine: real) {
    -0.5 <= i as real - 32767.0 * sine <= 0.5
  }

  /** sine_table, for an exact sine. */
  ghost predicate Rounded(table: seq<int>, sine: seq<real>) {
    |table| == |sine| && forall j :: 0 <= j < |table| ==> Entry(table[j], sine[j])
  }

  /** A factor of modulus one, and its entries in the table. */
  predicate Factor(w: Point, t: Complex) {
    Norm(t) == 1.0 && Entry(w.re, t.re) && Entry(w.im, t.im)
  }

  // ---------------------------------------------------------------- one multiplication

  lemma RoundingError(x: int)
    ensures -0.5 <= RoundedBy15(x) as real - x as real / 32768.0 <= 0.5
  {
  }

  lemma RealProduct(x: int, y: int)
    ensures (x * y) as real == x as real * y as real
  {
  }

  /** A product of 16-bit numbers, as a fraction of 2^15. */
  function Fraction(h: Point): Complex {
    Scale(1.0 / 32768.0, Value(h))
  }

  lemma PartRounds(x: int, y: int)
    ensures -0.5 <= RoundedBy15(x * y) as real - (1.0 / 32768.0 * x as real) * y as real <= 0.5
  {
    RoundingError(x * y);
    RealProduct(x, y);
    hide RoundedBy15;
    assert (1.0 / 32768.0 * x as real) * y as real == 1.0 / 32768.0 * (x as real * y as real);
  }

  /** The two roundings of each part. */
  lemma TimesRounds(h: Point, b: Point)
    ensures Near(RawTimes(h, b), Mul(Fraction(h), Value(b)), 1.42)
  {
    PartRounds(h.re, b.re);
    PartRounds(h.im, b.im);
    PartRounds(h.re, b.im);
    PartRounds(h.im, b.re);
    hide RoundedBy15, Within;
    BoxWithin(Sub(Value(RawTimes(h, b)), Mul(Fraction(h), Value(b))), 1.0, 1.42);
  }

  /** Rounding the table and halving its entry. */
  lemma HalfEntry(i: int, sine: real)
    requires Entry(i, sine) && -1.0 <= sine <= 1.0
    ensures -1.25 / 32768.0 <= 1.0 / 32768.0 * (i / 2) as real - 0.5 * sine <= 1.25 / 32768.0
    ensures -16384 <= i / 2 <= 16383 && -32767 <= i <= 32767
  {
    assert 2 * (i / 2) <= i <= 2 * (i / 2) + 1;
  }

  lemma HalfFactor(w: Point, t: Complex)
    requires Factor(w, t)
    ensures Within(Sub(Fraction(Half(w)), Scale(0.5, t)), 1.77 / 32768.0)
    ensures Within(t, 1.0) && -16384 <= Half(w).re <= 16383 && -16384 <= Half(w).im <= 16383
  {
    UnitWithin(t);
    PartWithin(t, 1.0);
    hide Within, Entry;
    HalfEntry(w.re, t.re);
    HalfEntry(w.im, t.im);
    BoxWithin(Sub(Fraction(Half(w)), Scale(0.5, t)), 1.25 / 32768.0, 1.77 / 32768.0);
  }

  lemma UnitWithin(t: Complex)
    requires Norm(t) == 1.0
    ensures Within(t, 1.0)
  {
    hide Norm;
  }

  lemma ValueWithin(b: Point, z: Complex, m: real, e: real)
    requires Within(z, m) && Near(b, z, e)
    ensures Within(Value(b), m + e)
  {
    hide Within;
    SumWithin(z, Sub(Value(b), z), m, e);
    assert Add(z, Sub(Value(b), z)) == Value(b);
  }

  lemma MulSub(h: Complex, f: Complex, b: Complex)
    ensures Mul(Sub(h, f), b) == Sub(Mul(h, b), Mul(f, b)) && Mul(b, Sub(h, f)) == Sub(Mul(b, h), Mul(b, f))
  {
  }

  lemma Decompose(r: Complex, h: Complex, b: Complex, f: Complex, z: Complex)
    ensures Sub(r, Mul(f, z)) == Add(Add(Sub(r, Mul(h, b)), Mul(Sub(h, f), b)), Mul(f, Sub(b, z)))
  {
    MulSub(h, f, b);
    MulSub(b, z, f);
    hide Mul;
  }

  lemma TimesNear(w: Point, t: Complex, b: Point, z: Complex, m: real, e: real)
    requires Factor(w, t) && Within(z, m) && Near(b, z, e) && m + e <= 32767.0
    ensures Near(RawTimes(Half(w), b), Mul(Scale(0.5, t), z), 0.5 * e + 3.19)
  {
    hide RawTimes, Half, Factor, Mul, Scale, Sub, Add, Within;
    var h, f, v := Fraction(Half(w)), Scale(0.5, t), Value(b);
    var r := Value(RawTimes(Half(w), b));
    TimesRounds(Half(w), b);
    HalfFactor(w, t);
    ValueWithin(b, z, m, e);
    TimesWithin(Sub(h, f), v, 1.77 / 32768.0, m + e);
    Wider(Mul(Sub(h, f), v), 1.77 / 32768.0 * (m + e), 1.77);
    ScaleWithin(0.5, t, 1.0);
    TimesWithin(f, Sub(v, z), 0.5 * 1.0, e);
    SumWithin(Sub(r, Mul(h, v)), Mul(Sub(h, f), v), 1.42, 1.77);
    SumWithin(Add(Sub(r, Mul(h, v)), Mul(Sub(h, f), v)), Mul(f, Sub(v, z)), 1.42 + 1.77, 0.5 * 1.0 * e);
    Decompose(r, h, v, f, z);
  }

  lemma HalfNear(a: Point, z: Complex, e: real)
    requires Near(a, z, e)
    ensures Near(Half(a), Scale(0.5, z), 0.5 * e + 0.71)
  {
    hide Within;
    var rest := Sub(Value(Half(a)), Scale(0.5, Value(a)));
    assert 2 * Half(a).re <= a.re <= 2 * Half(a).re + 1 && 2 * Half(a).im <= a.im <= 2 * Half(a).im + 1;
    BoxWithin(rest, 0.5, 0.71);
    ScaleWithin(0.5, Sub(Value(a), z), e);
    SumWithin(rest, Scale(0.5, Sub(Value(a), z)), 0.71, 0.5 * e);
    assert Sub(Value(Half(a)), Scale(0.5, z)) == Add(rest, Scale(0.5, Sub(Value(a), z)));
  }

  lemma SumNear(a: Point, b: Point, y: Complex, z: Complex, d: real, e: real)
    requires Near(a, y, d) && Near(b, z, e)
    ensures Near(RawSum(a, b), Add(y, z), d + e) && Near(RawDifference(a, b), Sub(y, z), d + e)
  {
    hide Within;
    SumWithin(Sub(Value(a), y), Sub(Value(b), z), d, e);
    assert Sub(Value(RawSum(a, b)), Add(y, z)) == Add(Sub(Value(a), y), Sub(Value(b), z));
    assert Sub(Value(RawDifference(a, b)), Sub(y, z)) == Sub(Sub(Value(a), y), Sub(Value(b), z));
  }

  lemma WiderNear(a: Point, z: Complex, d: real, e: real)
    requires Near(a, z, d) && d <= e
    ensures Near(a, z, e)
  {
    Wider(Sub(Value(a), z), d, e);
  }

  lemma ShortsWithin(a: Point, z: Complex, m: real, e: real)
    requires Within(z, m) && Near(a, z, e) && m + e <= 32767.0
    ensures Shorts(a)
  {
    hide Within, Near;
    ValueWithin(a, z, m, e);
    PartWithin(Value(a), m + e);
  }

  // ---------------------------------------------------------------- one butterfly

  /** The exact butterfly keeps the modulus. */
  lemma ExactWithin(t: Complex, y: Complex, z: Complex, m: real)
    requires Norm(t) == 1.0 && Within(y, m) && Within(z, m)
    ensures Within(Mul(Scale(0.5, t), z), 0.5 * m)
    ensures Within(ExactFft.Plus(t, y, z), m) && Within(ExactFft.Minus(t, y, z), m)
  {
    hide Within, Norm, Scale, Mul, Add, Sub;
    UnitWithin(t);
    ScaleWithin(0.5, t, 1.0);
    ScaleWithin(0.5, y, m);
    TimesWithin(Scale(0.5, t), z, 0.5 * 1.0, m);
    SumWithin(Scale(0.5, y), Mul(Scale(0.5, t), z), 0.5 * m, 0.5 * m);
  }

  lemma ProductsShort(h: Point, b: Point)
    requires -16384 <= h.re <= 16383 && -16384 <= h.im <= 16383 && Shorts(b)
    ensures Short(RoundedBy15(h.re * b.re)) && Short(RoundedBy15(h.im * b.im))
    ensures Short(RoundedBy15(h.re * b.im)) && Short(RoundedBy15(h.im * b.re))
  {
    hide RoundedBy15;
    FixMpyRounds(h.re, b.re);
    FixMpyRounds(h.im, b.im);
    FixMpyRounds(h.re, b.im);
    FixMpyRounds(h.im, b.re);
  }

  /** A butterfly adds at most 4 to the distance from the exact one, and nothing wraps. */
  lemma ButterflyNear(w: Point, t: Complex, a: Point, b: Point, y: Complex, z: Complex, m: real, e: real)
    requires Factor(w, t) && Within(y, m) && Within(z, m) && Near(a, y, e) && Near(b, z, e) && m + e + 4.0 <= 32767.0
    ensures Fits(w, a, b)
    ensures Near(Plus(w, a, b), ExactFft.Plus(t, y, z), e + 4.0)
      && Near(Minus(w, a, b), ExactFft.Minus(t, y, z), e + 4.0)
    ensures Within(ExactFft.Plus(t, y, z), m) && Within(ExactFft.Minus(t, y, z), m)
  {
    hide Within, Norm, Scale, Mul, Add, Sub, Near, RawTimes, Half, RawSum, RawDifference, Shorts, Short, Plus, Minus,
      RoundedBy15;
    var q, r := Half(a), RawTimes(Half(w), b);
    var y', z' := Scale(0.5, y), Mul(Scale(0.5, t), z);
    ExactWithin(t, y, z, m);
    HalfNear(a, y, e);
    TimesNear(w, t, b, z, m, e);
    SumNear(q, r, y', z', 0.5 * e + 0.71, 0.5 * e + 3.19);
    WiderNear(RawSum(q, r), Add(y', z'), e + 3.9, e + 4.0);
    WiderNear(RawDifference(q, r), Sub(y', z'), e + 3.9, e + 4.0);
    ShortsWithin(RawSum(q, r), Add(y', z'), m, e + 4.0);
    ShortsWithin(RawDifference(q, r), Sub(y', z'), m, e + 4.0);
    ShortsWithin(r, z', 0.5 * m, 0.5 * e + 3.19);
    ShortsWithin(b, z, m, e);
    HalfFactor(w, t);
    ProductsShort(Half(w), b);
    NothingWraps(w, a, b);
  }

  // ---------------------------------------------------------------- the network

  /** The table of fix_fft is that of an exact sine, rounded. */
  ghost predicate Tables(table: seq<int>, sine: seq<real>, log2: nat, w: Complex) {
    SineTable(sine, log2, w) && Rounded(table, sine)
  }

  lemma UnitTwiddle(sine: seq<real>, log2: nat, w: Complex, q: nat, m: nat)
    requires SineTable(sine, log2, w) && q < log2 && m < Pow2(q)
    ensures Norm(ExactFft.Twiddle(sine, log2, q, m)) == 1.0
  {
    hide Norm;
    TwiddleIsRoot(sine, log2, w, q, m);
    RootOfMinusOne(w, Pow2(log2 - 1));
    NormPow(w, Pow2(log2 - (q + 1)));
    NormPow(Root(w, log2, q + 1), m);
  }

  lemma NegatedEntry(i: int, sine: real)
    requires Entry(i, sine) && -1.0 <= sine <= 1.0
    ensures Entry(Int16(-i), -sine)
  {
    HalfEntry(i, sine);
    ShortStays(-i);
  }

  lemma TwiddleFactor(table: seq<int>, sine: seq<real>, log2: nat, w: Complex, q: nat, m: nat)
    requires Tables(table, sine, log2, w) && q < log2 && m < Pow2(q)
    ensures Factor(Fft.Twiddle(table, log2, q, m), ExactFft.Twiddle(sine, log2, q, m))
  {
    UnitTwiddle(sine, log2, w, q, m);
    var t := ExactFft.Twiddle(sine, log2, q, m);
    UnitWithin(t);
    PartWithin(t, 1.0);
    hide Norm, Within, Pow2, Entry, Int16;
    var j := SineAt(log2, q, m);
    NegatedEntry(table[j], sine[j]);
    assert Entry(table[j + Pow2(log2) / 4], sine[j + Pow2(log2) / 4]);
  }

  /** The samples of a block, which starts at lo, are at most m. */
  ghost predicate Small(y: seq<Point>, lo: nat, n: nat, m: real) {
    lo + n <= |y| && forall i :: lo <= i < lo + n ==> Within(Value(y[i]), m)
  }

  function Error(q: nat): real {
    4.0 * q as real
  }

  lemma {:induction false} BlockNear(table: seq<int>, sine: seq<real>, log2: nat, w: Complex,
      y: seq<Point>, lo: nat, q: nat, k: nat, m: real)
    requires Tables(table, sine, log2, w) && q <= log2 && k < Pow2(q)
    requires Small(y, lo, Pow2(q), m) && m + Error(q) <= 32767.0
    ensures var z := Block(ExactFft.Net(sine, log2), Values(y), lo, q, k);
      Within(z, m) && Near(Block(Fft.Net(table, log2), y, lo, q, k), z, Error(q))
    decreases q
  {
    hide Tables, Within, Near, Plus, Minus, ExactFft.Plus, ExactFft.Minus, Fft.Twiddle, ExactFft.Twiddle, Fits, Factor;
    if q == 0 {
      OneNear(y[lo], m);
    } else {
      var h := Pow2(q - 1);
      var k' := if k < h then k else k - h;
      var t, x := Fft.Twiddle(table, log2, q - 1, k'), ExactFft.Twiddle(sine, log2, q - 1, k');
      BlockNear(table, sine, log2, w, y, lo, q - 1, k', m);
      BlockNear(table, sine, log2, w, y, lo + h, q - 1, k', m);
      TwiddleFactor(table, sine, log2, w, q - 1, k');
      ButterflyNear(t, x,
        Block(Fft.Net(table, log2), y, lo, q - 1, k'), Block(Fft.Net(table, log2), y, lo + h, q - 1, k'),
        Block(ExactFft.Net(sine, log2), Values(y), lo, q - 1, k'),
        Block(ExactFft.Net(sine, log2), Values(y), lo + h, q - 1, k'),
        m, Error(q - 1));
    }
  }

  lemma OneNear(a: Point, m: real)
    requires Within(Value(a), m)
    ensures Near(a, Value(a), 0.0)
  {
    assert Sub(Value(a), Value(a)) == Complex(0.0, 0.0);
    BoxWithin(Complex(0.0, 0.0), 0.0, 0.0);
  }

  // ---------------------------------------------------------------- the transform

  lemma ReversedSmall(p: nat, x: seq<Point>, m: real)
    requires |x| == Pow2(p) && Small(x, 0, |x|, m)
    ensures Small(BitReversed(p, x), 0, |x|, m) && Values(BitReversed(p, x)) == BitReversed(p, Values(x))
  {
    hide Within;
  }

  /** In no butterfly of any stage does anything wrap. */
  lemma NothingOverflows(table: seq<int>, sine: seq<real>, log2: nat, w: Complex,
      x: seq<Point>, p: nat, m: real, q: nat, lo: nat, k: nat)
    requires Tables(table, sine, log2, w) && p <= log2 && |x| == Pow2(p)
    requires Small(x, 0, |x|, m) && m + Error(p) <= 32767.0
    requires q < p && k < Pow2(q) && lo + 2 * Pow2(q) <= |x|
    ensures var y, o := BitReversed(p, x), Fft.Net(table, log2);
      Fits(Fft.Twiddle(table, log2, q, k), Block(o, y, lo, q, k), Block(o, y, lo + Pow2(q), q, k))
  {
    hide Tables, Within, Near, Fits, Factor, Block, Pow2, Fft.Twiddle, ExactFft.Twiddle, BitReversed, Values;
    var y := BitReversed(p, x);
    var o, e, h := Fft.Net(table, log2), ExactFft.Net(sine, log2), Pow2(q);
    ReversedSmall(p, x, m);
    BlockNear(table, sine, log2, w, y, lo, q, k, m);
    BlockNear(table, sine, log2, w, y, lo + h, q, k, m);
    TwiddleFactor(table, sine, log2, w, q, k);
    ButterflyNear(Fft.Twiddle(table, log2, q, k), ExactFft.Twiddle(sine, log2, q, k),
      Block(o, y, lo, q, k), Block(o, y, lo + h, q, k),
      Block(e, Values(y), lo, q, k), Block(e, Values(y), lo + h, q, k),
      m, Error(q));
  }

  lemma Unscale(n: real, z: Complex, s: Complex)
    requires n > 0.0 && Scale(n, z) == s
    ensures z == Scale(1.0 / n, s)
  {
    assert 1.0 / n * (n * z.re) == z.re && 1.0 / n * (n * z.im) == z.im;
  }

  /** fix_fft is within 4 for each stage of the discrete Fourier transform divided by its length. */
  lemma FixFftIsDft(table: seq<int>, sine: seq<real>, log2: nat, w: Complex, x: seq<Point>, p: nat, k: nat, m: real)
    requires Tables(table, sine, log2, w) && p <= log2 && |x| == Pow2(p) && k < |x|
    requires Small(x, 0, |x|, m) && m + Error(p) <= 32767.0
    ensures Near(Fft.Output(table, log2, x, p, k),
      Scale(1.0 / (Pow2(p) as real), Dft(Values(x), Root(w, log2, p), k)), Error(p))
  {
    hide SineTable, Within, Near, Block, Scale, Dft, Root, Pow2, BitReversed, Values;
    ReversedSmall(p, x, m);
    BlockNear(table, sine, log2, w, BitReversed(p, x), 0, p, k, m);
    FftIsDft(sine, log2, w, Values(x), p, k);
    Unscale(Pow2(p) as real, ExactFft.Output(sine, log2, Values(x), p, k), Dft(Values(x), Root(w, log2, p), k));
  }

  // ---------------------------------------------------------------- tables

  /** sine_table for four samples. */
  lemma FourPoints(table: seq<int>, sine: seq<real>, log2: nat, w: Complex)
    requires table == [0, 32767, 0] && sine == [0.0, 1.0, 0.0] && log2 == 2 && w == Complex(0.0, -1.0)
    ensures Tables(table, sine, log2, w)
  {
    FourPointTable(sine, log2, w);
    hide *;
    FourEntries(table, sine);
    BothTables(table, sine, log2, w);
  }

  lemma BothTables(table: seq<int>, sine: seq<real>, log2: nat, w: Complex)
    requires SineTable(sine, log2, w) && Rounded(table, sine)
    ensures Tables(table, sine, log2, w)
  {
    hide SineTable, Rounded;
  }

  lemma FourEntries(table: seq<int>, sine: seq<real>)
    requires table == [0, 32767, 0] && sine == [0.0, 1.0, 0.0]
    ensures Rounded(table, sine)
  {
    hide Entry;
    KnownEntry(table[0], sine[0]);
    KnownEntry(table[1], sine[1]);
  }

  lemma KnownEntry(i: int, sine: real)
    requires (i == 0 && sine == 0.0) || (i == 32767 && sine == 1.0)
    ensures Entry(i, sine)
  {
  }

  /** sine_table for eight samples, s being the square root of 1/2. */
  lemma EightPoints(s: real, table: seq<int>, sine: seq<real>, log2: nat, w: Complex)
    requires s > 0.0 && 2.0 * (s * s) == 1.0 && log2 == 3 && w == Complex(s, -s)
    requires table == [0, 23170, 32767, 23170, 0, -23170] && sine == [0.0, s, 1.0, s, 0.0, -s]
    ensures Tables(table, sine, log2, w)
  {
    EightPointTable(s, sine, log2, w);
    RootOfHalf(s);
    hide SineTable, Entry;
    KnownEntry(table[0], sine[0]);
    KnownEntry(table[2], sine[2]);
  }

  lemma RootOfHalf(s: real)
    requires s > 0.0 && 2.0 * (s * s) == 1.0
    ensures Entry(23170, s) && Entry(-23170, -s)
  {
    if s > 23170.5 / 32767.0 {
      SquareApart(s, 23170.5 / 32767.0);
    } else if s < 23169.5 / 32767.0 {
      SquareApart(23169.5 / 32767.0, s);
    }
  }

  // ---------------------------------------------------------------- two samples

  /** With a table for two samples, of which one sine is kept, the cosine that is read is that sine:
      both outputs are half of the first sample, and are the transform only if the second one is 0. */
  lemma TwoPointsAreWrong(table: seq<int>, log2: nat, x: seq<Point>)
    requires table == [0] && log2 == 1 && |x| == Pow2(log2) && forall i :: 0 <= i < |x| ==> Shorts(x[i])
    ensures |x| == 2 && |table| == TableLength(log2)
    ensures forall k :: 0 <= k < 2 ==> Fft.Output(table, log2, x, log2, k) == Half(x[0])
    ensures Half(RawSum(x[0], x[1])) == Half(x[0]) && Half(RawDifference(x[0], x[1])) == Half(x[0])
      <==> x[1] == Point(0, 0)
  {
    FirstPow2s(log2 + 1);
    hide Pow2, Fft.Output, Shorts;
    assert Shorts(x[0]);
    TwoPointOutput(table, log2, x, 0);
    TwoPointOutput(table, log2, x, 1);
  }

  lemma TwoPointOutput(table: seq<int>, log2: nat, x: seq<Point>, k: nat)
    requires table == [0] && log2 == 1 && |x| == Pow2(log2) && k < 2 && Shorts(x[0])
    ensures |x| == 2 && Fft.Output(table, log2, x, log2, k) == Half(x[0])
  {
    FirstPow2s(log2 + 1);
    RevZero(log2);
    NoTwiddle(table, log2, log2 - 1);
    hide Fft.Twiddle, Pow2, Half, Block, Plus, Minus, Shorts, Rev;
    TwoSampleBlock(table, log2, BitReversed(log2, x), log2 - 1, k);
  }

  lemma TwoSampleBlock(table: seq<int>, log2: nat, y: seq<Point>, q: nat, k: nat)
    requires Fft.Twiddle(table, log2, q, 0) == Point(0, 0) && q == 0 && Pow2(q + 1) == 2 * Pow2(q) == 2
    requires |y| == 2 && Shorts(y[0]) && k < 2
    ensures Block(Fft.Net(table, log2), y, 0, q + 1, k) == Half(y[0])
  {
    hide Fft.Twiddle, Pow2, Half, Block, Plus, Minus, Shorts;
    var o := Fft.Net(table, log2);
    NextBlock(o, y, 0, q, k);
    OneSampleBlock(o, y, 0);
    OneSampleBlock(o, y, 1);
    NoFactor(Fft.Twiddle(table, log2, q, 0), y[0], y[1]);
  }

  lemma OneSampleBlock(o: Network<Point>, y: seq<Point>, lo: nat)
    ensures Block(o, y, lo, 0, 0) == Get(o, y, lo)
  {
  }

  lemma NoTwiddle(table: seq<int>, log2: nat, q: nat)
    requires table == [0] && log2 == 1 && q == 0
    ensures Fft.Twiddle(table, log2, q, 0) == Point(0, 0)
  {
    ShortStays(0);
    FirstPow2s(log2 + 1);
  }

  lemma NoFactor(w: Point, a: Point, b: Point)
    requires w == Point(0, 0) && Shorts(a)
    ensures Plus(w, a, b) == Minus(w, a, b) == Half(a)
  {
    assert RawTimes(Half(w), b) == Point(0, 0);
    hide RoundedBy15, RawTimes;
    NothingWraps(w, a, b);
  }
}

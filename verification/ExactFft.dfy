/** The network of butterflies of fix_fft over exact complex numbers: a product is not rounded, and
    a shift right by one is a division by two. */
module ExactFft {
  import opened BitReversal
  import opened Butterflies
  import opened Complexes
  import opened Indexes
  import opened Twiddles

  /** The factor for lane m when blocks of 2^q are joined. */
  function Twiddle(sine: seq<real>, log2: nat, q: nat, m: nat): Complex {
    if q < log2 && m < Pow2(q) && |sine| == TableLength(log2) then
      var j := SineAt(log2, q, m);
      Complex(sine[j + Pow2(log2) / 4], -sine[j])
    else ZERO
  }

  /** The two results of a butterfly; both its inputs are halved. */
  function Plus(w: Complex, a: Complex, b: Complex): Complex {
    Add(Scale(0.5, a), Mul(Scale(0.5, w), b))
  }

  function Minus(w: Complex, a: Complex, b: Complex): Complex {
    Sub(Scale(0.5, a), Mul(Scale(0.5, w), b))
  }

  function Net(sine: seq<real>, log2: nat): Network<Complex> {
    Network(ZERO,
      (q, m, a, b) => Plus(Twiddle(sine, log2, q, m), a, b),
      (q, m, a, b) => Minus(Twiddle(sine, log2, q, m), a, b))
  }

  /** Output k of the network, given the samples in order. */
  function Output(sine: seq<real>, log2: nat, x: seq<Complex>, p: nat, k: nat): Complex
    requires |x| == Pow2(p) && k < |x|
  {
    Block(Net(sine, log2), BitReversed(p, x), 0, p, k)
  }
}

/** Complex numbers over the reals: the arithmetic of the Fourier transform. */
module Complexes {
  datatype Complex = Complex(re: real, im: real)

  const ZERO := Complex(0.0, 0.0)
  const ONE := Complex(1.0, 0.0)
  const MINUS_ONE := Complex(-1.0, 0.0)

  function Add(a: Complex, b: Complex): Complex {
    Complex(a.re + b.re, a.im + b.im)
  }

  function Sub(a: Complex, b: Complex): Complex {
    Complex(a.re - b.re, a.im - b.im)
  }

  function Mul(a: Complex, b: Complex): Complex {
    Complex(a.re * b.re - a.im * b.im, a.re * b.im + a.im * b.re)
  }

  function Scale(s: real, a: Complex): Complex {
    Complex(s * a.re, s * a.im)
  }

  function Pow(w: Complex, k: nat): Complex {
    if k == 0 then ONE else Mul(w, Pow(w, k - 1))
  }

  lemma MulAssoc(a: Complex, b: Complex, c: Complex)
    ensures Mul(Mul(a, b), c) == Mul(a, Mul(b, c))
  {
    RealParts(a.re, a.im, b.re, b.im, c.re, c.im);
    RealParts(a.re, a.im, b.re, b.im, -c.im, c.re);
    var x, y := Mul(Mul(a, b), c), Mul(a, Mul(b, c));
    assert x.re == y.re;
    assert x.im == y.im;
  }

  lemma RealParts(p: real, q: real, r: real, s: real, u: real, v: real)
    ensures (p * r - q * s) * u - (p * s + q * r) * v == p * (r * u - s * v) - q * (r * v + s * u)
  {
    assert (p * r - q * s) * u == p * r * u - q * s * u;
    assert (p * s + q * r) * v == p * s * v + q * r * v;
    assert p * (r * u - s * v) == p * r * u - p * s * v;
    assert q * (r * v + s * u) == q * r * v + q * s * u;
  }

  lemma {:induction false} PowAdd(w: Complex, i: nat, j: nat)
    ensures Pow(w, i + j) == Mul(Pow(w, i), Pow(w, j))
  {
    hide Mul;
    if i == 0 {
      OneTimes(Pow(w, j));
    } else {
      PowAdd(w, i - 1, j);
      MulAssoc(w, Pow(w, i - 1), Pow(w, j));
    }
  }

  lemma OneTimes(a: Complex)
    ensures Mul(ONE, a) == a && Mul(a, ONE) == a
  {
  }

  lemma {:induction false} PowPow(w: Complex, i: nat, j: nat)
    ensures i * j >= 0 && Pow(Pow(w, i), j) == Pow(w, i * j)
  {
    hide Mul;
    if j > 0 {
      PowPow(w, i, j - 1);
      assert i + i * (j - 1) == i * j;
      PowAdd(w, i, i * (j - 1));
    }
  }
}

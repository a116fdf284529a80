/** Bounds on the modulus of a complex number, without square roots. */
module Moduli {
  import opened Complexes

  /** The square of the modulus. */
  function Norm(z: Complex): (n: real)
    ensures n >= 0.0
  {
    Square(z.re) + Square(z.im)
  }

  function Square(x: real): (y: real)
    ensures y >= 0.0
  {
    x * x
  }

  /** The modulus is at most r. */
  predicate Within(z: Complex, r: real) {
    r >= 0.0 && Norm(z) <= Square(r)
  }

  // ---------------------------------------------------------------- reals

  lemma NotNegative(x: real, y: real)
    requires x >= 0.0 && y >= 0.0
    ensures x * y >= 0.0
  {
  }

  lemma SquareOfNegative(x: real)
    ensures Square(-x) == Square(x)
  {
    assert (-x) * (-x) == x * x;
  }

  lemma SquareProduct(x: real, y: real)
    ensures Square(x * y) == Square(x) * Square(y)
  {
    assert (x * y) * (x * y) == (x * x) * (y * y);
  }

  lemma SquareSum(x: real, y: real)
    ensures Square(x + y) == Square(x) + 2.0 * (x * y) + Square(y)
    ensures Square(x - y) == Square(x) - 2.0 * (x * y) + Square(y)
  {
  }

  lemma ProductGrows(x: real, y: real, u: real, v: real)
    requires 0.0 <= x <= u && 0.0 <= y <= v
    ensures x * y <= u * v
  {
    NotNegative(u - x, y);
    NotNegative(u, v - y);
    assert u * v - x * y == (u - x) * y + u * (v - y);
  }

  function Product(x: real, y: real): real {
    x * y
  }

  lemma ProductSign(x: real, y: real)
    ensures x >= 0.0 && y >= 0.0 ==> Product(x, y) >= 0.0
    ensures x > 0.0 && y > 0.0 ==> Product(x, y) > 0.0
  {
  }

  lemma SquareDifference(x: real, y: real)
    ensures Square(x) - Square(y) == Product(x - y, x + y)
  {
  }

  lemma SquareGrows(x: real, y: real)
    requires -y <= x <= y
    ensures Square(x) <= Square(y)
  {
    hide Square, Product;
    ProductSign(y - x, y + x);
    SquareDifference(y, x);
  }

  lemma SquareApart(x: real, y: real)
    requires x > y >= 0.0
    ensures Square(x) > Square(y)
  {
    hide Square, Product;
    ProductSign(x - y, x + y);
    SquareDifference(x, y);
  }

  lemma RootGrows(x: real, y: real)
    requires y >= 0.0 && Square(x) <= Square(y)
    ensures -y <= x <= y
  {
    SquareOfNegative(x);
    hide Square;
    if x > y {
      SquareApart(x, y);
    } else if -x > y {
      SquareApart(-x, y);
    }
  }

  // ---------------------------------------------------------------- products and sums

  lemma NormMul(a: Complex, b: Complex)
    ensures Norm(Mul(a, b)) == Norm(a) * Norm(b)
  {
    var p, q, r, s := a.re, a.im, b.re, b.im;
    SquareProduct(p, r);
    SquareProduct(q, s);
    SquareProduct(p, s);
    SquareProduct(q, r);
    assert (p * r) * (q * s) == (p * s) * (q * r);
    FourSquares(p * r, q * s, p * s, q * r);
    hide Square;
    Distribute(Square(p), Square(q), Square(r), Square(s));
  }

  lemma FourSquares(x: real, y: real, u: real, v: real)
    requires x * y == u * v
    ensures Square(x - y) + Square(u + v) == Square(x) + Square(y) + Square(u) + Square(v)
  {
    hide Square;
    SquareSum(x, y);
    SquareSum(u, v);
  }

  lemma Distribute(p: real, q: real, r: real, s: real)
    ensures (p + q) * (r + s) == p * r + p * s + q * r + q * s
  {
  }

  lemma TimesWithin(a: Complex, b: Complex, r: real, s: real)
    requires Within(a, r) && Within(b, s)
    ensures Within(Mul(a, b), r * s)
  {
    NormMul(a, b);
    hide Norm, Square, Mul;
    SquareProduct(r, s);
    NotNegative(r, s);
    ProductGrows(Norm(a), Norm(b), Square(r), Square(s));
  }

  /** The inequality of Cauchy and Schwarz. */
  lemma DotWithin(a: Complex, b: Complex, r: real, s: real)
    requires Within(a, r) && Within(b, s)
    ensures -(r * s) <= a.re * b.re + a.im * b.im <= r * s
  {
    Conjugate(a, b);
    SquareOfNegative(a.im);
    hide Mul, Square;
    assert Within(Complex(a.re, -a.im), r);
    TimesWithin(Complex(a.re, -a.im), b, r, s);
    hide Within;
    PartWithin(Mul(Complex(a.re, -a.im), b), r * s);
  }

  lemma Conjugate(a: Complex, b: Complex)
    ensures Mul(Complex(a.re, -a.im), b).re == a.re * b.re + a.im * b.im
  {
  }

  lemma PartWithin(a: Complex, r: real)
    requires Within(a, r)
    ensures -r <= a.re <= r && -r <= a.im <= r
  {
    hide Square;
    RootGrows(a.re, r);
    RootGrows(a.im, r);
  }

  lemma SumWithin(a: Complex, b: Complex, r: real, s: real)
    requires Within(a, r) && Within(b, s)
    ensures Within(Add(a, b), r + s) && Within(Sub(a, b), r + s)
  {
    DotWithin(a, b, r, s);
    hide Square;
    SquareSum(a.re, b.re);
    SquareSum(a.im, b.im);
    SquareSum(r, s);
  }

  lemma ScaleWithin(c: real, a: Complex, r: real)
    requires c >= 0.0 && Within(a, r)
    ensures Within(Scale(c, a), c * r)
  {
    SquareProduct(c, a.re);
    SquareProduct(c, a.im);
    SquareProduct(c, r);
    NotNegative(c, r);
    hide Square;
    Distributes(Square(c), Square(a.re), Square(a.im));
    ProductGrows(Square(c), Norm(a), Square(c), Square(r));
  }

  lemma Distributes(c: real, x: real, y: real)
    ensures c * (x + y) == c * x + c * y
  {
  }

  lemma Wider(a: Complex, r: real, s: real)
    requires Within(a, r) && r <= s
    ensures Within(a, s)
  {
    hide Square, Norm;
    SquareGrows(r, s);
  }

  /** Both parts are at most e, and r is at least the square root of two times that. */
  lemma BoxWithin(a: Complex, e: real, r: real)
    requires -e <= a.re <= e && -e <= a.im <= e && r >= 0.0 && 2.0 * Square(e) <= Square(r)
    ensures Within(a, r)
  {
    hide Square;
    SquareGrows(a.re, e);
    SquareGrows(a.im, e);
  }

  // ---------------------------------------------------------------- roots of unity

  lemma {:induction false} NormPow(w: Complex, n: nat)
    ensures n >= 1 && Norm(w) < 1.0 ==> Norm(Pow(w, n)) < 1.0
    ensures n >= 1 && Norm(w) > 1.0 ==> Norm(Pow(w, n)) > 1.0
    ensures Norm(w) == 1.0 ==> Norm(Pow(w, n)) == 1.0
  {
    hide Mul, Norm;
    UnitNorm(ONE);
    if n > 0 {
      NormPow(w, n - 1);
      assert n == 1 ==> Pow(w, n - 1) == ONE;
      NormMul(w, Pow(w, n - 1));
      var x, y := Norm(w), Norm(Pow(w, n - 1));
      UnitProduct(x, y, n - 1);
      assert Norm(Pow(w, n)) == x * y;
    }
  }

  lemma UnitNorm(z: Complex)
    requires z == ONE || z == MINUS_ONE
    ensures Norm(z) == 1.0
  {
    assert Square(1.0) == 1.0 && Square(-1.0) == 1.0 && Square(0.0) == 0.0;
  }

  lemma UnitProduct(x: real, y: real, n: nat)
    requires x >= 0.0 && y >= 0.0
    requires n == 0 ==> y == 1.0
    requires n >= 1 && x < 1.0 ==> y < 1.0
    requires n >= 1 && x > 1.0 ==> y > 1.0
    requires x == 1.0 ==> y == 1.0
    ensures x < 1.0 ==> x * y < 1.0
    ensures x > 1.0 ==> x * y > 1.0
    ensures x == 1.0 ==> x * y == 1.0
  {
    if x < 1.0 {
      ProductGrows(x, y, x, 1.0);
    } else if x > 1.0 {
      ProductGrows(x, 1.0, x, y);
    }
  }

  /** A root of minus one has modulus one. */
  lemma RootOfMinusOne(w: Complex, n: nat)
    requires n >= 1 && Pow(w, n) == MINUS_ONE
    ensures Norm(w) == 1.0
  {
    hide Norm, Pow;
    UnitNorm(MINUS_ONE);
    NormPow(w, n);
  }
}

/** FIX_MPY and the butterfly of fix_fft, in 16 bits. */
module FixedPoint {
  import opened Bytes
  import opened Samples

  predicate Short(x: int) {
    -32768 <= x < 32768
  }

  lemma ShortStays(x: int)
    requires Short(x)
    ensures Int16(x) == x
  {
  }

  /** x divided by 2^15 and rounded, halves upwards. */
  function RoundedBy15(x: int): (r: int)
    ensures -16384 <= x - 32768 * r < 16384
  {
    var c := x / 16384;
    c / 2 + c % 2
  }

  /** FIX_MPY */
  function FixMpy(a: int, b: int): int {
    Int16(RoundedBy15(a * b))
  }

  lemma Grows(a: nat, b: nat, m: nat, n: nat)
    requires a <= m && b <= n
    ensures 0 <= a * b <= m * n
  {
    assert (m - a) * b >= 0 && m * (n - b) >= 0;
    assert m * n - a * b == (m - a) * b + m * (n - b);
  }

  lemma Products(a: int, b: int)
    requires Short(a) && Short(b)
    ensures if a == -32768 && b == -32768 then a * b == 32768 * 32768 else -32768 * 32767 <= a * b <= 32768 * 32767
  {
    if a < 0 && b < 0 {
      assert (-a) * (-b) == a * b;
      if a > -32768 {
        Grows(-a, -b, 32767, 32768);
      } else if b > -32768 {
        Grows(-a, -b, 32768, 32767);
      }
    } else if a < 0 {
      Grows(-a, b, 32768, 32767);
      assert (-a) * b == -(a * b);
    } else if b < 0 {
      Grows(a, -b, 32767, 32768);
      assert a * (-b) == -(a * b);
    } else {
      Grows(a, b, 32767, 32767);
    }
  }

  /** The product of two 16-bit numbers is rounded to the nearest, halves upwards; it leaves the
      16-bit range for one pair of arguments only. */
  lemma FixMpyRounds(a: int, b: int)
    requires Short(a) && Short(b)
    ensures Short(RoundedBy15(a * b)) <==> !(a == -32768 && b == -32768)
    ensures -16384 <= a * b - 32768 * FixMpy(a, b) < 16384 <==> !(a == -32768 && b == -32768)
  {
    Products(a, b);
    hide RoundedBy15, Int16;
    Rounds(a * b);
  }

  lemma Rounds(x: int)
    requires x == 0x4000_0000 || -32768 * 32767 <= x <= 32768 * 32767
    ensures Short(RoundedBy15(x)) <==> x != 0x4000_0000
    ensures -16384 <= x - 32768 * Int16(RoundedBy15(x)) < 16384 <==> x != 0x4000_0000
  {
    hide RoundedBy15, Int16;
    if x == 0x4000_0000 {
      Largest(RoundedBy15(x));
    } else {
      ShortStays(RoundedBy15(x));
    }
  }

  lemma Largest(r: int)
    requires r == 32768
    ensures Int16(r) == -32768
  {
  }

  // ---------------------------------------------------------------- the butterfly

  /** Both parts shifted right by one. */
  function Half(a: Point): Point {
    Point(a.re / 2, a.im / 2)
  }

  /** tr and ti, for a factor that has been halved. */
  function Times(h: Point, b: Point): Point {
    Point(Int16(FixMpy(h.re, b.re) - FixMpy(h.im, b.im)), Int16(FixMpy(h.re, b.im) + FixMpy(h.im, b.re)))
  }

  function Plus(w: Point, a: Point, b: Point): Point {
    var q, t := Half(a), Times(Half(w), b);
    Point(Int16(q.re + t.re), Int16(q.im + t.im))
  }

  function Minus(w: Point, a: Point, b: Point): Point {
    var q, t := Half(a), Times(Half(w), b);
    Point(Int16(q.re - t.re), Int16(q.im - t.im))
  }

  // ---------------------------------------------------------------- without the conversions

  function RawTimes(h: Point, b: Point): Point {
    Point(RoundedBy15(h.re * b.re) - RoundedBy15(h.im * b.im), RoundedBy15(h.re * b.im) + RoundedBy15(h.im * b.re))
  }

  function RawSum(a: Point, b: Point): Point { Point(a.re + b.re, a.im + b.im) }
  function RawDifference(a: Point, b: Point): Point { Point(a.re - b.re, a.im - b.im) }

  predicate Shorts(a: Point) {
    Short(a.re) && Short(a.im)
  }

  /** No product, sum or difference of the butterfly leaves the 16-bit range. */
  predicate Fits(w: Point, a: Point, b: Point) {
    var h := Half(w);
    var q, t := Half(a), RawTimes(h, b);
    && Short(RoundedBy15(h.re * b.re)) && Short(RoundedBy15(h.im * b.im))
    && Short(RoundedBy15(h.re * b.im)) && Short(RoundedBy15(h.im * b.re))
    && Shorts(t) && Shorts(RawSum(q, t)) && Shorts(RawDifference(q, t))
  }

  /** Then no conversion changes anything. */
  lemma NothingWraps(w: Point, a: Point, b: Point)
    requires Fits(w, a, b)
    ensures var q, t := Half(a), RawTimes(Half(w), b);
      Plus(w, a, b) == RawSum(q, t) && Minus(w, a, b) == RawDifference(q, t)
  {
    var h := Half(w);
    var t := RawTimes(h, b);
    hide RoundedBy15, Half;
    ShortStays(RoundedBy15(h.re * b.re));
    ShortStays(RoundedBy15(h.im * b.im));
    ShortStays(RoundedBy15(h.re * b.im));
    ShortStays(RoundedBy15(h.im * b.re));
    hide Int16;
    assert Times(h, b) == t by {
      ShortStays(t.re);
      ShortStays(t.im);
    }
    hide RawTimes, Times;
    var q := Half(a);
    ShortStays(q.re + t.re);
    ShortStays(q.im + t.im);
    ShortStays(q.re - t.re);
    ShortStays(q.im - t.im);
  }

  /** A butterfly can wrap: these samples have a modulus above 32767. */
  lemma CanWrap(w: Point, a: Point, b: Point)
    requires w == Point(23170, -23170) && a == Point(32767, 0) && b == Point(32767, 32767)
    ensures Shorts(a) && Shorts(b) && !Fits(w, a, b) && Plus(w, a, b).re == 39553 - 65536
  {
    hide RoundedBy15, RawTimes, Times, Fits;
    LargeTimes(Half(w), b);
    NotShort(w, a, b);
  }

  lemma NotShort(w: Point, a: Point, b: Point)
    requires Half(a).re + RawTimes(Half(w), b).re >= 32768
    ensures !Fits(w, a, b)
  {
    hide RoundedBy15, RawTimes, Half;
  }

  lemma LargeTimes(h: Point, b: Point)
    requires h == Point(11585, -11585) && b == Point(32767, 32767)
    ensures RawTimes(h, b).re == 23170 && Times(h, b).re == 23170
  {
    LargeProduct(h.re, b.re, 11585);
    LargeProduct(h.im, b.im, -11585);
    hide RoundedBy15, FixMpy;
  }

  lemma LargeProduct(x: int, y: int, r: int)
    requires -16384 < x < 16384 && y == 32767 && x == r
    ensures RoundedBy15(x * y) == r && FixMpy(x, y) == r
  {
    assert x * y == 32768 * x - x;
  }
}

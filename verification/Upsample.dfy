/** arbitrary_upsample: linear interpolation driven by a tick that counts in steps of len1 up to
    len2. Numbers are exact where the code uses doubles. */
module Upsample {
  import opened Indexes

  type sample = s: int | -32768 <= s < 32768

  /** Conversion to an integer drops the fraction. */
  function Trunc(r: real): int {
    if r >= 0.0 then r.Floor else -((-r).Floor)
  }

  /** The integer is not farther from 0 than the number, and by less than one. */
  lemma TruncIs(r: real)
    ensures r >= 0.0 ==> Trunc(r) >= 0 && 0.0 <= r - Trunc(r) as real < 1.0
    ensures r <= 0.0 ==> Trunc(r) <= 0 && 0.0 <= Trunc(r) as real - r < 1.0
  {
  }

  /** The point at r / d of the way from x to y. */
  function Lerp(x: int, y: int, r: nat, d: nat): real
    requires d > 0
  {
    Mix(x as real, y as real, r as real / d as real)
  }

  function Mix(x: real, y: real, f: real): real {
    x * (1.0 - f) + y * f
  }

  /** The polygon through the samples, at the position n / d. */
  function Polygon(b: seq<sample>, n: nat, d: nat): real
    requires d > 0 && 0 < |b| && n <= (|b| - 1) * d
  {
    InPolygon(|b|, n, d);
    var k := Div(n, d);
    if k + 1 < |b| then Lerp(b[k], b[k + 1], Rem(n, d), d) else b[k] as real
  }

  lemma InPolygon(len: nat, n: nat, d: nat)
    requires d > 0 && 0 < len && n <= (len - 1) * d
    ensures Div(n, d) < len && n == Div(n, d) * d + Rem(n, d)
  {
    hide Div, Rem;
    assert len * d == (len - 1) * d + d;
    DivIs(n, d, len - 1);
    Placed(n, d);
  }

  /** Where output j is: at j * len1 / len2, but not behind the last sample. */
  function Position(j: nat, len1: nat, len2: nat): (n: nat)
    requires len1 > 0
    ensures n <= (len1 - 1) * len2
  {
    if j * len1 <= (len1 - 1) * len2 then j * len1 else (len1 - 1) * len2
  }

  lemma LerpEnds(x: int, y: int, d: nat)
    requires d > 0
    ensures Lerp(x, y, 0, d) == x as real && Lerp(x, y, d, d) == y as real
  {
    assert 0 as real / d as real == 0.0;
    assert d as real / d as real == 1.0;
  }

  /** The way is straight: each step of 1 / d covers the same part of it. */
  lemma LerpIsLinear(x: int, y: int, r: nat, d: nat)
    requires d > 0
    ensures d as real * Lerp(x, y, r, d) == (d - r) as real * x as real + r as real * y as real
  {
    var f := r as real / d as real;
    assert d as real * f == r as real;
    StraightMix(x as real, y as real, f, d as real, r as real);
  }

  lemma StraightMix(x: real, y: real, f: real, d: real, r: real)
    requires d * f == r
    ensures d * Mix(x, y, f) == (d - r) * x + r * y
  {
    assert d * (x * (1.0 - f)) == d * x - (d * f) * x;
    assert d * (y * f) == (d * f) * y;
  }

  /** Between samples i - 1 and i, at tick / d, ends included. */
  lemma OnPolygon(b: seq<sample>, i: nat, tick: nat, d: nat, n: nat)
    requires d > 0 && 1 <= i < |b| && tick <= d && n == (i - 1) * d + tick && n <= (|b| - 1) * d
    ensures Lerp(b[i - 1], b[i], tick, d) == Polygon(b, n, d)
  {
    hide Lerp;
    if tick < d {
      Place(i - 1, d, tick);
    } else {
      assert n == i * d + 0 by { assert (i - 1) * d + d == i * d; }
      Place(i, d, 0);
      LerpEnds(b[i - 1], b[i], d);
      if i + 1 < |b| {
        LerpEnds(b[i], b[i + 1], d);
      }
    }
  }

  function Min(x: int, y: int): int { if x <= y then x else y }
  function Max(x: int, y: int): int { if x <= y then y else x }

  /** No output is outside of its two neighbours. */
  lemma BetweenNeighbours(b: seq<sample>, n: nat, d: nat)
    requires d > 0 && 0 < |b| && n <= (|b| - 1) * d
    ensures var k := Div(n, d);
      k < |b| && var next := b[Min(k + 1, |b| - 1)];
      Min(b[k], next) <= Trunc(Polygon(b, n, d)) <= Max(b[k], next)
  {
    InPolygon(|b|, n, d);
    var k, r := Div(n, d), Rem(n, d);
    if k + 1 < |b| {
      LerpBetween(b[k], b[k + 1], r, d);
      TruncBetween(Polygon(b, n, d), Min(b[k], b[k + 1]), Max(b[k], b[k + 1]));
    }
  }

  lemma OutputIsSample(b: seq<sample>, n: nat, d: nat)
    requires d > 0 && 0 < |b| && n <= (|b| - 1) * d
    ensures -32768 <= Trunc(Polygon(b, n, d)) < 32768
  {
    hide Trunc, Polygon;
    BetweenNeighbours(b, n, d);
  }

  lemma LerpBetween(x: int, y: int, r: nat, d: nat)
    requires d > 0 && r <= d
    ensures Min(x, y) as real <= Lerp(x, y, r, d) <= Max(x, y) as real
  {
    hide Mix;
    var frac := r as real / d as real;
    assert 0.0 <= frac <= 1.0 by { Fraction(r, d); }
    if x <= y {
      Convex(x as real, y as real, frac);
    } else {
      ConvexDown(x as real, y as real, frac);
    }
  }

  lemma Fraction(r: nat, d: nat)
    requires d > 0 && r <= d
    ensures 0.0 <= r as real / d as real <= 1.0
  {
  }

  lemma Convex(x: real, y: real, f: real)
    requires 0.0 <= f <= 1.0 && x <= y
    ensures x <= Mix(x, y, f) <= y
  {
    NotNegative(y - x, f);
    NotNegative(y - x, 1.0 - f);
    assert Mix(x, y, f) == x + (y - x) * f == y - (y - x) * (1.0 - f);
  }

  lemma ConvexDown(x: real, y: real, f: real)
    requires 0.0 <= f <= 1.0 && y <= x
    ensures y <= Mix(x, y, f) <= x
  {
    NotNegative(x - y, f);
    NotNegative(x - y, 1.0 - f);
    assert Mix(x, y, f) == x - (x - y) * f == y + (x - y) * (1.0 - f);
  }

  lemma NotNegative(a: real, b: real)
    requires a >= 0.0 && b >= 0.0
    ensures a * b >= 0.0
  {
  }

  lemma TruncBetween(v: real, lo: int, hi: int)
    requires lo as real <= v <= hi as real
    ensures lo <= Trunc(v) <= hi
  {
  }

  /** Where the loop goes from sample i and a tick. */
  function Advanced(i: nat, tick: nat, len1: nat, len2: nat): (int, int) {
    var (i', tick') := if tick + len1 > len2 then (i + 1, tick + len1 - len2) else (i, tick + len1);
    if i' >= len1 then (len1 - 1, len2) else (i', tick')
  }

  /** The tick keeps the position. */
  lemma PositionAdvances(j: nat, len1: nat, len2: nat, i: nat, tick: nat)
    requires 2 <= len1 < len2 && 1 <= i < len1 && tick <= len2
    requires (i - 1) * len2 + tick == Position(j, len1, len2)
    ensures var (i', tick') := Advanced(i, tick, len1, len2);
      1 <= i' < len1 && 0 <= tick' <= len2 && (i' - 1) * len2 + tick' == Position(j + 1, len1, len2)
  {
    assert (j + 1) * len1 == j * len1 + len1;
    assert i * len2 == (i - 1) * len2 + len2 && (len1 - 2) * len2 == (len1 - 1) * len2 - len2;
    assert (len1 - 1 - i) * len2 == (len1 - 1) * len2 - i * len2;
    Multiples(len1 - 1 - i, len2);
  }

  /** The result is the polygon at evenly spaced positions, held at its end. */
  method ArbitraryUpsample(buf1: array<sample>, buf2: array<sample>, len1: nat, len2: nat)
    requires 2 <= len1 < len2 && len1 <= buf1.Length && len2 <= buf2.Length && buf1 != buf2
    modifies buf2
    ensures forall j :: 0 <= j < len2 ==> buf2[j] == Trunc(Polygon(buf1[..len1], Position(j, len1, len2), len2))
    ensures buf2[len2..] == old(buf2[len2..])
  {
    hide Polygon, Trunc, Position, Lerp, Mix;
    ghost var b := buf1[..len1];
    var i, j, tick := 1, 0, 0;
    StartsAtZero(len1, len2);
    while j < len2
      invariant j <= len2 && 1 <= i < len1 && 0 <= tick <= len2 && buf1[..len1] == b
      invariant (i - 1) * len2 + tick == Position(j, len1, len2)
      invariant forall k :: 0 <= k < j ==> buf2[k] == Trunc(Polygon(b, Position(k, len1, len2), len2))
      invariant buf2[len2..] == old(buf2[len2..])
    {
      OnPolygon(b, i, tick, len2, Position(j, len1, len2));
      OutputIsSample(b, Position(j, len1, len2), len2);
      PositionAdvances(j, len1, len2, i, tick);
      assert buf1[i - 1] == b[i - 1] && buf1[i] == b[i];
      var v := Interpolate(buf1[i - 1], buf1[i], tick, len2);
      buf2[j] := v;
      j := j + 1;
      tick := tick + len1;
      if tick > len2 {
        tick := tick - len2;
        i := i + 1;
      }
      if i >= len1 {
        i := len1 - 1;
        tick := len2;
      }
    }
  }

  lemma StartsAtZero(len1: nat, len2: nat)
    requires len1 > 0
    ensures Position(0, len1, len2) == 0
  {
    assert (len1 - 1) * len2 >= 0;
  }

  method Interpolate(x: sample, y: sample, tick: nat, len2: nat) returns (v: int)
    requires len2 > 0
    ensures v == Trunc(Lerp(x, y, tick, len2))
  {
    var frac := tick as real / len2 as real;
    var p := x as real * (1.0 - frac) + y as real * frac;
    assert p == Lerp(x, y, tick, len2);
    hide Trunc, Lerp;
    v := Trunc(p);
  }
}

/** r82xx_set_pll: the choice of the mixer divider, the split of the VCO frequency into an
    integer and a fraction of the reference, and the greedy search for the fraction's bits. */
module R82xx {
  import opened Bytes
  import opened Indexes

  const VCO_MIN := 1770000
  const VCO_MAX := 2 * VCO_MIN

  // ---------------------------------------------------------------- the mixer divider

  predicate InVcoRange(f: nat, div: nat) {
    VCO_MIN <= f * div < VCO_MAX
  }

  predicate IsDivider(div: nat) {
    div in {2, 4, 8, 16, 32, 64}
  }

  /** Some divider takes f kHz into the range of the VCO. */
  predicate Tunable(f: nat) {
    VCO_MIN <= 64 * f && 2 * f < VCO_MAX
  }

  /** At most one divider does, and one does just when f is in between. */
  lemma OneDivider(f: nat)
    ensures forall d, e :: IsDivider(d) && IsDivider(e) && InVcoRange(f, d) && InVcoRange(f, e) ==> d == e
    ensures Tunable(f) <==> exists d :: IsDivider(d) && InVcoRange(f, d)
    ensures Tunable(f) <==> 27657 <= f < 1770000
  {
    if Tunable(f) {
      var d := if InVcoRange(f, 2) then 2 else if InVcoRange(f, 4) then 4 else if InVcoRange(f, 8) then 8
        else if InVcoRange(f, 16) then 16 else if InVcoRange(f, 32) then 32 else 64;
      assert IsDivider(d) && InVcoRange(f, d);
    }
  }

  /** The divider and its number, which is one less than its logarithm. */
  predicate Divides(f: nat, div: nat, number: nat) {
    if Tunable(f) then IsDivider(div) && InVcoRange(f, div) && Pow2(number + 1) == div
    else div == 128 && number == 0
  }

  /** The search; without a divider in range it leaves 128, but the number of the divider 2. */
  method FindDivider(freqKhz: nat) returns (mixDiv: nat, divNum: nat)
    requires freqKhz < UINT32 / 64
    ensures Divides(freqKhz, mixDiv, divNum) && divNum <= 5
  {
    OneDivider(freqKhz);
    mixDiv, divNum := 2, 0;
    ghost var e := 1;
    while mixDiv <= 64
      invariant 1 <= e <= 7 && mixDiv == Pow2(e) && mixDiv in {2, 4, 8, 16, 32, 64, 128} && divNum == 0
      invariant forall d: nat :: IsDivider(d) && d < mixDiv ==> !InVcoRange(freqKhz, d)
      decreases 7 - e
    {
      if freqKhz * mixDiv >= VCO_MIN && freqKhz * mixDiv < VCO_MAX {
        var divBuf := mixDiv;
        while divBuf > 2
          invariant 0 <= divNum < e && divBuf == Pow2(e - divNum)
          decreases divBuf
        {
          divBuf := divBuf / 2;
          divNum := divNum + 1;
        }
        return;
      }
      mixDiv := mixDiv * 2;
      e := e + 1;
    }
  }

  // ---------------------------------------------------------------- the fraction

  /** The loop ends with a value for the sigma delta modulator and what is left of the fraction,
      or goes on until the 16-bit n_sdm has become 0 and divides by it. */
  datatype Sdm = DividedByZero | Sdm(value: nat, left: nat)

  /** What is subtracted at n_sdm = 2^i. */
  function Share(p: nat, i: nat): nat {
    Div(p, Pow2(i))
  }

  /** The loop from n_sdm = 2^i on, for twice the reference p and v kHz still to be made up. */
  function SigmaDelta(p: nat, v: nat, i: nat, sdm: nat): Sdm
    requires 1 <= i <= 16
    decreases 16 - i
  {
    if v <= 1 then Sdm(sdm, v)
    else if i == 16 then DividedByZero
    else
      var share := Share(p, i);
      if v > share then
        var sdm' := Rem(sdm + Pow2(16 - i), 65536);
        if i == 15 then Sdm(sdm', v - share) else SigmaDelta(p, v - share, i + 1, sdm')
      else SigmaDelta(p, v, i + 1, sdm)
  }

  lemma Stops(p: nat, v: nat, i: nat, sdm: nat)
    requires 1 <= i <= 16 && v <= 1
    ensures SigmaDelta(p, v, i, sdm) == Sdm(sdm, v)
  {
  }

  lemma Unrolled(p: nat, v: nat, i: nat, sdm: nat)
    requires 1 <= i <= 16 && v > 1
    ensures var share, sdm' := Share(p, i), if i < 16 then Rem(sdm + Pow2(16 - i), 65536) else 0;
      SigmaDelta(p, v, i, sdm) ==
        if i == 16 then DividedByZero
        else if v <= share then SigmaDelta(p, v, i + 1, sdm)
        else if i == 15 then Sdm(sdm', v - share)
        else SigmaDelta(p, v - share, i + 1, sdm')
  {
    hide Pow2, Share, Rem;
  }

  /** One turn of the loop in terms of n_sdm, which is 0 after 15 doublings. */
  lemma Turn(p: nat, v: nat, i: nat, sdm: nat, n: nat)
    requires 1 <= i <= 16 && n == Rem(Pow2(i), 65536) && v > 1
    ensures n == 0 ==> SigmaDelta(p, v, i, sdm) == DividedByZero
    ensures n > 0 ==> i < 16 && Div(n, 2) >= 1 && Rem(n * 2, 65536) == Rem(Pow2(i + 1), 65536)
    ensures n > 0 ==>
      var q, sdm' := Div(p, n), Rem(sdm + Div(32768, Div(n, 2)), 65536);
      SigmaDelta(p, v, i, sdm) ==
        if v <= q then SigmaDelta(p, v, i + 1, sdm)
        else if n >= 0x8000 then Sdm(sdm', v - q)
        else SigmaDelta(p, v - q, i + 1, sdm')
  {
    Powers16(i, n);
    Unrolled(p, v, i, sdm);
    hide SigmaDelta, Rem, Pow2;
  }

  lemma Powers16(i: nat, n: nat)
    requires 1 <= i <= 16 && n == Rem(Pow2(i), 65536)
    ensures n == 0 <==> i == 16
    ensures i < 16 ==> n == Pow2(i) && Div(n, 2) >= 1 && Div(32768, Div(n, 2)) == Pow2(16 - i)
    ensures i < 16 ==> Rem(n * 2, 65536) == Rem(Pow2(i + 1), 65536) && (n >= 0x8000 <==> i == 15)
  {
    hide Pow2;
    SixteenBits(i);
    if i < 16 {
      NextPow2(i);
      Halved(i);
      StepIs(Pow2(i - 1), Pow2(16 - i));
    }
  }

  lemma StepIs(h: nat, step: nat)
    requires h >= 1 && (2 * h) * step == 65536
    ensures Div(32768, h) == step
  {
    assert step * h == 32768;
    Place(step, h, 0);
  }

  /** A share is taken only if some of the fraction is left then. */
  lemma {:induction false} LeavesSome(p: nat, v: nat, i: nat, sdm: nat)
    requires 1 <= i <= 16 && v >= 1
    ensures var s := SigmaDelta(p, v, i, sdm); s.Sdm? ==> 1 <= s.left <= v
    decreases 16 - i
  {
    hide Share, Pow2, Rem;
    if v > 1 && i < 16 {
      var share := Share(p, i);
      var sdm' := Rem(sdm + Pow2(16 - i), 65536);
      if v <= share {
        LeavesSome(p, v, i + 1, sdm);
      } else if i < 15 {
        LeavesSome(p, v - share, i + 1, sdm');
      }
    }
  }

  method SdmCalculator(pllRefKhz: nat, fraction: nat) returns (s: Sdm)
    ensures s == SigmaDelta(2 * pllRefKhz, fraction, 1, 0)
  {
    var n: nat, sdm: nat, v: nat := 2, 0, fraction;
    ghost var i, p := 1, 2 * pllRefKhz;
    SixteenBits(1);
    hide Pow2, Share, Div, Rem, SigmaDelta;
    while v > 1
      invariant 1 <= i <= 16 && n == Rem(Pow2(i), 65536)
      invariant SigmaDelta(p, fraction, 1, 0) == SigmaDelta(p, v, i, sdm)
      decreases 16 - i
    {
      Turn(p, v, i, sdm, n);
      if n == 0 {
        return DividedByZero;
      }
      if v > Div(2 * pllRefKhz, n) {
        sdm := Rem(sdm + Div(32768, Div(n, 2)), 65536);
        v := v - Div(2 * pllRefKhz, n);
        if n >= 0x8000 {
          return Sdm(sdm, v);
        }
      }
      n := Rem(n * 2, 65536);
      i := i + 1;
    }
    Stops(p, v, i, sdm);
    return Sdm(sdm, v);
  }

  /** The powers of two that fit 16 bits. */
  lemma SixteenBits(i: nat)
    requires 1 <= i <= 16
    ensures i == 16 <==> Pow2(i) % 65536 == 0
    ensures i == 1 ==> Pow2(i) == 2
    ensures i == 16 ==> Pow2(i) == 65536
    ensures i < 16 ==> 2 <= Pow2(i) <= 32768 && Pow2(i) % 65536 == Pow2(i)
    ensures i >= 15 <==> Pow2(i) >= 32768
  {
    hide Pow2;
    Pow2Table(1);
    Pow2Table(15);
    Pow2Table(16);
    Pow2Grows(1, i);
    Pow2Grows(i, 15);
    Pow2Grows(15, i);
  }

  lemma Halved(i: nat)
    requires 1 <= i <= 15
    ensures Pow2(i) == 2 * Pow2(i - 1) && Pow2(i) * Pow2(16 - i) == 65536 && (i == 1 ==> Pow2(i - 1) == 1)
  {
    Pow2Add(i, 16 - i);
    Pow2Table(16);
  }

  const POW2S: seq<nat> := [1, 2, 4, 8, 16, 32, 64, 128, 256, 512, 1024, 2048, 4096, 8192, 16384, 32768, 65536]

  lemma {:induction false} Pow2Table(i: nat)
    requires i <= 16
    ensures Pow2(i) == POW2S[i]
  {
    if i > 0 {
      Pow2Table(i - 1);
    }
  }

  lemma NextPow2(i: nat)
    ensures Pow2(i + 1) == 2 * Pow2(i)
  {
  }

  // ---------------------------------------------------------------- how good the fraction is

  /** What is still to be made up, times 65536: exactly, where the code keeps a rounded value. */
  function Deficit(p: nat, v0: nat, sdm: nat): int {
    65536 * v0 - p * sdm
  }

  /** The rounding that the steps before step i can have added up to. */
  function Slack(i: nat): int
    requires i <= 16
  {
    if i <= 2 then 0 else Slack(i - 1) + 65536 - 2 * Pow2(17 - i)
  }

  /** What holds before step i: the deficit has come down to 2^(i - 1) times less than p, and
      the value that the code keeps is at most the slack above it. */
  predicate Approximates(p: nat, v0: nat, v: nat, i: nat, sdm: nat)
    requires 1 <= i <= 16
  {
    && Deficit(p, v0, sdm) * Pow2(i - 1) <= 65536 * p
    && 65536 * v - Slack(i) <= Deficit(p, v0, sdm) <= 65536 * v
    && sdm <= 65536 - Pow2(17 - i)
    && (sdm > 0 ==> v >= 1)
  }

  lemma Powers(i: nat)
    requires 1 <= i <= 15
    ensures 2 <= Pow2(i) <= 32768 && Pow2(i) == 2 * Pow2(i - 1)
    ensures 2 <= Pow2(16 - i) <= 32768 && Pow2(17 - i) == 2 * Pow2(16 - i)
    ensures i == 15 ==> Pow2(i) == 32768 && Pow2(16 - i) == 2
  {
    hide Pow2;
    SixteenBits(i);
    SixteenBits(16 - i);
    Halved(i);
    NextPow2(16 - i);
  }

  /** A taken step: the share is subtracted although step * p / 65536 is meant. */
  lemma ShareRounds(p: nat, i: nat)
    requires 1 <= i <= 15 && p % 2 == 0
    ensures Share(p, i) * Pow2(i) <= p
    ensures 65536 * Share(p, i) <= p * Pow2(16 - i) <= 65536 * Share(p, i) + 65536 - 2 * Pow2(16 - i)
    ensures i == 1 ==> p * Pow2(16 - i) == 65536 * Share(p, i)
  {
    hide Pow2, Share;
    ShareBounds(p, i);
    Halved(i);
    Rounding(p, Pow2(i), Pow2(i - 1), Pow2(16 - i), Share(p, i));
  }

  lemma ShareBounds(p: nat, i: nat)
    ensures Pow2(i) * Share(p, i) <= p < Pow2(i) * Share(p, i) + Pow2(i)
  {
    hide Pow2, Div, Rem;
    Placed(p, Pow2(i));
  }

  lemma Rounding(p: nat, n: nat, h: nat, step: nat, q: nat)
    requires p % 2 == 0 && n == 2 * h && n * step == 65536 && h >= 1 && n * q <= p < n * q + n
    ensures q * n <= p
    ensures 65536 * q <= p * step <= 65536 * q + 65536 - 2 * step
    ensures h == 1 ==> p * step == 65536 * q
  {
    var r := p - n * q;
    Even(h, q, r);
    Scaled(n, q, r, step);
    Mono(r, n - 2, step);
    assert (n - 2) * step == 65536 - 2 * step;
  }

  lemma Even(h: nat, q: nat, r: nat)
    requires r < 2 * h && ((2 * h) * q + r) % 2 == 0
    ensures r <= 2 * h - 2
  {
    assert (2 * h) * q == 2 * (h * q);
  }

  lemma Scaled(n: nat, q: nat, r: nat, step: nat)
    ensures (n * q + r) * step == (n * step) * q + r * step
  {
  }

  lemma Mono(x: nat, y: nat, z: nat)
    requires x <= y
    ensures 0 <= x * z <= y * z
  {
    assert (y - x) * z >= 0;
  }

  lemma SkipKeeps(p: nat, v0: nat, v: nat, i: nat, sdm: nat)
    requires 1 <= i <= 15 && Approximates(p, v0, v, i, sdm) && v <= Share(p, i) && p % 2 == 0
    ensures Approximates(p, v0, v, i + 1, sdm)
  {
    hide Pow2, Deficit, Share, Slack;
    Powers(i);
    ShareRounds(p, i);
    MonoInt(Deficit(p, v0, sdm), 65536 * Share(p, i), Pow2(i));
    NextSlack(i);
  }

  lemma MonoInt(x: int, y: int, z: nat)
    requires x <= y
    ensures x * z <= y * z
  {
    assert (y - x) * z >= 0;
  }

  lemma NextSlack(i: nat)
    requires 1 <= i <= 15
    ensures Slack(i + 1) == if i == 1 then Slack(i) else Slack(i) + 65536 - 2 * Pow2(16 - i)
  {
    hide Pow2;
  }

  lemma TakeKeeps(p: nat, v0: nat, v: nat, i: nat, sdm: nat)
    requires 1 <= i <= 15 && Approximates(p, v0, v, i, sdm) && v > Share(p, i) && p % 2 == 0
    ensures Approximates(p, v0, v - Share(p, i), i + 1, sdm + Pow2(16 - i)) && sdm + Pow2(16 - i) < 65536
  {
    hide Pow2, Slack, Share, Deficit;
    Powers(i);
    Halved(i);
    ShareRounds(p, i);
    NextSlack(i);
    TakenDeficit(p, v0, sdm, Pow2(i - 1), Pow2(i), Pow2(16 - i));
  }

  lemma TakenDeficit(p: nat, v0: nat, sdm: nat, half: nat, n: nat, step: nat)
    requires n == 2 * half && n * step == 65536 && Deficit(p, v0, sdm) * half <= 65536 * p
    ensures Deficit(p, v0, sdm + step) == Deficit(p, v0, sdm) - p * step
    ensures Deficit(p, v0, sdm + step) * n <= 65536 * p
  {
    var d, d' := Deficit(p, v0, sdm), Deficit(p, v0, sdm + step);
    assert d' == d - p * step;
    hide Deficit;
    assert (p * step) * n == p * (n * step);
    assert d' * n == 2 * (d * half) - (p * step) * n;
  }

  lemma SlackBound(i: nat)
    requires 1 <= i <= 16
    ensures 0 <= Slack(i) <= 14 * 65536 - 65532
  {
    hide Slack, Pow2;
    SlackClosed(i);
    Pow2Table(1);
    Pow2Table(15);
    if i < 16 {
      Powers(i);
    }
  }

  lemma {:induction false} SlackClosed(i: nat)
    requires 1 <= i <= 16
    ensures Slack(i) == if i == 1 then 0 else (i - 2) * 65536 - 65536 + 2 * Pow2(17 - i)
  {
    if i > 2 {
      SlackClosed(i - 1);
      NextPow2(17 - i);
      NextSlack(i - 1);
    } else {
      Pow2Table(15);
    }
  }

  /** At the last step one or nothing is subtracted, unless the reference is too high. */
  lemma LastShare(p: nat, i: nat)
    requires 1 <= i <= 15
    ensures p >= 65536 ==> Share(p, i) >= 2
    ensures i == 15 ==> (p <= 65535 <==> Share(p, i) <= 1)
  {
    hide Pow2, Div;
    Powers(i);
    AtLeastTwo(p, Pow2(i));
  }

  lemma AtLeastTwo(p: nat, n: nat)
    requires n >= 1
    ensures Div(p, n) >= 2 <==> p >= 2 * n
  {
    hide Div, Rem;
    Placed(p, n);
    if Div(p, n) < 2 {
      Mono(Div(p, n), 1, n);
    } else {
      Mono(2, Div(p, n), n);
    }
  }

  /** From any step on, for a reference of at most 32767 kHz. */
  lemma {:induction false} FractionFrom(p: nat, v0: nat, v: nat, i: nat, sdm: nat)
    requires 1 <= i <= 16 && p % 2 == 0 && p <= 65534 && Approximates(p, v0, v, i, sdm) && (i == 16 ==> v <= 1)
    ensures var s := SigmaDelta(p, v, i, sdm);
      && s.Sdm? && s.value <= 65534
      && -(12 * 65536 + 4) <= Deficit(p, v0, s.value) <= (if 2 * p > 65536 then 2 * p else 65536)
    decreases 16 - i
  {
    hide Pow2, Deficit, Share, Approximates, SigmaDelta;
    if v <= 1 {
      Ends(p, v0, v, i, sdm);
      Stops(p, v, i, sdm);
    } else {
      Unrolled(p, v, i, sdm);
      var share := Share(p, i);
      LastShare(p, i);
      if v <= share {
        SkipKeeps(p, v0, v, i, sdm);
        FractionFrom(p, v0, v, i + 1, sdm);
      } else {
        TakeKeeps(p, v0, v, i, sdm);
        if i < 15 {
          FractionFrom(p, v0, v - share, i + 1, sdm + Pow2(16 - i));
        } else {
          Ends(p, v0, v - share, 16, sdm + Pow2(16 - i));
        }
      }
    }
  }

  lemma Ends(p: nat, v0: nat, v: nat, i: nat, sdm: nat)
    requires 1 <= i <= 16 && Approximates(p, v0, v, i, sdm) && (v <= 1 || i == 16)
    ensures sdm <= 65534
    ensures -(12 * 65536 + 4) <= Deficit(p, v0, sdm) <= (if 2 * p > 65536 then 2 * p else 65536)
  {
    hide Slack, Pow2, Deficit;
    SlackBound(i);
    NoDeficit(p, v0);
    if i < 16 {
      Powers(i);
    } else {
      Pow2Table(15);
      Pow2Table(1);
    }
  }

  lemma NoDeficit(p: nat, v0: nat)
    ensures Deficit(p, v0, 0) >= 0
  {
  }

  /** The fraction that is programmed is less than 2 kHz too small, or 12 kHz and 1/16 Hz too large. */
  lemma FractionIsClose(pllRefKhz: nat, v0: nat)
    requires pllRefKhz <= 32767 && v0 <= 2 * pllRefKhz
    ensures var p := 2 * pllRefKhz;
      var s := SigmaDelta(p, v0, 1, 0);
      && s.Sdm? && s.value <= 65534
      && -(12 * 65536 + 4) <= Deficit(p, v0, s.value) <= (if 2 * p > 65536 then 2 * p else 65536)
  {
    var p := 2 * pllRefKhz;
    Pow2Table(16);
    assert Pow2(0) == 1;
    assert Approximates(p, v0, v0, 1, 0);
    FractionFrom(p, v0, v0, 1, 0);
  }

  /** The lower bound is reached: with a reference of 32767 kHz every step is taken to make up 65520 kHz. */
  lemma FractionBoundIsTight(p: nat, v0: nat)
    requires p == 65534 && v0 == 65520
    ensures SigmaDelta(p, v0, 1, 0) == Sdm(65534, 1)
    ensures Deficit(p, v0, 65534) == -(12 * 65536 + 4)
  {
    hide SigmaDelta;
    Pow2Table(16);
    AllTaken(p, 1);
  }

  lemma {:induction false} AllTaken(p: nat, i: nat)
    requires p == 65534 && 1 <= i <= 15
    ensures 0 <= Pow2(17 - i) + i - 17 && Pow2(17 - i) <= 65536
    ensures SigmaDelta(p, Pow2(17 - i) + i - 17, i, 65536 - Pow2(17 - i)) == Sdm(65534, 1)
    decreases 16 - i
  {
    hide Pow2, Share, SigmaDelta, Rem;
    Powers(i);
    FullShare(p, i);
    Exceeds(16 - i);
    var v, sdm := Pow2(17 - i) + i - 17, 65536 - Pow2(17 - i);
    Unrolled(p, v, i, sdm);
    Small(sdm + Pow2(16 - i));
    if i < 15 {
      AllTaken(p, i + 1);
    }
  }

  lemma Small(x: nat)
    requires x < 65536
    ensures Rem(x, 65536) == x
  {
  }

  lemma FullShare(p: nat, i: nat)
    requires p == 65534 && 1 <= i <= 15
    ensures Share(p, i) == Pow2(16 - i) - 1
  {
    hide Pow2, Div, Rem;
    Powers(i);
    Halved(i);
    var n, step := Pow2(i), Pow2(16 - i);
    assert (step - 1) * n == 65536 - n;
    Place(step - 1, n, n - 2);
  }

  lemma {:induction false} Exceeds(k: nat)
    ensures Pow2(k) > k
  {
    if k > 0 {
      Exceeds(k - 1);
    }
  }

  // ---------------------------------------------------------------- when the search ends

  lemma {:induction false} EndsFrom(p: nat, v: nat, i: nat, sdm: nat)
    requires 1 <= i <= 16 && p <= 65535 && (i == 16 ==> v <= 1)
    ensures SigmaDelta(p, v, i, sdm).Sdm?
    decreases 16 - i
  {
    hide Pow2, Share, SigmaDelta, Rem;
    if v <= 1 {
      Stops(p, v, i, sdm);
    } else {
      Unrolled(p, v, i, sdm);
      LastShare(p, i);
      if v <= Share(p, i) {
        EndsFrom(p, v, i + 1, sdm);
      } else if i < 15 {
        EndsFrom(p, v - Share(p, i), i + 1, Rem(sdm + Pow2(16 - i), 65536));
      }
    }
  }

  lemma {:induction false} NothingTaken(p: nat, i: nat)
    requires 1 <= i <= 16 && p >= 65536
    ensures SigmaDelta(p, 2, i, 0) == DividedByZero
    decreases 16 - i
  {
    hide Pow2, Share;
    if i < 16 {
      LastShare(p, i);
      NothingTaken(p, i + 1);
    }
  }

  /** The search ends for every fraction just when the reference is at most 32767 kHz; beyond,
      a fraction of 2 kHz makes it divide by zero. */
  lemma EndsIff(pllRefKhz: nat)
    ensures (forall v :: SigmaDelta(2 * pllRefKhz, v, 1, 0).Sdm?) <==> pllRefKhz <= 32767
  {
    if pllRefKhz <= 32767 {
      forall v: nat
        ensures SigmaDelta(2 * pllRefKhz, v, 1, 0).Sdm?
      {
        EndsFrom(2 * pllRefKhz, v, 1, 0);
      }
    } else {
      NothingTaken(2 * pllRefKhz, 1);
    }
  }

  // ---------------------------------------------------------------- the whole setting

  /** What r82xx_set_pll writes, or why it does not. */
  datatype Setting =
    | NoValidPll
    | SearchFails
    | Setting(divNum: nat, intReg: nat, fractionOff: bool, sdm: nat)

  /** Register 0x14 holds ni + (si << 6). */
  function IntReg(nint: nat): nat {
    var ni := if nint >= 13 then (nint - 13) / 4 else -((13 - nint) / 4);  // division truncates
    var si := nint - 4 * ni - 13;
    (ni % 256 + si % 256 * 64) % 256
  }

  /** The integer that a value of register 0x14 stands for. */
  function Integer(reg: nat): nat {
    reg % 64 * 4 + reg / 64 + 13
  }

  /** The register tells the integer just when it is at least 13. */
  lemma IntegerRecovered(nint: nat)
    requires nint <= 127
    ensures Integer(IntReg(nint)) == nint <==> nint >= 13
    ensures nint >= 13 ==> IntReg(nint) % 64 == (nint - 13) / 4 && IntReg(nint) / 64 == (nint - 13) % 4
  {
    if nint >= 13 {
      var ni, si := (nint - 13) / 4, (nint - 13) % 4;
      SmallReg(ni, si);
      assert IntReg(nint) == ni + si * 64;
    }
  }

  lemma SmallReg(ni: nat, si: nat)
    requires ni < 64 && si < 4
    ensures ni % 256 == ni && si % 256 == si && (ni + si * 64) % 256 == ni + si * 64
    ensures (ni + si * 64) % 64 == ni && (ni + si * 64) / 64 == si
    ensures Integer(ni + si * 64) == 4 * ni + si + 13
  {
  }

  function FreqKhz(freq: nat): nat {
    (freq + 500) % UINT32 / 1000
  }

  /** Only three bits of the number reach the register. */
  lemma LowBits(n: int)
    requires -1 <= n <= 7
    ensures n % 256 * 32 % 256 == n % 8 * 32
  {
    if n < 0 {
      assert n % 256 == 255 && n % 8 == 7;
    } else {
      assert n % 256 == n && n % 8 == n;
    }
  }

  /** What the caller gets for a VCO frequency of vco Hz, made of p = 2 * xtal Hz: the integer part
      is exact and the synthesized frequency is at most 4 kHz below and 13 kHz above. */
  predicate Synthesizes(vco: nat, p: nat, s: Setting)
    requires p > 0
  {
    && s.Setting? && s.sdm <= 65534
    && Integer(s.intReg) == Div(vco, p)
    && -13000 * 65536 <= 65536 * vco - p * (65536 * Integer(s.intReg) + s.sdm) <= 4000 * 65536
    && (s.fractionOff <==> Rem(vco, p) < 1000)
  }

  /** The fraction in kHz is at most twice the rounded reference. */
  lemma FractionInRange(xtal: nat, rem: nat)
    requires rem < 2 * xtal
    ensures rem / 1000 <= 2 * ((xtal + 500) / 1000)
  {
  }

  /** From kHz and a rounded reference to Hz and the exact one. */
  lemma FractionInHz(xtal: nat, rem: nat, sdm: nat)
    requires sdm <= 65534
    requires -(12 * 65536 + 4) <= Deficit(2 * ((xtal + 500) / 1000), rem / 1000, sdm) <= 131072
    ensures -13000 * 65536 <= 65536 * rem - (2 * xtal) * sdm <= 4000 * 65536
  {
    var k, v := (xtal + 500) / 1000, rem / 1000;
    var delta, rho := xtal - 1000 * k, rem - 1000 * v;
    assert -500 <= delta < 500 && 0 <= rho < 1000;
    assert (2 * xtal) * sdm == 1000 * ((2 * k) * sdm) + 2 * (delta * sdm);
    MonoInt(-500, delta, sdm);
    MonoInt(delta, 499, sdm);
  }

  /** The integer part, before it is cut to 8 bits. */
  function Whole(vco: nat, xtal: nat): nat
    requires xtal > 0
  {
    Div(vco, 2 * xtal)
  }

  /** The search, for a VCO frequency of vco Hz of which nint is the integer part that is left. */
  function Search(vco: nat, xtal: nat, nint: nat): Sdm {
    SigmaDelta(2 * ((xtal + 500) / 1000), VcoFra(vco, xtal, nint), 1, 0)
  }

  /** What a caller can rely on for a VCO frequency of vco Hz. Only the low 8 bits of the integer
      part are compared with the limit; the setting is right only if all of it is within. */
  predicate Meets(vco: nat, xtal: nat, limit: nat, r: Setting)
    requires xtal > 0
  {
    && (r.NoValidPll? <==> Whole(vco, xtal) % 256 > limit)
    && (xtal < 32767500 ==> !r.SearchFails?)
    && (Synthesizes(vco, 2 * xtal, r) ==> 13 <= Whole(vco, xtal) <= limit)
    && (xtal < 32767500 && vco < UINT32 && 13 <= Whole(vco, xtal) <= limit ==> Synthesizes(vco, 2 * xtal, r))
  }

  /** When the search does not end. */
  predicate Fails(vco: nat, xtal: nat, limit: nat, r: Setting)
    requires xtal > 0
  {
    r.SearchFails? <==> Whole(vco, xtal) % 256 <= limit && Search(vco, xtal, Whole(vco, xtal) % 256).DividedByZero?
  }

  /** The value reg of register 0x10, of which only the top three bits count: they are the divider's
      number if the fine tuning is at the reference, one less if it is above and one more if below. */
  predicate DividerField(reg: nat, number: nat, vcoPowerRef: nat, vcoFineTune: nat) {
    && reg < 256 && reg % 32 == 0
    && (vcoFineTune == vcoPowerRef ==> reg / 32 == number)
    && (vcoFineTune > vcoPowerRef ==> (reg / 32 + 1) % 8 == number)
    && (vcoFineTune < vcoPowerRef ==> reg / 32 == number + 1)
  }

  /** The value for the top three bits of register 0x10. */
  method AdjustDivNum(divNum: nat, vcoPowerRef: nat, vcoFineTune: nat) returns (r: nat)
    requires divNum <= 5
    ensures DividerField(r, divNum, vcoPowerRef, vcoFineTune)
  {
    var n: int := divNum;
    if vcoFineTune > vcoPowerRef {
      n := n - 1;
    } else if vcoFineTune < vcoPowerRef {
      n := n + 1;
    }
    r := n % 256 * 32 % 256;
    LowBits(n);
  }

  /** The arithmetic of r82xx_set_pll with the widths of its variables. The fine tuning value is
      what the chip reports. */
  method SetPll(freq: nat, xtal: nat, vcoPowerRef: nat, vcoFineTune: nat) returns (r: Setting)
    requires freq < UINT32 && 0 < 2 * xtal < UINT32 && vcoPowerRef in {1, 2} && vcoFineTune < 4
    ensures exists div, number ::
      Divides(FreqKhz(freq), div, number) && Tuned(freq, xtal, vcoPowerRef, vcoFineTune, div, number, r)
  {
    hide Meets, Fails, SigmaDelta, IntReg, Divides, VcoFra, Whole, DividerField;
    var mixDiv, divNum := FindDivider(FreqKhz(freq));
    var divReg := AdjustDivNum(divNum, vcoPowerRef, vcoFineTune);
    var vcoFreq := freq * mixDiv;
    var nint := Whole(vcoFreq, xtal) % 256;
    var vcoFra := VcoFra(vcoFreq, xtal, nint);
    var limit := Limit(vcoPowerRef);
    Outcome(vcoFreq, xtal, limit, Search(vcoFreq, xtal, nint), divReg);
    r := NoValidPll;
    if nint <= limit {
      var s := SdmCalculator((xtal + 500) / 1000, vcoFra);
      r := if s.DividedByZero? then SearchFails else Setting(divReg, IntReg(nint), vcoFra == 0, s.value);
    }
    assert Tuned(freq, xtal, vcoPowerRef, vcoFineTune, mixDiv, divNum, r);
  }

  function Limit(vcoPowerRef: nat): (limit: nat)
    requires vcoPowerRef in {1, 2}
    ensures limit == if vcoPowerRef == 2 then 63 else 127
  {
    128 / vcoPowerRef - 1
  }

  /** The registers are for the VCO frequency freq * div, and for the divider's number, adjusted. */
  predicate Tuned(freq: nat, xtal: nat, vcoPowerRef: nat, vcoFineTune: nat, div: nat, number: nat, r: Setting)
    requires xtal > 0 && vcoPowerRef in {1, 2}
  {
    && Meets(freq * div, xtal, Limit(vcoPowerRef), r) && Fails(freq * div, xtal, Limit(vcoPowerRef), r)
    && (r.Setting? ==> DividerField(r.divNum, number, vcoPowerRef, vcoFineTune))
  }

  lemma Outcome(vco: nat, xtal: nat, limit: nat, s: Sdm, divNum: nat)
    requires xtal > 0 && limit in {63, 127} && s == Search(vco, xtal, Whole(vco, xtal) % 256)
    ensures var nint := Whole(vco, xtal) % 256;
      var r := if nint > limit then NoValidPll else if s.DividedByZero? then SearchFails
        else Setting(divNum, IntReg(nint), VcoFra(vco, xtal, nint) == 0, s.value);
      Meets(vco, xtal, limit, r) && Fails(vco, xtal, limit, r)
  {
    hide Synthesizes, SigmaDelta, IntReg, VcoFra, Whole;
    var nint := Whole(vco, xtal) % 256;
    var r := Setting(divNum, IntReg(nint), VcoFra(vco, xtal, nint) == 0, if s.Sdm? then s.value else 0);
    NotSynthesized(vco, xtal, NoValidPll);
    NotSynthesized(vco, xtal, SearchFails);
    if nint <= limit {
      OnlyWithin(vco, xtal, limit, r);
    }
    if xtal < 32767500 {
      EndsFrom(2 * ((xtal + 500) / 1000), VcoFra(vco, xtal, nint), 1, 0);
    }
    if xtal < 32767500 && vco < UINT32 && 13 <= Whole(vco, xtal) <= limit {
      Programmed(vco, xtal, nint, VcoFra(vco, xtal, nint), r);
    }
  }

  lemma NotSynthesized(vco: nat, xtal: nat, r: Setting)
    requires xtal > 0 && !r.Setting?
    ensures !Synthesizes(vco, 2 * xtal, r)
  {
  }

  /** An integer part that has lost bits, or is less than 13, is not the one in the register. */
  lemma OnlyWithin(vco: nat, xtal: nat, limit: nat, r: Setting)
    requires xtal > 0 && limit <= 127 && Whole(vco, xtal) % 256 <= limit && r.Setting?
      && r.intReg == IntReg(Whole(vco, xtal) % 256)
    ensures Synthesizes(vco, 2 * xtal, r) ==> 13 <= Whole(vco, xtal) <= limit
  {
    var whole, nint := Whole(vco, xtal), Whole(vco, xtal) % 256;
    IntegerRecovered(nint);
    IntegerMissed(nint);
    hide IntReg, Integer, Whole, Div;
    assert Whole(vco, xtal) == Div(vco, 2 * xtal) by { WholeIs(vco, xtal); }
    assert whole == 256 * (whole / 256) + nint;
  }

  lemma WholeIs(vco: nat, xtal: nat)
    requires xtal > 0
    ensures Whole(vco, xtal) == Div(vco, 2 * xtal)
  {
  }

  /** For an integer below 13 the register stands for one that differs in its low 8 bits, too. */
  lemma IntegerMissed(nint: nat)
    ensures nint < 13 ==> Integer(IntReg(nint)) - nint in {4, 259}
  {
    if nint < 13 {
      var k: int, j: int := (13 - nint) / 4, (13 - nint) % 4;
      assert nint == 13 - (4 * k + j);
      RegBelow(k, j);
      assert IntReg(nint) == (-k % 256 + -j % 256 * 64) % 256;
    }
  }

  lemma RegBelow(k: int, j: int)
    requires 0 <= k <= 3 && 0 <= j <= 3 && k + j > 0
    ensures var reg := (-k % 256 + -j % 256 * 64) % 256;
      reg >= 0 && Integer(reg) == 13 - (4 * k + j) + if k == 0 then 4 else 259
  {
    LowByte(-j, -k);
    SmallReg(if k == 0 then 0 else 64 - k, if j == 0 && k > 0 then 3 else if k == 0 then 4 - j else 3 - j);
  }

  lemma LowByte(si: int, ni: int)
    requires -3 <= si <= 0 && -3 <= ni <= 0 && si + ni < 0
    ensures (ni % 256 + si % 256 * 64) % 256 == 256 + ni + 64 * si
  {
    assert ni % 256 == if ni == 0 then 0 else 256 + ni;
    assert si % 256 == if si == 0 then 0 else 256 + si;
  }

  /** vco_fra: the difference is taken modulo 2^64, the product modulo 2^32. */
  function VcoFra(vco: nat, xtal: nat, nint: nat): nat {
    (vco - 2 * xtal * nint % UINT32) % 0x1_0000_0000_0000_0000 / 1000 % UINT32
  }

  lemma Fits(x: nat)
    requires x < UINT32
    ensures x % 0x1_0000_0000_0000_0000 / 1000 % UINT32 == x / 1000
  {
  }

  lemma NoWrap(vco: nat, xtal: nat, nint: nat)
    requires xtal > 0 && vco < UINT32 && nint == Whole(vco, xtal)
    ensures VcoFra(vco, xtal, nint) == Rem(vco, 2 * xtal) / 1000
    ensures vco == 2 * xtal * nint + Rem(vco, 2 * xtal)
  {
    hide Rem, Div;
    Placed(vco, 2 * xtal);
    var x := vco - 2 * xtal * nint;
    assert x == Rem(vco, 2 * xtal);
    Fits(x);
  }

  lemma ErrorInHz(vco: nat, p: nat, nint: nat, rem: nat, sdm: nat)
    requires vco == p * nint + rem
    ensures 65536 * vco - p * (65536 * nint + sdm) == 65536 * rem - p * sdm
  {
    assert p * (65536 * nint + sdm) == 65536 * (p * nint) + p * sdm;
  }

  lemma Programmed(vco: nat, xtal: nat, nint: nat, vcoFra: nat, r: Setting)
    requires 0 < xtal < 32767500 && vco < UINT32 && 13 <= nint == Whole(vco, xtal) <= 127
    requires vcoFra == VcoFra(vco, xtal, nint) && r.Setting?
    requires SigmaDelta(2 * ((xtal + 500) / 1000), vcoFra, 1, 0).Sdm?
    requires r.sdm == SigmaDelta(2 * ((xtal + 500) / 1000), vcoFra, 1, 0).value
    requires r.intReg == IntReg(nint) && r.fractionOff == (vcoFra == 0)
    ensures Synthesizes(vco, 2 * xtal, r)
  {
    hide SigmaDelta, VcoFra, IntReg, Deficit, Rem, Div, Integer;
    var p, rem := 2 * xtal, Rem(vco, 2 * xtal);
    NoWrap(vco, xtal, nint);
    FractionInRange(xtal, rem);
    FractionIsClose((xtal + 500) / 1000, vcoFra);
    FractionInHz(xtal, rem, r.sdm);
    IntegerRecovered(nint);
    ErrorInHz(vco, p, nint, rem, r.sdm);
  }
}

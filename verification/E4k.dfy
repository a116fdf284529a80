/** The PLL arithmetic of the E4000 driver: how close the frequency that is set comes to the one
    that is asked for, and for which frequencies it does. */
module E4k {
  import opened Bytes
  import opened Indexes

  const PLL_Y := 65536
  const EINVAL := 22

  /** One row of pll_vars: it is for frequencies below freq. */
  datatype PllVar = PllVar(freq: nat, regSynth7: nat, mult: nat)

  function Khz(x: nat): nat { 1000 * x }
  function Mhz(x: nat): nat { 1000000 * x }

  const PLL_VARS: seq<PllVar> := [
    PllVar(Khz(72400), 15, 48), PllVar(Khz(81200), 14, 40), PllVar(Khz(108300), 13, 32), PllVar(Khz(162500), 12, 24),
    PllVar(Khz(216600), 11, 16), PllVar(Khz(325000), 10, 12), PllVar(Khz(350000), 9, 8),
    PllVar(Khz(432000), 3, 8), PllVar(Khz(667000), 2, 6), PllVar(Khz(1200000), 1, 4)
  ]

  /** Row i is the first one that is for flo; the length of the table if none is. */
  predicate FirstRow(flo: nat, i: nat) {
    i <= |PLL_VARS| && (forall j :: 0 <= j < i ==> PLL_VARS[j].freq <= flo)
      && (i < |PLL_VARS| ==> flo < PLL_VARS[i].freq)
  }

  function Mult(i: nat): nat
    ensures 2 <= Mult(i) <= 48
  {
    if i < |PLL_VARS| then PLL_VARS[i].mult else 2
  }

  predicate FoscValid(fosc: nat) {
    Mhz(16) <= fosc <= Mhz(30)
  }

  function ComputeFvco(fosc: nat, z: nat, x: nat): nat {
    fosc * z + Div(fosc * x, PLL_Y)
  }

  function ComputeFlo(fosc: nat, z: nat, x: nat, r: nat): nat
    requires r > 0
  {
    var fvco := ComputeFvco(fosc, z, x);
    if fvco == 0 then UINT32 - EINVAL else Rem(Div(fvco, r), UINT32)
  }

  /** The row of the table, and the three-phase bit that it carries. */
  method FindRow(intendedFlo: nat) returns (i: nat, threePhase: bool)
    ensures FirstRow(intendedFlo, i) && (threePhase <==> intendedFlo < Mhz(350))
  {
    i := 0;
    while i < |PLL_VARS| && intendedFlo >= PLL_VARS[i].freq
      invariant i <= |PLL_VARS| && forall j :: 0 <= j < i ==> PLL_VARS[j].freq <= intendedFlo
    {
      i := i + 1;
    }
    threePhase := i < |PLL_VARS| && PLL_VARS[i].regSynth7 / 8 % 2 == 1;
    assert PLL_VARS[6].freq == Mhz(350);
  }

  /** z is the quotient and x the 16-bit fraction, rounded down. */
  predicate Splits(fvco: nat, fosc: nat, z: nat, x: nat) {
    && fosc * z <= fvco < fosc * z + fosc
    && x < PLL_Y && x * fosc <= (fvco - fosc * z) * PLL_Y < x * fosc + fosc
  }

  method Split(fvco: nat, fosc: nat) returns (z: nat, x: nat)
    requires fosc > 0
    ensures Splits(fvco, fosc, z, x)
  {
    hide Div, Rem;
    z := Div(fvco, fosc);
    Placed(fvco, fosc);
    assert fosc * z == z * fosc;
    var remainder := fvco - fosc * z;
    x := Div(remainder * PLL_Y, fosc);
    Placed(remainder * PLL_Y, fosc);
    DivIs(remainder * PLL_Y, fosc, PLL_Y - 1);
  }

  datatype PllParams = PllParams(fosc: nat, flo: nat, intendedFlo: nat, r: nat, rIdx: nat, threePhase: bool, z: nat,
      x: nat)

  /** The search, the split into integer and fraction, and the frequency that results; z is cut to
      8 bits. A reference that is out of range is reported as 0. */
  method ComputePllParams(fosc: nat, intendedFlo: nat) returns (flo: nat, p: PllParams, ghost z: nat)
    requires fosc < UINT32 && intendedFlo < UINT32
    ensures fosc < 16000000 || fosc > 30000000 ==> flo == 0
    ensures 16000000 <= fosc <= 30000000 ==>
      && p.fosc == fosc && p.intendedFlo == intendedFlo && (p.threePhase <==> intendedFlo < Mhz(350))
      && (exists i :: FirstRow(intendedFlo, i) && p.r == Mult(i) && p.rIdx == RIdx(i))
      && Splits(intendedFlo * p.r, fosc, z, p.x) && p.z == Rem(z, 256)
      && flo == p.flo == ComputeFlo(fosc, p.z, p.x, p.r)
  {
    hide Splits, ComputeFlo, FirstRow, Rem, Mult;
    z := 0;
    if !FoscValid(fosc) {
      return 0, PllParams(0, 0, 0, 0, 0, false, 0, 0), z;
    }
    var i, threePhase := FindRow(intendedFlo);
    var r := Mult(i);
    var quotient, x := Split(intendedFlo * r, fosc);
    z := quotient;
    flo := ComputeFlo(fosc, Rem(quotient, 256), x, r);
    p := PllParams(fosc, flo, intendedFlo, r, RIdx(i), threePhase, Rem(quotient, 256), x);
  }

  function RIdx(i: nat): nat {
    if i < |PLL_VARS| then PLL_VARS[i].regSynth7 else 0
  }

  /** The multiplier and the value of its register for each frequency. */
  lemma RowIs(flo: nat, i: nat)
    requires FirstRow(flo, i)
    ensures (Mult(i), RIdx(i)) ==
      if flo < 72400000 then (48, 15) else if flo < 81200000 then (40, 14) else if flo < 108300000 then (32, 13)
      else if flo < 162500000 then (24, 12) else if flo < 216600000 then (16, 11) else if flo < 325000000 then (12, 10)
      else if flo < 350000000 then (8, 9) else if flo < 432000000 then (8, 3) else if flo < 667000000 then (6, 2)
      else if flo < 1200000000 then (4, 1) else (2, 0)
  {
    assert |PLL_VARS| == 10;
    assert PLL_VARS[0].freq == 72400000 && PLL_VARS[1].freq == 81200000 && PLL_VARS[2].freq == 108300000;
    assert PLL_VARS[3].freq == 162500000 && PLL_VARS[4].freq == 216600000 && PLL_VARS[5].freq == 325000000;
    assert PLL_VARS[6].freq == 350000000 && PLL_VARS[7].freq == 432000000 && PLL_VARS[8].freq == 667000000;
    assert PLL_VARS[9].freq == 1200000000;
  }

  /** From 55 to 650 MHz the VCO is within 8 MHz of the range from 2600 to 3900 MHz that it is made for. */
  lemma VcoInRange(flo: nat, i: nat)
    requires FirstRow(flo, i) && 55000000 <= flo <= 650000000
    ensures 2592000000 <= flo * Mult(i) <= 3900000000
  {
    RowIs(flo, i);
    hide FirstRow, Mult, RIdx;
    var r := Mult(i);
    assert r in {48, 40, 32, 24, 16, 12, 8, 6};
  }

  // ---------------------------------------------------------------- how close it comes

  /** The fraction is in parts of 65536 and the VCO is rounded down. */
  lemma FvcoIs(fosc: nat, z: nat, x: nat)
    ensures 0 <= 65536 * (fosc * z) + fosc * x - 65536 * ComputeFvco(fosc, z, x) < 65536
  {
  }

  /** The resolution of the VCO: a 65536th of the reference, rounded up. */
  function Resolution(fosc: nat): nat {
    (fosc + PLL_Y - 1) / PLL_Y
  }

  /** With an integer that fits, the VCO is below what was intended, by its resolution at most. */
  lemma FvcoIsClose(fvco: nat, fosc: nat, z: nat, x: nat)
    requires Splits(fvco, fosc, z, x)
    ensures 0 <= fvco - ComputeFvco(fosc, z, x) <= Resolution(fosc)
  {
    assert x * fosc == fosc * x;
    FractionRounds(fvco - fosc * z, fosc * x, fosc);
  }

  lemma FractionRounds(rem: nat, y: nat, fosc: nat)
    requires y <= rem * PLL_Y < y + fosc
    ensures 0 <= rem - Div(y, PLL_Y) <= Resolution(fosc)
  {
  }

  /** Otherwise the VCO is at least 256 times the reference too low: the result is right just when
      the integer fits. */
  lemma FvcoIsCloseIff(fvco: nat, fosc: nat, z: nat, x: nat)
    requires FoscValid(fosc) && Splits(fvco, fosc, z, x)
    ensures 0 <= fvco - ComputeFvco(fosc, Rem(z, 256), x) <= Resolution(fosc) <==> fvco < 256 * fosc
  {
    FvcoIsClose(fvco, fosc, z, x);
    assert Resolution(fosc) < fosc;
    hide Rem, Div, Resolution;
    Placed(z, 256);
    var k := Div(z, 256);
    assert fosc * z == 256 * (fosc * k) + fosc * Rem(z, 256);
    Mono(k, fosc);
    FitsIff(fvco, fosc, z);
  }

  /** So it is wrong for 3.7 GHz with a crystal of 28.8 MHz, which takes an integer of 256. */
  lemma TooHigh(flo: nat, fosc: nat, i: nat, z: nat, x: nat)
    requires flo == 3700000000 && fosc == 28800000 && FirstRow(flo, i) && Splits(flo * Mult(i), fosc, z, x)
    ensures flo < UINT32 && FoscValid(fosc)
    ensures !(0 <= flo * Mult(i) - ComputeFvco(fosc, Rem(z, 256), x) <= Resolution(fosc))
  {
    assert Mult(i) == 2;
    hide Splits, FirstRow;
    FvcoIsCloseIff(flo * 2, fosc, z, x);
  }

  lemma Mono(k: nat, n: nat)
    ensures k >= 1 ==> n * k >= n
    ensures k == 0 ==> n * k == 0
  {
  }

  lemma FitsIff(fvco: nat, fosc: nat, z: nat)
    requires fosc > 0 && fosc * z <= fvco < fosc * z + fosc
    ensures Div(z, 256) == 0 <==> z <= 255
    ensures z <= 255 <==> fvco < 256 * fosc
  {
    hide Div, Rem;
    Placed(z, 256);
    assert (z - 256) * fosc == fosc * z - 256 * fosc && (z - 255) * fosc == (z - 256) * fosc + fosc;
    Multiples(z - 256, fosc);
    Multiples(z - 255, fosc);
  }

  /** The local oscillator is at most the resolution, divided by r and rounded up, below what was
      intended, and never above; the exception is a VCO at 0, which is an error code. */
  lemma FloIsClose(flo: nat, r: nat, fosc: nat, z: nat, x: nat)
    requires FoscValid(fosc) && 2 <= r <= 48 && Splits(flo * r, fosc, z, x) && flo * r < 256 * fosc
    ensures var tuned := ComputeFlo(fosc, z, x, r);
      if flo * r * PLL_Y < fosc then tuned == UINT32 - EINVAL
      else 0 <= flo - tuned <= Div(Resolution(fosc) + r - 1, r)
  {
    hide Div, Rem, Splits, Resolution, ComputeFvco;
    var intended, fvco := flo * r, ComputeFvco(fosc, z, x);
    FvcoIsClose(intended, fosc, z, x);
    ZeroIff(intended, fosc, z, x);
    if fvco > 0 {
      Quotients(flo, r, intended, fvco, Resolution(fosc));
      Small(fvco, r);
    }
  }

  lemma Small(fvco: nat, r: nat)
    requires fvco < 256 * Mhz(30) && r >= 2
    ensures Rem(Div(fvco, r), UINT32) == Div(fvco, r)
  {
    assert UINT32 * r >= UINT32 * 2;
    DivIs(fvco, r, UINT32 - 1);
    hide Div;
  }

  lemma ZeroIff(fvco: nat, fosc: nat, z: nat, x: nat)
    requires FoscValid(fosc) && Splits(fvco, fosc, z, x)
    ensures ComputeFvco(fosc, z, x) == 0 <==> fvco * PLL_Y < fosc
  {
    Mono(z, fosc);
    Mono(x, fosc);
    assert x * fosc == fosc * x;
    var y := fosc * x;
    hide Splits;
    assert Div(y, PLL_Y) == 0 <==> y < PLL_Y;
    if z == 0 {
      assert fosc * z == 0;
    }
  }

  lemma Quotients(flo: nat, r: nat, intended: nat, fvco: nat, bound: nat)
    requires r >= 1 && intended == flo * r && 0 <= intended - fvco <= bound
    ensures 0 <= flo - Div(fvco, r) <= Div(bound + r - 1, r)
  {
    hide Div, Rem;
    var u := Div(bound + r - 1, r);
    Placed(bound + r - 1, r);
    assert (flo - u) * r == intended - u * r && (flo + 1) * r == intended + r;
    DivIs(fvco, r, flo - u);
    DivIs(fvco, r, flo);
  }

  /** An error code is returned for 9 Hz with that crystal. */
  lemma NearZero(flo: nat, fosc: nat, i: nat, z: nat, x: nat)
    requires flo == 9 && fosc == 28800000 && FirstRow(flo, i) && Splits(flo * Mult(i), fosc, z, x)
    ensures ComputeFlo(fosc, z, x, Mult(i)) == 4294967296 - 22
  {
    assert PLL_VARS[0] == PllVar(Khz(72400), 15, 48);
    assert Mult(i) == 48;
    hide Splits, FirstRow;
    FloIsClose(flo, 48, fosc, z, x);
  }
}

/** When r82xx_set_pll accepts a frequency, and when it is right to. */
module R82xxTheorems {
  import opened Bytes
  import opened Indexes
  import opened R82xx

  /** The registers are for the frequency that was asked for: the synthesized VCO frequency is close
      to vco, which is freq * div, and the number that the divider register is made of is that of div. */
  predicate Right(vco: nat, xtal: nat, div: nat, number: nat, r: Setting)
    requires xtal > 0
  {
    Synthesizes(vco, 2 * xtal, r) && Pow2(number + 1) == div
  }

  /** A divider in range leaves a VCO frequency that fits 32 bits. */
  lemma VcoFits(freq: nat, div: nat, number: nat)
    requires freq < UINT32 && Divides(FreqKhz(freq), div, number) && Tunable(FreqKhz(freq))
    ensures 1769968000 <= freq * div <= 3540031000 < UINT32
  {
    hide Pow2;
    var f := FreqKhz(freq);
    KhzRounds(freq);
    assert 1000 * f - 500 <= freq <= 1000 * f + 499;
    if div == 2 { assert freq * div == freq * 2; }
    if div == 4 { assert freq * div == freq * 4; }
    if div == 8 { assert freq * div == freq * 8; }
    if div == 16 { assert freq * div == freq * 16; }
    if div == 32 { assert freq * div == freq * 32; }
    if div == 64 { assert freq * div == freq * 64; }
  }

  lemma KhzRounds(freq: nat)
    requires freq < UINT32 && FreqKhz(freq) > 0
    ensures 1000 * FreqKhz(freq) - 500 <= freq <= 1000 * FreqKhz(freq) + 499
  {
  }

  /** Without a divider in range the number is that of another divider. */
  lemma NumberIff(f: nat, div: nat, number: nat)
    requires Divides(f, div, number)
    ensures Pow2(number + 1) == div <==> Tunable(f)
  {
    assert Pow2(1) == 2;
  }

  /** For a reference below 32767.5 kHz, every frequency is accepted of which the low 8 bits of the
      integer part are within the limit, and no other. */
  lemma AcceptedIff(vco: nat, xtal: nat, limit: nat, r: Setting)
    requires 0 < xtal < 32767500 && Meets(vco, xtal, limit, r)
    ensures r.Setting? <==> Whole(vco, xtal) % 256 <= limit
  {
    hide Synthesizes, Whole;
  }

  /** The result is right if and only if there is a divider and the integer part is in range. */
  lemma RightIff(freq: nat, xtal: nat, limit: nat, div: nat, number: nat, vco: nat, r: Setting)
    requires freq < UINT32 && 0 < xtal < 32767500 && vco == freq * div
    requires Divides(FreqKhz(freq), div, number) && Meets(vco, xtal, limit, r)
    ensures Right(vco, xtal, div, number, r) <==> Tunable(FreqKhz(freq)) && 13 <= Whole(vco, xtal) <= limit
  {
    NumberIff(FreqKhz(freq), div, number);
    if Tunable(FreqKhz(freq)) {
      VcoFits(freq, div, number);
    }
    hide Synthesizes, Whole, Divides, Pow2, Tunable, FreqKhz;
  }

  /** With the usual crystal of 28.8 MHz that is every frequency for which there is a divider. */
  lemma NominalCrystal(freq: nat, xtal: nat, limit: nat, div: nat, number: nat, vco: nat, r: Setting)
    requires freq < UINT32 && xtal == 28800000 && vco == freq * div && limit in {63, 127}
    requires Divides(FreqKhz(freq), div, number) && Meets(vco, xtal, limit, r)
    ensures Right(vco, xtal, div, number, r) <==> Tunable(FreqKhz(freq))
    ensures Tunable(FreqKhz(freq)) ==> r.Setting?
  {
    hide Synthesizes, Whole, Divides, Pow2, Tunable, FreqKhz;
    RightIff(freq, xtal, limit, div, number, vco, r);
    if Tunable(FreqKhz(freq)) {
      VcoFits(freq, div, number);
      NominalWhole(vco, xtal);
    }
  }

  lemma NominalWhole(vco: nat, xtal: nat)
    requires xtal == 28800000 && 1769968000 <= vco <= 3540031000
    ensures 13 <= Whole(vco, xtal) <= 63
  {
    hide Div;
    DivIs(vco, 2 * xtal, 13);
    DivIs(vco, 2 * xtal, 63);
  }

  /** A frequency that is accepted although there is no divider for it: 1.85 GHz, whose integer
      part of 4111 is taken for 15. */
  lemma AcceptedWithoutDivider(freq: nat, xtal: nat, limit: nat, div: nat, number: nat, vco: nat, r: Setting)
    requires freq == 1850000000 && xtal == 28800000 && vco == freq * div && limit in {63, 127}
    requires Divides(FreqKhz(freq), div, number) && Meets(vco, xtal, limit, r)
    ensures !Tunable(FreqKhz(freq)) && r.Setting? && !Right(vco, xtal, div, number, r)
  {
    assert FreqKhz(freq) == 1850000 && div == 128;
    assert vco == 236800000000;
    WholeAt(vco, xtal, 4111, 6400000);
    hide Synthesizes, Whole, Divides, Pow2, FreqKhz;
    RightIff(freq, xtal, limit, div, number, vco, r);
    AcceptedIff(vco, xtal, limit, r);
  }

  lemma WholeAt(vco: nat, xtal: nat, whole: nat, rem: nat)
    requires xtal > 0 && vco == whole * (2 * xtal) + rem && rem < 2 * xtal
    ensures Whole(vco, xtal) == whole && Rem(vco, 2 * xtal) == rem
  {
    hide Div, Rem;
    Place(whole, 2 * xtal, rem);
  }

  /** A frequency for which the search divides by zero: 1.320001 GHz with a crystal of 33 MHz. */
  lemma SearchFailsAt(freq: nat, xtal: nat, limit: nat, div: nat, number: nat, vco: nat, r: Setting)
    requires freq == 1320001000 && xtal == 33000000 && vco == freq * div && limit in {63, 127}
    requires Divides(FreqKhz(freq), div, number) && Fails(vco, xtal, limit, r)
    ensures Tunable(FreqKhz(freq)) && r == SearchFails
  {
    hide Whole, Divides, Pow2, Search, FreqKhz, Tunable;
    Khz(freq, 1320001);
    DividerTwo(1320001, div, number);
    SearchWithoutEnd(vco, xtal);
  }

  lemma Khz(freq: nat, khz: nat)
    requires freq == 1000 * khz && freq + 500 < UINT32
    ensures FreqKhz(freq) == khz
  {
  }

  lemma DividerTwo(f: nat, div: nat, number: nat)
    requires VCO_MIN <= 2 * f < VCO_MAX && Divides(f, div, number)
    ensures Tunable(f) && div == 2
  {
    hide Pow2;
  }

  lemma SearchWithoutEnd(vco: nat, xtal: nat)
    requires vco == 2640002000 && xtal == 33000000
    ensures Whole(vco, xtal) == 40 && Search(vco, xtal, 40) == DividedByZero
  {
    hide SigmaDelta, VcoFra, Rem, Div, Whole;
    WholeAt(vco, xtal, 40, 2000);
    NoWrap(vco, xtal, 40);
    NothingTaken(66000, 1);
  }

  /** 100 MHz with the usual crystal: the divider 32, whose number is 4; the VCO at 3.2 GHz is 55 times
      57.6 MHz and 32000 kHz. With the fine tuning above the reference the register gets 3 << 5. */
  lemma HundredMegahertz(freq: nat, xtal: nat, vcoFineTune: nat, div: nat, number: nat, r: Setting)
    requires freq == 100000000 && xtal == 28800000 && vcoFineTune < 4
    requires Divides(FreqKhz(freq), div, number) && Tuned(freq, xtal, 2, vcoFineTune, div, number, r)
    ensures div == 32 && number == 4 && Whole(freq * div, xtal) == 55
    ensures r.Setting? && r.intReg % 64 * 4 + r.intReg / 64 + 13 == 55 && !r.fractionOff
    ensures r.divNum == if vcoFineTune == 3 then 0x60 else if vcoFineTune == 2 then 0x80 else 0xa0
  {
    Khz(freq, 100000);
    DividerThirtyTwo(100000, div, number);
    var vco := freq * div;
    FiftyFiveTimes(vco, xtal);
    hide Tunable, FreqKhz, IntReg, Integer, Whole, Divides, Synthesizes, DividerField, Search, Pow2;
    AcceptedIff(vco, xtal, 63, r);
    FiftyFive(vco, xtal, r);
    ThreeBits(r.divNum, number, vcoFineTune);
  }

  lemma FiftyFiveTimes(vco: nat, xtal: nat)
    requires vco == 3200000000 && xtal == 28800000
    ensures Whole(vco, xtal) == Div(vco, 2 * xtal) == 55 && Rem(vco, 2 * xtal) == 32000000
  {
    WholeAt(vco, xtal, 55, 32000000);
    WholeIs(vco, xtal);
  }

  lemma ThreeBits(reg: nat, number: nat, vcoFineTune: nat)
    requires DividerField(reg, number, 2, vcoFineTune) && number == 4 && vcoFineTune < 4
    ensures reg == if vcoFineTune == 3 then 0x60 else if vcoFineTune == 2 then 0x80 else 0xa0
  {
  }

  lemma DividerThirtyTwo(f: nat, div: nat, number: nat)
    requires VCO_MIN <= 32 * f < VCO_MAX && Divides(f, div, number)
    ensures Tunable(f) && div == 32 && number == 4
  {
    assert Pow2(1) == 2 && Pow2(5) == 32;
    if number > 4 {
      Pow2Grows(number + 1, 5);
    } else if number < 4 {
      Pow2Grows(5, number + 1);
    }
  }

  lemma FiftyFive(vco: nat, xtal: nat, r: Setting)
    requires vco == 3200000000 && xtal == 28800000 && Meets(vco, xtal, 63, r) && r.Setting?
    requires Whole(vco, xtal) == Div(vco, 2 * xtal) == 55 && Rem(vco, 2 * xtal) == 32000000
    ensures r.intReg % 64 * 4 + r.intReg / 64 + 13 == 55 && !r.fractionOff
  {
    hide Div, Rem, Whole;
  }
}

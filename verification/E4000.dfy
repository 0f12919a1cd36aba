/**
  The PLL of the E4000: e4k_compute_pll_params of tuner_e4k.c with the widths of
  its integers.
 */
module E4000 {
  import opened Options
  import opened Arithmetic

  const PLL_Y := 65536

  // The value -EINVAL has as an unsigned number.
  const MINUS_EINVAL := 0x1_0000_0000 - 22

  datatype PllSettings = PllSettings(freq: nat, regSynth7: nat, mult: nat)

  const PLL_VARS: seq<PllSettings> := [
    PllSettings(72_400_000, 15, 48), PllSettings(81_200_000, 14, 40), PllSettings(108_300_000, 13, 32),
    PllSettings(162_500_000, 12, 24), PllSettings(216_600_000, 11, 16), PllSettings(325_000_000, 10, 12),
    PllSettings(350_000_000, 9, 8), PllSettings(432_000_000, 3, 8), PllSettings(667_000_000, 2, 6),
    PllSettings(1_200_000_000, 1, 4)]

  // The divider for a frequency: that of the first entry above it, else 2.
  function Entry(flo: nat, i: nat): nat
    requires i <= |PLL_VARS|
    decreases |PLL_VARS| - i
  {
    if i == |PLL_VARS| || flo < PLL_VARS[i].freq then i else Entry(flo, i + 1)
  }

  function Mult(flo: nat): (r: nat)
    ensures 2 <= r <= 48
  {
    var i := Entry(flo, 0); if i < |PLL_VARS| then PLL_VARS[i].mult else 2
  }

  // The divider and the value of register SYNTH7, by the upper limits in Hz of the
  // frequencies they are for.
  function Settings(flo: nat): (nat, nat) {
    if flo < 72_400_000 then (48, 0x0f) else if flo < 81_200_000 then (40, 0x0e)
    else if flo < 108_300_000 then (32, 0x0d) else if flo < 162_500_000 then (24, 0x0c)
    else if flo < 216_600_000 then (16, 0x0b) else if flo < 325_000_000 then (12, 0x0a)
    else if flo < 350_000_000 then (8, 0x09) else if flo < 432_000_000 then (8, 0x03)
    else if flo < 667_000_000 then (6, 0x02) else if flo < 1_200_000_000 then (4, 0x01) else (2, 0)
  }

  lemma SettingsAre(flo: nat)
    ensures Mult(flo) == Settings(flo).0
    ensures var i := Entry(flo, 0);
            Settings(flo).1 == if i < |PLL_VARS| then PLL_VARS[i].regSynth7 else 0
  {
  }

  lemma HighMult(flo: nat)
    requires flo >= 1_200_000_000
    ensures Mult(flo) == 2
  {
  }

  // compute_fvco
  function Fvco(fosc: nat, z: nat, x: nat): nat { fosc * z + fosc * x / PLL_Y }

  // compute_flo, which has 8 bits for z and 16 for x.
  function Flo(fosc: nat, z: nat, x: nat, r: nat): nat
    requires r > 0
  {
    var fvco := Fvco(fosc, z % 256, x % 0x1_0000);
    if fvco == 0 then MINUS_EINVAL else fvco / r % 0x1_0000_0000
  }

  // Never above the intended frequency, and short of it by at most
  // (fosc / 65536 + 1) / r + 1 Hz.
  predicate Within(flo: nat, intended: nat, fosc: nat, r: nat) {
    flo <= intended && (intended - flo - 1) * r * 65536 <= fosc + 65536
  }

  // z fits its 8 bits and the VCO frequency is not so low that it comes out as 0.
  predicate InRange(vco: nat, fosc: nat) {
    fosc <= 65536 * vco && vco < 256 * fosc
  }

  datatype Params = Params(fosc: nat, flo: nat, intendedFlo: nat, r: nat, rIdx: nat, threephase: bool, x: nat, z: nat)

  // None: 0 is returned, for an invalid clock.
  method ComputePllParams(fosc: nat, intendedFlo: nat) returns (oscp: Option<Params>)
    requires fosc < 0x1_0000_0000 && intendedFlo < 0x1_0000_0000
    ensures oscp.None? <==> !(16_000_000 <= fosc <= 30_000_000)
    ensures oscp.Some? ==>
              var p := oscp.value;
              && p.r == Mult(intendedFlo) && p.x < PLL_Y && p.z < 256
              && p.fosc == fosc && p.intendedFlo == intendedFlo
              && (p.r, p.rIdx) == Settings(intendedFlo) && (p.threephase <==> intendedFlo < 350_000_000)
              && p.flo == Flo(fosc, p.z, p.x, p.r)
              && (Within(p.flo, intendedFlo, fosc, p.r) <==> InRange(intendedFlo * p.r, fosc))
  {
    hide Within, InRange, Flo, Mult, Settings;
    if fosc < 16_000_000 || fosc > 30_000_000 { return None; }
    var r, rIdx, threephase := FindMult(intendedFlo);
    var intendedFvco := intendedFlo * r;
    var z := intendedFvco / fosc;
    Quotient(intendedFvco, fosc);
    var remainder := intendedFvco - fosc * z;
    var x := remainder * PLL_Y / fosc;
    Fraction(fosc, remainder, x);
    PllError(fosc, intendedFlo, intendedFvco, z, remainder, x);
    FloWraps(fosc, z, x, r);
    var flo := Flo(fosc, z, x, r);
    oscp := Some(Params(fosc, flo, intendedFlo, r, rIdx, threephase, x, z % 256));
  }

  lemma FloWraps(fosc: nat, z: nat, x: nat, r: nat)
    requires r > 0
    ensures Flo(fosc, z, x, r) == Flo(fosc, z % 256, x, r)
  {
  }

  // The loop over the table.
  method FindMult(intendedFlo: nat) returns (r: nat, rIdx: nat, threephase: bool)
    ensures r == Mult(intendedFlo) && (r, rIdx) == Settings(intendedFlo)
    ensures intendedFlo < 350_000_000 <==> threephase
  {
    hide Settings;
    SettingsAre(intendedFlo);
    r, rIdx, threephase := 2, 0, false;
    var i := 0;
    while i < |PLL_VARS|
      invariant 0 <= i <= |PLL_VARS| && Entry(intendedFlo, 0) == Entry(intendedFlo, i)
      invariant i > 0 ==> intendedFlo >= PLL_VARS[i - 1].freq
      invariant r == 2 && rIdx == 0 && !threephase
    {
      if intendedFlo < PLL_VARS[i].freq {
        threephase := PLL_VARS[i].regSynth7 / 8 % 2 == 1;
        rIdx, r := PLL_VARS[i].regSynth7, PLL_VARS[i].mult;
        break;
      }
      i := i + 1;
    }
  }

  // x is the fraction in 65536ths, rounded down.
  lemma Fraction(fosc: nat, remainder: nat, x: nat)
    requires remainder < fosc && x == remainder * PLL_Y / fosc
    ensures x < PLL_Y
    ensures var part := fosc * x / PLL_Y; part <= remainder && (remainder - part) * PLL_Y <= fosc + PLL_Y
    ensures x > 0 ==> fosc <= fosc * x
    ensures x == 0 <==> remainder * PLL_Y < fosc
  {
    Quotient(remainder * PLL_Y, fosc);
    DivBounds(remainder * PLL_Y, fosc, 0, PLL_Y);
    Quotient(fosc * x, PLL_Y);
    if x > 0 { MultiplyBounds(1, x, x, fosc); }
  }

  // r * flo is about vco; target is the intended VCO frequency.
  lemma WithinExactly(fosc: nat, intended: nat, r: nat, target: nat, vco: nat)
    requires r > 0 && target == intended * r && vco <= target
    ensures vco / r <= intended
    ensures (target - vco) * PLL_Y <= fosc + PLL_Y ==> Within(vco / r, intended, fosc, r)
    ensures (target - vco) * PLL_Y > fosc + PLL_Y + r * PLL_Y ==> !Within(vco / r, intended, fosc, r)
  {
    var flo := vco / r;
    Quotient(vco, r);
    Distribute(r, intended, 1);
    DivBounds(vco, r, 0, intended + 1);
    assert (intended - flo - 1) * r == target - r * flo - r;
  }

  lemma FloIs(fosc: nat, z: nat, x: nat, r: nat)
    requires r > 0 && x < PLL_Y && Fvco(fosc, z % 256, x) / r < 0x1_0000_0000
    ensures var vco := Fvco(fosc, z % 256, x); Flo(fosc, z, x, r) == if vco == 0 then MINUS_EINVAL else vco / r
  {
  }

  // The VCO frequency that z and x stand for, z fitting its 8 bits ...
  lemma SmallZ(fosc: nat, z: nat, remainder: nat, x: nat, target: nat)
    requires 16_000_000 <= fosc && z <= 255 && remainder < fosc && x == remainder * PLL_Y / fosc
    requires target == fosc * z + remainder
    ensures var vco := Fvco(fosc, z % 256, x);
            && vco <= target < 256 * fosc && (target - vco) * PLL_Y <= fosc + PLL_Y
            && (vco == 0 <==> target * PLL_Y < fosc)
  {
    Fraction(fosc, remainder, x);
    MultiplyBounds(0, z, 255, fosc);
    if z > 0 { MultiplyBounds(1, z, z, fosc); }
  }

  // ... and not.
  lemma LargeZ(fosc: nat, z: nat, remainder: nat, x: nat, target: nat)
    requires 16_000_000 <= fosc && z > 255 && remainder < fosc && x == remainder * PLL_Y / fosc
    requires target == fosc * z + remainder
    ensures var vco := Fvco(fosc, z % 256, x);
            && 256 * fosc <= target && vco + 256 * fosc <= target
            && (vco == 0 ==> z % 256 == 0 && remainder * PLL_Y < fosc)
  {
    Fraction(fosc, remainder, x);
    MultiplyBounds(256, z, z, fosc);
    MultiplyBounds(z % 256 + 256, z, z, fosc);
    Distribute(fosc, z % 256, 256);
    if z % 256 > 0 { MultiplyBounds(1, z % 256, z % 256, fosc); }
  }

  // A z that wraps to 0 with a fraction of 0 needs a frequency below the error value.
  lemma Corner(fosc: nat, intended: nat, target: nat, z: nat, remainder: nat)
    requires 16_000_000 <= fosc <= 30_000_000
    requires intended >= 1_200_000_000 ==> target == 2 * intended
    requires intended < 0x1_0000_0000 && target == fosc * z + remainder && z > 255 && z % 256 == 0
             && remainder * PLL_Y < fosc
    ensures intended < MINUS_EINVAL
  {
    if intended >= 1_200_000_000 {
      if z >= 768 { MultiplyBounds(768, z, z, fosc); }
      assert z == 256 || z == 512;
    }
  }

  lemma TooHigh(intended: nat, fosc: nat, r: nat)
    requires intended < MINUS_EINVAL
    ensures !Within(MINUS_EINVAL, intended, fosc, r)
  {
  }

  // The error is within bounds exactly when the VCO frequency is in range.
  lemma PllError(fosc: nat, intended: nat, target: nat, z: nat, remainder: nat, x: nat)
    requires 16_000_000 <= fosc <= 30_000_000 && intended < 0x1_0000_0000 && target == intended * Mult(intended)
    requires target == fosc * z + remainder && remainder < fosc && x == remainder * PLL_Y / fosc
    ensures Within(Flo(fosc, z, x, Mult(intended)), intended, fosc, Mult(intended)) <==> InRange(target, fosc)
  {
    hide Mult, Within, Flo, Fvco;
    var r, vco := Mult(intended), Fvco(fosc, z % 256, x);
    MultiplyBounds(1, r, r, intended);
    if z <= 255 { SmallZ(fosc, z, remainder, x, target); } else { LargeZ(fosc, z, remainder, x, target); }
    if vco == 0 && z > 255 {
      if intended >= 1_200_000_000 { HighMult(intended); }
      Corner(fosc, intended, target, z, remainder);
    }
    if vco == 0 { TooHigh(intended, fosc, r); }
    Fraction(fosc, remainder, x);
    WithinExactly(fosc, intended, r, target, vco);
    FloIs(fosc, z, x, r);
  }

  // With a clock of 16 MHz the chip asked for 1100 MHz is set to 76 MHz: z is 275.
  lemma WrappedAt1100MHz()
    ensures Mult(1_100_000_000) == 4
    ensures Flo(16_000_000, 275, 0, 4) == 76_000_000 && !Within(76_000_000, 1_100_000_000, 16_000_000, 4)
  {
    PllError(16_000_000, 1_100_000_000, 4_400_000_000, 275, 0, 0);
  }
}

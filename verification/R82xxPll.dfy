/**
  The PLL of the R820T/R828D: how r82xx_set_pll of tuner_r82xx.c turns a local
  oscillator frequency into a mixer divider, an integer part and a sigma-delta
  fraction, with the widths of its integers written out.
 */
module R82xxPll {
  import opened Options
  import opened Arithmetic

  const VCO_MIN := 1_770_000
  const VCO_MAX := 3_540_000

  /* The mixer divider. */

  const DIVIDERS := {2, 4, 8, 16, 32, 64}

  predicate Fits(freqKhz: nat, mixDiv: nat) {
    VCO_MIN <= freqKhz * mixDiv < VCO_MAX
  }

  // Exactly one divider fits if and only if the frequency can be tuned to.
  lemma OneDividerFits(freqKhz: nat)
    ensures 27657 <= freqKhz <= 1769999 <==> exists m :: m in DIVIDERS && Fits(freqKhz, m)
    ensures forall m, m' :: m in DIVIDERS && m' in DIVIDERS && Fits(freqKhz, m) && Fits(freqKhz, m') ==> m == m'
  {
    if 27657 <= freqKhz <= 1769999 {
      var m := if freqKhz >= 885000 then 2 else if freqKhz >= 442500 then 4 else if freqKhz >= 221250 then 8
               else if freqKhz >= 110625 then 16 else if freqKhz >= 55313 then 32 else 64;
      assert m in DIVIDERS && Fits(freqKhz, m);
    }
  }

  // The divider and the number that stands for it in register 0x10.
  method ChooseDivider(freqKhz: nat) returns (mixDiv: nat, divNum: nat)
    requires freqKhz < 0x400_0000
    ensures (exists m :: m in DIVIDERS && Fits(freqKhz, m)) ==>
              mixDiv in DIVIDERS && Fits(freqKhz, mixDiv) && Exp2(divNum + 1) == mixDiv
    ensures !(exists m :: m in DIVIDERS && Fits(freqKhz, m)) ==> mixDiv == 128 && divNum == 0
  {
    mixDiv, divNum := 2, 0;
    while mixDiv <= 64
      invariant mixDiv in DIVIDERS || mixDiv == 128
      invariant forall m :: m in DIVIDERS && m < mixDiv ==> !Fits(freqKhz, m)
      invariant divNum == 0
      decreases 128 - mixDiv
    {
      if freqKhz * mixDiv >= VCO_MIN && freqKhz * mixDiv < VCO_MAX {
        var divBuf := mixDiv;
        while divBuf > 2
          invariant divBuf in DIVIDERS && divBuf * Exp2(divNum) == mixDiv
        {
          divBuf, divNum := divBuf / 2, divNum + 1;
        }
        break;
      }
      mixDiv := mixDiv * 2;
    }
  }

  function Exp2(n: nat): nat { if n == 0 then 1 else 2 * Exp2(n - 1) }

  /* The sigma-delta modulator. */

  // n_sdm in its round k; after 15 rounds its 16 bits are 0.
  function NSdm(k: nat): nat
    requires 1 <= k <= 16
  {
    if k == 16 then 0 else Exp2(k)
  }

  // The loop from round k on: the value for sdm and the kHz not covered, or the
  // division by zero that the wrapped n_sdm leads to.
  function SdmFrom(fra: nat, pllRefKhz: nat, k: nat, sdm: nat): Option<(nat, nat)>
    requires 1 <= k <= 16
    decreases 16 - k
  {
    if fra <= 1 then Some((sdm, fra))
    else if k == 16 then None
    else
      var q := Share(pllRefKhz, k);
      if fra > q then
        var s := (sdm + Weight(k)) % 0x1_0000;
        if k == 15 then Some((s, fra - q)) else SdmFrom(fra - q, pllRefKhz, k + 1, s)
      else SdmFrom(fra, pllRefKhz, k + 1, sdm)
  }

  // The kHz the bit of round k stands for, and the bit.
  function Share(pllRefKhz: nat, k: nat): nat
    requires 1 <= k <= 15
  {
    Powers(k); 2 * pllRefKhz / Exp2(k)
  }

  function Weight(k: nat): nat
    requires 1 <= k <= 15
  {
    Powers(k); 32768 / (Exp2(k) / 2)
  }

  lemma Powers(k: nat)
    requires 1 <= k <= 15
    ensures 2 <= Exp2(k) <= 32768 && (Exp2(k) == 32768 <==> k == 15) && Exp2(k) / 2 > 0
    ensures NSdm(k + 1) == 2 * Exp2(k) % 0x1_0000
    ensures Exp2(k) * (32768 / (Exp2(k) / 2)) == 0x1_0000
  {
    assert Exp2(3) == 8 && Exp2(6) == 64 && Exp2(9) == 512 && Exp2(12) == 4096;
    assert Exp2(15) == 32768;
  }

  method SdmCalculator(vcoFra: nat, pllRefKhz: nat) returns (r: Option<(nat, nat)>, rounds: nat)
    ensures r == SdmFrom(vcoFra, pllRefKhz, 1, 0) && rounds <= 15
  {
    hide Exp2, NSdm, Share, Weight, SdmFrom;
    var fra: nat, sdm: nat, n: nat := vcoFra, 0, 2;
    rounds := 0;
    Ends();
    while fra > 1
      invariant rounds <= 15 && n == NSdm(rounds + 1)
      invariant SdmFrom(vcoFra, pllRefKhz, 1, 0) == SdmFrom(fra, pllRefKhz, rounds + 1, sdm)
      decreases 16 - rounds
    {
      if rounds < 15 { Round(pllRefKhz, rounds + 1); }
      OneRound(fra, pllRefKhz, rounds + 1, sdm);
      if n == 0 { return None, rounds; }
      rounds := rounds + 1;
      if fra > 2 * pllRefKhz / n {
        sdm := (sdm + 32768 / (n / 2)) % 0x1_0000;
        fra := fra - 2 * pllRefKhz / n;
        if n >= 0x8000 { return Some((sdm, fra)), rounds; }
      }
      n := n * 2 % 0x1_0000;
    }
    OneRound(fra, pllRefKhz, rounds + 1, sdm);
    r := Some((sdm, fra));
  }

  lemma OneRound(fra: nat, p: nat, k: nat, sdm: nat)
    requires 1 <= k <= 16
    ensures SdmFrom(fra, p, k, sdm) ==
            if fra <= 1 then Some((sdm, fra))
            else if k == 16 then None
            else if fra > Share(p, k) then
              (if k == 15 then Some(((sdm + Weight(k)) % 0x1_0000, fra - Share(p, k)))
               else SdmFrom(fra - Share(p, k), p, k + 1, (sdm + Weight(k)) % 0x1_0000))
            else SdmFrom(fra, p, k + 1, sdm)
  {
    hide Share, Weight;
  }

  lemma Ends()
    ensures NSdm(1) == 2 && NSdm(16) == 0
  {
  }

  lemma Round(p: nat, k: nat)
    requires 1 <= k <= 15
    ensures var n := NSdm(k);
            && n > 0 && n / 2 > 0 && 2 * p / n == Share(p, k) && 32768 / (n / 2) == Weight(k)
            && n * 2 % 0x1_0000 == NSdm(k + 1) && (n >= 0x8000 <==> k == 15)
  {
    Powers(k);
  }

  /* How good the fraction is. */

  // What a bit weighs against the kHz taken off for it, in 1/65536 Hz.
  lemma OneBit(p: nat, k: nat)
    requires 1 <= k <= 15
    ensures 0 <= 2000 * p * Weight(k) - 65536000 * Share(p, k) <= 65536000
  {
    Powers(k);
    OneBitOf(Exp2(k), Weight(k), Share(p, k), p);
  }

  lemma OneBitOf(n: nat, w: nat, q: nat, p: nat)
    requires n * w == 0x1_0000 && n > 0 && q == 2 * p / n
    ensures 0 <= 2000 * p * w - 65536000 * q <= 65536000
  {
    var x := q * n;
    assert x <= 2 * p <= x + n;
    MultiplyBounds(x, 2 * p, x + n, w);
    assert w * x == q * (n * w) by { Commute(w, q, n); }
    assert w * (x + n) == w * x + w * n by { Distribute(w, x, n); }
    assert 2000 * p * w == 1000 * (w * (2 * p)) by { Commute(w, 2, p); }
  }

  lemma NextRound(p: nat, k: nat)
    requires 1 <= k <= 14
    ensures Weight(k) == 2 * Weight(k + 1)
    ensures 2 * Share(p, k + 1) <= Share(p, k) <= 2 * Share(p, k + 1) + 1
  {
    Powers(k);
    Powers(k + 1);
    var n := Exp2(k);
    assert Exp2(k + 1) == 2 * n;
    Halving(2 * p, n);
    assert Exp2(3) == 8 && Exp2(6) == 64 && Exp2(9) == 512 && Exp2(12) == 4096;
  }

  // Raising sdm from s to s' stands for taking fra down to rest, up to 1 kHz a round.
  predicate Tracks(p: nat, fra: int, rest: int, s: int, s': int, rounds: nat) {
    0 <= 2000 * p * (s' - s) - 65536000 * (fra - rest) <= 65536000 * rounds
  }

  lemma TracksNothing(p: nat, fra: int, s: int, rounds: nat)
    ensures Tracks(p, fra, fra, s, s, rounds)
  {
    assert 2000 * p * (s - s) == 0;
  }

  lemma TracksOneBit(p: nat, k: nat, fra: int, rest: int, s: int, s': int, rounds: nat)
    requires 1 <= k <= 15 && Tracks(p, fra - Share(p, k), rest, s + Weight(k), s', rounds)
    ensures Tracks(p, fra, rest, s, s', rounds + 1)
  {
    OneBit(p, k);
    Distribute(2000 * p, s' - (s + Weight(k)), Weight(k));
  }

  lemma LastRound(p: nat)
    requires p <= 32767
    ensures Share(p, 15) <= 1 && Weight(15) == 2
  {
    Powers(15);
  }

  lemma {:induction false} SdmError(fra: nat, p: nat, k: nat, sdm: nat)
    requires 1 <= k <= 16 && p <= 32767
    requires k <= 15 ==> fra <= 2 * Share(p, k) + k - 1 && sdm + 2 * Weight(k) <= 0x1_0000
    requires k == 16 ==> fra <= 1 && sdm <= 0xfffe
    ensures var r := SdmFrom(fra, p, k, sdm);
            && r.Some? && r.value.0 <= 0xfffe && r.value.1 <= 15
            && Tracks(p, fra, r.value.1, sdm, r.value.0, 16 - k)
    decreases 16 - k
  {
    hide Share, Weight, Tracks, SdmFrom;
    TracksNothing(p, fra, sdm, 16 - k);
    if k <= 15 { WeightPositive(k); }
    OneRound(fra, p, k, sdm);
    if fra > 1 {
      var q, w := Share(p, k), Weight(k);
      if k == 15 {
        LastRound(p);
        TracksNothing(p, fra - q, sdm + w, 0);
        TracksOneBit(p, k, fra, fra - q, sdm, sdm + w, 0);
      } else {
        NextRound(p, k);
        if fra > q {
          SdmError(fra - q, p, k + 1, sdm + w);
          var r := SdmFrom(fra - q, p, k + 1, sdm + w).value;
          TracksOneBit(p, k, fra, r.1, sdm, r.0, 15 - k);
        } else {
          SdmError(fra, p, k + 1, sdm);
          var r := SdmFrom(fra, p, k + 1, sdm).value;
          TracksMore(p, fra, r.1, sdm, r.0, 15 - k);
        }
      }
    }
  }

  lemma WeightPositive(k: nat)
    requires 1 <= k <= 15
    ensures 2 <= Weight(k)
    decreases 16 - k
  {
    if k < 15 { NextRound(0, k); WeightPositive(k + 1); } else { LastRound(0); }
  }

  lemma TracksMore(p: nat, fra: int, rest: int, s: int, s': int, rounds: nat)
    requires Tracks(p, fra, rest, s, s', rounds)
    ensures Tracks(p, fra, rest, s, s', rounds + 1)
  {
  }

  lemma {:induction false} TwoNeverShrinks(p: nat, k: nat)
    requires 1 <= k <= 16 && p >= 32768
    ensures SdmFrom(2, p, k, 0) == None
    decreases 16 - k
  {
    if k <= 15 {
      Powers(k);
      DivBounds(2 * p, Exp2(k), 2, 2 * p + 1);
      TwoNeverShrinks(p, k + 1);
    }
  }

  // The calculation can divide by zero exactly for crystals of 32.768 MHz and more.
  lemma DividesByZeroExactly(p: nat)
    ensures (exists fra :: 0 <= fra <= 2 * p && SdmFrom(fra, p, 1, 0).None?) <==> p >= 32768
  {
    Powers(1);
    assert Share(p, 1) == p && Weight(1) == 32768;
    if p >= 32768 {
      TwoNeverShrinks(p, 1);
    } else {
      forall fra | 0 <= fra <= 2 * p ensures SdmFrom(fra, p, 1, 0).Some? { SdmError(fra, p, 1, 0); }
    }
  }

  /* The whole. */

  // What goes into registers 0x10, 0x14, 0x15 and 0x16; integer: the modulator is
  // switched off.
  datatype Pll = Pll(mixDiv: nat, divNum: nat, reg14: nat, reg15: nat, reg16: nat, integer: bool)

  function Nint(pll: Pll): nat { 13 + 4 * (pll.reg14 % 64) + pll.reg14 / 64 }

  function Sdm(pll: Pll): nat { 256 * pll.reg16 + pll.reg15 }

  // 65536 times the VCO frequency in Hz that the registers stand for.
  function Vco65536(pll: Pll, xtal: nat): nat {
    2 * xtal * (65536 * Nint(pll) + Sdm(pll))
  }

  // The VCO is less than 17 kHz below and less than 16 kHz above its target.
  predicate Close(target: nat, vco65536: nat) {
    -16_000 * 65536 < 65536 * target - vco65536 < 17_000 * 65536
  }

  lemma ErrorBound(xtal: nat, p: nat, vco: nat, nint: nat, whole: nat, sdm: nat, rest: nat)
    requires p == (xtal + 500) / 1000 && whole == 2 * xtal * nint && whole <= vco < whole + 2 * xtal
    requires sdm <= 0xffff && rest <= 15
    requires Tracks(p, (vco - whole) / 1000, rest, 0, sdm, 15)
    ensures Close(vco, 2 * xtal * (65536 * nint + sdm))
  {
    var d := 2 * xtal - 2000 * p;
    MultiplyBounds(-1000, d, 998, sdm);
    Distribute(2 * xtal, 65536 * nint, sdm);
    Distribute(sdm, 2000 * p, d);
    Commute(sdm, 2000, p);
    assert 2 * xtal * sdm == 2000 * p * sdm + sdm * d;
    assert 2 * xtal * (65536 * nint) == 65536 * whole;
    assert 2000 * p * (sdm - 0) == 2000 * p * sdm;
  }

  // The integer part of a tunable frequency fits its register.
  lemma NintRange(freq: nat, mixDiv: nat, xtal: nat)
    requires 16_000_000 <= xtal <= 32_767_000 && mixDiv in DIVIDERS && Fits((freq + 500) / 1000, mixDiv)
    ensures 27 <= freq * mixDiv / (2 * xtal) <= 110 && freq * mixDiv < 0x1_0000_0000
  {
    var khz := (freq + 500) / 1000;
    MultiplyBounds(1000 * khz - 500, freq, 1000 * khz + 499, mixDiv);
    assert mixDiv * (1000 * khz) == 1000 * (khz * mixDiv) && mixDiv * freq == freq * mixDiv;
    Distribute(mixDiv, 1000 * khz, -500);
    Distribute(mixDiv, 1000 * khz, 499);
    MultiplyBounds(16_000_000, xtal, 32_767_000, 2 * 27);
    MultiplyBounds(16_000_000, xtal, 32_767_000, 2 * 111);
    DivBounds(freq * mixDiv, 2 * xtal, 27, 111);
  }

  function Remainder(v: nat, m: nat): nat
    requires m > 0
  {
    v % m
  }

  // nint in 8 bits, and the rest in kHz in 32 bits: neither wraps.
  method IntegerPart(vcoFreq: nat, xtal: nat) returns (nint: nat, vcoFra: nat)
    requires xtal > 0 && vcoFreq < 0x1_0000_0000 && vcoFreq / (2 * xtal) < 256
    ensures nint == vcoFreq / (2 * xtal) && 2 * xtal * nint <= vcoFreq < 2 * xtal * nint + 2 * xtal
    ensures vcoFra == (vcoFreq - 2 * xtal * nint) / 1000
    ensures vcoFra == 0 <==> Remainder(vcoFreq, 2 * xtal) < 1000
  {
    Quotient(vcoFreq, 2 * xtal);
    nint := vcoFreq / (2 * xtal);
    Unchanged(nint, 256);
    nint := nint % 256;
    var whole := 2 * xtal * nint;
    Unchanged(whole, 0x1_0000_0000);
    vcoFra := (vcoFreq - whole % 0x1_0000_0000) / 1000;
  }

  lemma Unchanged(v: nat, m: nat)
    requires v < m
    ensures v % m == v
  {
  }

  // Registers 0x14, 0x15 and 0x16 hold nint and sdm.
  method Encode(mixDiv: nat, divNum: nat, nint: nat, sdm: nat, integer: bool) returns (pll: Pll)
    requires 13 <= nint <= 268 && sdm <= 0xffff
    ensures pll.mixDiv == mixDiv && pll.divNum == divNum && pll.integer == integer && Nint(pll) == nint
            && Sdm(pll) == sdm
    ensures 13 + 4 * (pll.reg14 % 64) + pll.reg14 / 64 == nint && 256 * pll.reg16 + pll.reg15 == sdm
    ensures pll.reg14 < 256 && pll.reg15 < 256 && pll.reg16 < 256
  {
    var ni := (nint - 13) / 4;
    var si := nint - 4 * ni - 13;
    pll := Pll(mixDiv, divNum, ni + si * 64, sdm % 256, sdm / 256, integer);
  }

  // r82xx_set_pll up to the register values.  None: no valid PLL values.
  method SetPll(freq: nat, xtal: nat, vcoPowerRef: nat) returns (r: Option<Pll>)
    requires 16_000_000 <= xtal <= 32_767_000 && vcoPowerRef in {1, 2}
    requires 27657 <= (freq + 500) / 1000 <= 1769999
    ensures r.None? <==> NintOf(freq, xtal) > 128 / vcoPowerRef - 1
    ensures r.Some? ==>
              && r.value.mixDiv in DIVIDERS && Fits((freq + 500) / 1000, r.value.mixDiv)
              && Exp2(r.value.divNum + 1) == r.value.mixDiv && (r.value.integer ==> Sdm(r.value) == 0)
              && r.value.reg14 < 256 && r.value.reg15 < 256 && r.value.reg16 < 256
              && Close(freq * r.value.mixDiv, Vco65536(r.value, xtal))
              && (r.value.integer <==> Remainder(freq * r.value.mixDiv, 2 * xtal) < 1000)
  {
    hide Close, Tracks, Exp2, Share, Weight, Remainder;
    var freqKhz, pllRefKhz := (freq + 500) / 1000, (xtal + 500) / 1000;
    OneDividerFits(freqKhz);
    var mixDiv, divNum := ChooseDivider(freqKhz);
    NintRange(freq, mixDiv, xtal);
    var vcoFreq := freq * mixDiv;
    var nint, vcoFra := IntegerPart(vcoFreq, xtal);
    DividerIs(freqKhz, mixDiv);
    if nint > 128 / vcoPowerRef - 1 { return None; }
    FirstShare(xtal, vcoFreq - 2 * xtal * nint);
    SdmError(vcoFra, pllRefKhz, 1, 0);
    var sdm, rounds := SdmCalculator(vcoFra, pllRefKhz);
    ErrorBound(xtal, pllRefKhz, vcoFreq, nint, 2 * xtal * nint, sdm.value.0, sdm.value.1);
    OneRound(vcoFra, pllRefKhz, 1, 0);
    var pll := Encode(mixDiv, divNum, nint, sdm.value.0, vcoFra == 0);
    r := Some(pll);
  }

  // The divider that fits, 128 if none does.
  function Divider(freqKhz: nat): nat {
    if Fits(freqKhz, 2) then 2 else if Fits(freqKhz, 4) then 4 else if Fits(freqKhz, 8) then 8
    else if Fits(freqKhz, 16) then 16 else if Fits(freqKhz, 32) then 32 else if Fits(freqKhz, 64) then 64 else 128
  }

  lemma DividerIs(freqKhz: nat, m: nat)
    requires m in DIVIDERS && Fits(freqKhz, m)
    ensures Divider(freqKhz) == m
  {
  }

  // The integer part of the VCO frequency over twice the crystal's.
  function NintOf(freq: nat, xtal: nat): int
    requires xtal > 0
  {
    var m := Divider((freq + 500) / 1000);
    freq * m / (2 * xtal)
  }

  lemma FirstShare(xtal: nat, remainder: nat)
    requires remainder < 2 * xtal
    ensures var p := (xtal + 500) / 1000; Share(p, 1) == p && Weight(1) == 32768 && remainder / 1000 <= 2 * p
  {
    assert Exp2(1) == 2;
  }

  /* The division by zero, at frequencies. */

  predicate Tunable(freq: nat) { 27657 <= (freq + 500) / 1000 <= 1769999 }

  // r82xx_set_pll gets past its check of nint and divides by a wrapped n_sdm.
  predicate DividesByZero(freq: nat, xtal: nat)
    requires xtal > 0
  {
    var target, nint := freq * Divider((freq + 500) / 1000), NintOf(freq, xtal);
    && nint <= 63
    && 2 * xtal * nint <= target
    && SdmFrom((target - 2 * xtal * nint) / 1000, (xtal + 500) / 1000, 1, 0).None?
  }

  // A frequency two kHz above a multiple of the crystal's.
  lemma TwoAbove(xtal: nat, q: nat)
    requires 32_767_500 <= xtal <= 884_000_000 && q == 1_770_000_000 / (2 * xtal) + 1
    ensures Tunable(xtal * q + 1000) && DividesByZero(xtal * q + 1000, xtal)
  {
    hide SdmFrom;
    var freq, whole := xtal * q + 1000, 2 * xtal * q;
    Quotient(1_770_000_000, 2 * xtal);
    Distribute(2 * xtal, q - 1, 1);
    assert whole == 2 * (xtal * q) && 1_770_000_000 < whole <= 1_770_000_000 + 2 * xtal;
    DividerIs((freq + 500) / 1000, 2);
    QuotientIs(2 * freq, 2 * xtal, q);
    QuotientDecreases(1_770_000_000, 32_767_500 * 2, 2 * xtal);
    TwoNeverShrinks((xtal + 500) / 1000, 1);
  }

  lemma NeverBelow(freq: nat, xtal: nat)
    requires 0 < xtal && (xtal + 500) / 1000 <= 32767
    ensures !DividesByZero(freq, xtal)
  {
    hide SdmFrom;
    var target := freq * Divider((freq + 500) / 1000);
    Quotient(target, 2 * xtal);
    var rest := target - 2 * xtal * NintOf(freq, xtal);
    FirstShare(xtal, rest);
    SdmError(rest / 1000, (xtal + 500) / 1000, 1, 0);
  }

  // Some tunable frequency leads to the division by zero exactly when the crystal
  // rounds to 32768 kHz or more; up to 884 MHz there is a multiple of every crystal
  // in the range of the VCO.
  lemma DividesByZeroAtSomeFrequency(xtal: nat)
    requires 16_000_000 <= xtal <= 884_000_000
    ensures (exists freq :: freq >= 0 && Tunable(freq) && DividesByZero(freq, xtal)) <==> (xtal + 500) / 1000 >= 32768
  {
    hide DividesByZero, Tunable;
    if (xtal + 500) / 1000 >= 32768 {
      TwoAbove(xtal, 1_770_000_000 / (2 * xtal) + 1);
    } else {
      forall freq | freq >= 0 && Tunable(freq) ensures !DividesByZero(freq, xtal) { NeverBelow(freq, xtal); }
    }
  }

  lemma DividesByZeroAt917505kHz()
    ensures Tunable(917_505_000) && DividesByZero(917_505_000, 32_768_000)
  {
    TwoAbove(32_768_000, 28);
  }
}

/**
  r82xx_set_pll as a whole: the parameters computed and written, and the frequency
  that the chip's registers then stand for.
 */
module R82xxTuning {
  import opened R82xxRegisters
  import opened R82xxPll

  // A number as a register value, and back, bit by bit.
  function Byte(v: nat): bv8
    requires v < 256
  {
    var (v1, v2, v3) := (v / 2, v / 2 / 2, v / 2 / 2 / 2);
    var (v4, v5, v6) := (v3 / 2, v3 / 2 / 2, v3 / 2 / 2 / 2);
    Bits(v % 2, v1 % 2, v2 % 2, v3 % 2, v4 % 2, v5 % 2, v6 % 2, v6 / 2)
  }

  function Bits(b0: nat, b1: nat, b2: nat, b3: nat, b4: nat, b5: nat, b6: nat, b7: nat): bv8 {
    Bit(b0, 0x01) | Bit(b1, 0x02) | Bit(b2, 0x04) | Bit(b3, 0x08)
    | Bit(b4, 0x10) | Bit(b5, 0x20) | Bit(b6, 0x40) | Bit(b7, 0x80)
  }

  function Bit(digit: nat, b: bv8): bv8 { if digit == 1 then b else 0 }

  function Value(b: bv8): (v: nat)
    ensures v < 256
  {
    Weight(b, 0x01, 1) + Weight(b, 0x02, 2) + Weight(b, 0x04, 4) + Weight(b, 0x08, 8)
    + Weight(b, 0x10, 16) + Weight(b, 0x20, 32) + Weight(b, 0x40, 64) + Weight(b, 0x80, 128)
  }

  function Weight(b: bv8, bit: bv8, weight: nat): nat { if b & bit != 0 then weight else 0 }

  lemma ValueOfBits(b0: nat, b1: nat, b2: nat, b3: nat, b4: nat, b5: nat, b6: nat, b7: nat)
    requires b0 < 2 && b1 < 2 && b2 < 2 && b3 < 2 && b4 < 2 && b5 < 2 && b6 < 2 && b7 < 2
    ensures Value(Bits(b0, b1, b2, b3, b4, b5, b6, b7))
         == b0 + 2 * b1 + 4 * b2 + 8 * b3 + 16 * b4 + 32 * b5 + 64 * b6 + 128 * b7
  {
  }

  lemma ByteRoundTrip(v: nat)
    requires v < 256
    ensures Value(Byte(v)) == v
  {
    hide Value, Bits;
    var (v1, v2, v3) := (v / 2, v / 2 / 2, v / 2 / 2 / 2);
    var (v4, v5, v6) := (v3 / 2, v3 / 2 / 2, v3 / 2 / 2 / 2);
    ValueOfBits(v % 2, v1 % 2, v2 % 2, v3 % 2, v4 % 2, v5 % 2, v6 % 2, v6 / 2);
  }

  // div_num in the upper three bits of its register.
  function DividerBits(divNum: nat): bv8
    requires divNum < 8
  {
    Byte(divNum) << 5
  }

  lemma DividerRoundTrip(divNum: nat, other: bv8)
    requires divNum < 8
    ensures Value(Masked(other, DividerBits(divNum), 0xe0) >> 5) == divNum
  {
    hide Value, Byte;
    ByteRoundTrip(divNum);
    SmallByte(divNum);
    UpperBits(Byte(divNum), other);
  }

  lemma SmallByte(v: nat)
    requires v < 8
    ensures Byte(v) & 0xf8 == 0
  {
    assert v / 2 / 2 / 2 == 0;
  }

  lemma UpperBits(b: bv8, other: bv8)
    requires b & 0xf8 == 0
    ensures Masked(other, b << 5, 0xe0) >> 5 == b
  {
  }

  // The parameters as the chip has them.
  function OnChip(chip: Registers): Pll {
    var divNum := Value(chip[0x10] >> 5);
    Pll(Exp2(divNum + 1), divNum, Value(chip[0x14]), Value(chip[0x15]), Value(chip[0x16]), chip[0x12] & 0x08 == 0x08)
  }

  // The chip after the writes of r82xx_set_pll that carry parameters.
  function WithDivider(chip: Registers, divNum: nat): Registers
    requires divNum < 8
  {
    WithMasked(chip, 0x10, DividerBits(divNum), 0xe0)
  }

  function WithPll(chip: Registers, pll: Pll): Registers
    requires pll.reg14 < 256 && pll.reg15 < 256 && pll.reg16 < 256
  {
    var nint := Overwrite(chip, 0x14, [Byte(pll.reg14)]);
    var power := WithMasked(nint, 0x12, if pll.integer then 0x08 else 0x00, 0x08);
    Overwrite(Overwrite(power, 0x16, [Byte(pll.reg16)]), 0x15, [Byte(pll.reg15)])
  }

  lemma PllOnChip(chip: Registers, pll: Pll)
    requires pll.divNum < 8 && pll.mixDiv == Exp2(pll.divNum + 1)
    requires pll.reg14 < 256 && pll.reg15 < 256 && pll.reg16 < 256
    ensures OnChip(WithPll(WithDivider(chip, pll.divNum), pll)) == pll
  {
    hide Exp2, Byte, DividerBits, Masked;
    ByteRoundTrip(pll.reg14);
    ByteRoundTrip(pll.reg15);
    ByteRoundTrip(pll.reg16);
    DividerRoundTrip(pll.divNum, chip[0x10]);
  }

  method WritePll(tuner: Tuner, pll: Pll) returns (rc: int)
    requires tuner.Valid() && tuner.MessagesFit()
    requires pll.reg14 < 256 && pll.reg15 < 256 && pll.reg16 < 256
    modifies tuner`chip, tuner`messages, tuner`faults, tuner.regs
    ensures tuner.Valid() && tuner.MessagesFit() && rc <= 0
    ensures rc == 0 && old(tuner.Agrees()) ==> tuner.Agrees() && tuner.chip == WithPll(old(tuner.chip), pll)
    ensures old(tuner.faults) == [] ==> rc == 0 && tuner.faults == []
  {
    hide Overwrite, WithMasked, Agree;
    rc := tuner.Write(0x14, [Byte(pll.reg14)]);
    if rc < 0 { return; }
    rc := tuner.WriteRegMask(0x12, if pll.integer then 0x08 else 0x00, 0x08);
    if rc < 0 { return; }
    rc := tuner.Write(0x16, [Byte(pll.reg16)]);
    if rc < 0 { return; }
    rc := tuner.Write(0x15, [Byte(pll.reg15)]);
  }

  // The writes made whatever the frequency: reference divider, autotune, VCO current.
  method Prepare(tuner: Tuner) returns (rc: int)
    requires tuner.Valid() && tuner.MessagesFit()
    modifies tuner`chip, tuner`messages, tuner`faults, tuner.regs
    ensures tuner.Valid() && tuner.MessagesFit() && rc <= 0
    ensures rc == 0 && old(tuner.Agrees()) ==> tuner.Agrees() && tuner.chip == Prepared(old(tuner.chip))
    ensures old(tuner.faults) == [] ==> rc == 0 && tuner.faults == []
  {
    hide WithMasked, Agree;
    rc := tuner.WriteRegMask(0x10, 0x00, 0x10);
    if rc < 0 { return; }
    rc := tuner.WriteRegMask(0x1a, 0x00, 0x0c);
    if rc < 0 { return; }
    rc := tuner.WriteRegMask(0x12, 0x80, 0xe0);
  }

  function Prepared(chip: Registers): Registers {
    WithMasked(WithMasked(WithMasked(chip, 0x10, 0x00, 0x10), 0x1a, 0x00, 0x0c), 0x12, 0x80, 0xe0)
  }

  // Reference divider off, autotune at 128 kHz, VCO current 100; the parameters have
  // four more fields, and nothing else changes.
  predicate OthersKept(before: Registers, now: Registers) {
    && now[0x10] & 0x1f == before[0x10] & 0x0f
    && now[0x1a] == before[0x1a] & 0xf3
    && now[0x12] & 0xf7 == (before[0x12] & 0x17) | 0x80
    && forall r :: 0 <= r < 256 && r !in {0x10, 0x12, 0x14, 0x15, 0x16, 0x1a} ==> now[r] == before[r]
  }

  lemma TuneKeeps(chip: Registers, divNum: nat, pll: Pll)
    requires divNum < 8 && pll.reg14 < 256 && pll.reg15 < 256 && pll.reg16 < 256
    ensures OthersKept(chip, WithPll(WithDivider(Prepared(chip), divNum), pll))
  {
    hide WithMasked, WithPll, WithDivider, Prepared, Byte, DividerBits, Masked;
    var now := WithPll(WithDivider(Prepared(chip), divNum), pll);
    forall r | 0 <= r < 256 && r !in {0x10, 0x12, 0x14, 0x15, 0x16, 0x1a} ensures now[r] == chip[r] {
      Tuned(chip, divNum, pll, r);
    }
    Tuned(chip, divNum, pll, 0x10);
    Tuned(chip, divNum, pll, 0x12);
    Tuned(chip, divNum, pll, 0x1a);
    DividerKept(chip[0x10], DividerBits(divNum));
    AutotuneKept(chip[0x1a]);
    CurrentKept(chip[0x12], if pll.integer then 0x08 else 0x00);
  }

  // A register behind all the writes, other than those written whole.
  predicate TunedRegister(chip: Registers, divNum: nat, pll: Pll, r: nat)
    requires divNum < 8 && pll.reg14 < 256 && pll.reg15 < 256 && pll.reg16 < 256 && r < 256
  {
    WithPll(WithDivider(Prepared(chip), divNum), pll)[r] ==
    if r == 0x10 then Masked(Masked(chip[r], 0x00, 0x10), DividerBits(divNum), 0xe0)
    else if r == 0x1a then Masked(chip[r], 0x00, 0x0c)
    else if r == 0x12 then Masked(Masked(chip[r], 0x80, 0xe0), if pll.integer then 0x08 else 0x00, 0x08)
    else chip[r]
  }

  lemma Tuned(chip: Registers, divNum: nat, pll: Pll, r: nat)
    requires divNum < 8 && pll.reg14 < 256 && pll.reg15 < 256 && pll.reg16 < 256 && r < 256
    requires r !in {0x14, 0x15, 0x16}
    ensures TunedRegister(chip, divNum, pll, r)
  {
    hide Byte, DividerBits, Masked;
  }

  lemma DividerKept(x: bv8, bits: bv8)
    ensures Masked(Masked(x, 0x00, 0x10), bits, 0xe0) & 0x1f == x & 0x0f
  {
  }

  lemma AutotuneKept(x: bv8)
    ensures Masked(x, 0x00, 0x0c) == x & 0xf3
  {
  }

  lemma CurrentKept(x: bv8, integer: bv8)
    ensures Masked(Masked(x, 0x80, 0xe0), integer, 0x08) & 0xf7 == (x & 0x17) | 0x80
  {
  }

  // The adjustment of div_num by what the chip reports of its VCO, in 8 bits.
  function Adjusted(divNum: nat, vcoFineTune: nat, vcoPowerRef: nat): nat {
    if vcoFineTune > vcoPowerRef then (divNum + 255) % 256
    else if vcoFineTune < vcoPowerRef then (divNum + 1) % 256
    else divNum
  }

  // The number of the divider, one less or more modulo 8 as the chip reports.
  function ExpectedDivNum(freqKhz: nat, vcoPowerRef: nat, vcoFineTune: nat): nat {
    var n := if freqKhz >= 885000 then 0 else if freqKhz >= 442500 then 1 else if freqKhz >= 221250 then 2
             else if freqKhz >= 110625 then 3 else if freqKhz >= 55313 then 4 else 5;
    if vcoFineTune == vcoPowerRef then n else if vcoFineTune < vcoPowerRef then n + 1 else (n + 7) % 8
  }

  // From the frequency asked for to the one the chip is set to.
  method Tune(tuner: Tuner, freq: nat, xtal: nat, vcoPowerRef: nat, vcoFineTune: nat) returns (rc: int)
    requires tuner.Valid() && tuner.MessagesFit()
    requires 16_000_000 <= xtal <= 32_767_000 && vcoPowerRef in {1, 2} && vcoFineTune < 4
    requires 27657 <= (freq + 500) / 1000 <= 1769999
    modifies tuner`chip, tuner`messages, tuner`faults, tuner.regs
    ensures tuner.Valid() && tuner.MessagesFit() && rc <= 0
    ensures NintOf(freq, xtal) > 128 / vcoPowerRef - 1 ==> rc < 0
    ensures rc == 0 && old(tuner.Agrees()) ==>
              && tuner.Agrees()
              && Close(freq * Divider((freq + 500) / 1000), Vco65536(OnChip(tuner.chip), xtal))
              && (vcoFineTune == vcoPowerRef ==> OnChip(tuner.chip).mixDiv == Divider((freq + 500) / 1000))
              && OnChip(tuner.chip).divNum == ExpectedDivNum((freq + 500) / 1000, vcoPowerRef, vcoFineTune)
              && (OnChip(tuner.chip).integer <==> Remainder(freq * Divider((freq + 500) / 1000), 2 * xtal) < 1000)
              && OthersKept(old(tuner.chip), tuner.chip)
    ensures old(tuner.faults) == [] && NintOf(freq, xtal) <= 128 / vcoPowerRef - 1 ==> rc == 0
  {
    hide Close, Exp2, Divider, NintOf, OnChip, WithMasked, WithPll, Agree, DIVIDERS, OthersKept, Prepared,
        ExpectedDivNum, DividerBits, Remainder, Fits;
    rc := Prepare(tuner);
    if rc < 0 { return; }
    var pll := SetPll(freq, xtal, vcoPowerRef);
    var mixDiv, divNum := Divided(freq);
    var adjusted := Adjusted(divNum, vcoFineTune, vcoPowerRef) % 8;
    ghost var before := tuner.chip;
    AdjustedNumber(freq, divNum, vcoPowerRef, vcoFineTune);
    rc := tuner.WriteRegMask(0x10, DividerBits(adjusted), 0xe0);
    if rc < 0 { return; }
    if pll.None? { return -1; }
    rc := WritePll(tuner, pll.value);
    PllIs(before, freq, pll.value, adjusted);
    TuneKeeps(old(tuner.chip), adjusted, pll.value);
  }

  // The divider of a tunable frequency and its number.
  method Divided(freq: nat) returns (mixDiv: nat, divNum: nat)
    requires 27657 <= (freq + 500) / 1000 <= 1769999
    ensures divNum < 8 && mixDiv == Divider((freq + 500) / 1000) == Exp2(divNum + 1)
  {
    hide Exp2;
    OneDividerFits((freq + 500) / 1000);
    mixDiv, divNum := ChooseDivider((freq + 500) / 1000);
    DividerIs((freq + 500) / 1000, mixDiv);
    DivNumRange(divNum, mixDiv);
  }

  lemma AdjustedNumber(freq: nat, divNum: nat, vcoPowerRef: nat, vcoFineTune: nat)
    requires 27657 <= (freq + 500) / 1000 <= 1769999
    requires divNum < 8 && Divider((freq + 500) / 1000) == Exp2(divNum + 1)
    ensures Adjusted(divNum, vcoFineTune, vcoPowerRef) % 8
            == ExpectedDivNum((freq + 500) / 1000, vcoPowerRef, vcoFineTune)
  {
    var khz := (freq + 500) / 1000;
    var n := ExpectedDivNum(khz, 0, 0);
    assert Divider(khz) == if n == 0 then 2 else if n == 1 then 4 else if n == 2 then 8 else if n == 3 then 16
                           else if n == 4 then 32 else 64;
    assert Exp2(3) == 8 && Exp2(6) == 64;
    assert divNum == n;
  }

  lemma PllIs(chip: Registers, freq: nat, pll: Pll, adjusted: nat)
    requires pll.mixDiv in DIVIDERS && Fits((freq + 500) / 1000, pll.mixDiv) && Exp2(pll.divNum + 1) == pll.mixDiv
    requires adjusted < 8 && pll.reg14 < 256 && pll.reg15 < 256 && pll.reg16 < 256
    ensures pll.mixDiv == Divider((freq + 500) / 1000)
    ensures OnChip(WithPll(WithDivider(chip, adjusted), pll)) ==
            pll.(divNum := adjusted, mixDiv := Exp2(adjusted + 1))
  {
    hide Exp2, OnChip, WithDivider;
    DividerIs((freq + 500) / 1000, pll.mixDiv);
    PllOnChip(chip, pll.(divNum := adjusted, mixDiv := Exp2(adjusted + 1)));
  }

  lemma DivNumRange(divNum: nat, mixDiv: nat)
    requires mixDiv in DIVIDERS && Exp2(divNum + 1) == mixDiv
    ensures divNum < 8
  {
    if divNum >= 8 { Exp2Grows(divNum + 1); }
  }

  lemma {:induction false} Exp2Grows(n: nat)
    requires n >= 9
    ensures Exp2(n) >= 512
  {
    if n > 9 { Exp2Grows(n - 1); } else { assert Exp2(6) == 64; }
  }
}

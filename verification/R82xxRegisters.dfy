/**
  The registers of the R820T/R828D tuner: the driver's shadow copy, the writes cut
  into short I2C messages and the input switch of tuner_r82xx.c.  A message sets
  consecutive chip registers; one that fails sets none.
 */
module R82xxRegisters {
  const REG_SHADOW_START := 5
  const NUM_REGS := 30

  // r82xx_init_array: 27 values given, the rest 0.
  const INIT_ARRAY: seq<bv8> := [
    0x83, 0x32, 0x75, 0xc0, 0x40, 0xd6, 0x6c, 0xf5, 0x63, 0x75, 0x68, 0x6c, 0x83, 0x80, 0x00,
    0x0f, 0x00, 0xc0, 0x30, 0x48, 0xcc, 0x60, 0x00, 0x54, 0xae, 0x4a, 0xc0, 0x00, 0x00, 0x00]

  type Registers = s: seq<bv8> | |s| == 256 witness seq(256, i => 0)

  function Overwrite(s: seq<bv8>, at: nat, val: seq<bv8>): (t: seq<bv8>)
    requires at + |val| <= |s|
    ensures |t| == |s|
    ensures forall i :: 0 <= i < |s| ==> t[i] == if at <= i < at + |val| then val[i - at] else s[i]
  {
    s[..at] + val + s[at + |val|..]
  }

  // shadow_store.  A write that begins below the shadow is stored from its first
  // value on all the same.
  function ShadowStored(regs: seq<bv8>, reg: nat, val: seq<bv8>): (t: seq<bv8>)
    requires |regs| == NUM_REGS && reg <= REG_SHADOW_START + NUM_REGS
    ensures |t| == NUM_REGS
  {
    var r := if reg < REG_SHADOW_START then 0 else reg - REG_SHADOW_START;
    var len := if reg < REG_SHADOW_START then |val| + reg - REG_SHADOW_START else |val|;
    if len <= 0 then regs
    else Overwrite(regs, r, val[..if len > NUM_REGS - r then NUM_REGS - r else len])
  }

  ghost predicate Agree(regs: seq<bv8>, chip: Registers)
    requires |regs| == NUM_REGS
  {
    forall i :: 0 <= i < NUM_REGS ==> regs[i] == chip[REG_SHADOW_START + i]
  }

  // A write keeps the shadow in agreement whatever is written, if and only if it
  // does not cross into the shadow from below.
  lemma ShadowKept(reg: nat, len: nat)
    requires reg <= REG_SHADOW_START + NUM_REGS && reg + len <= 256
    ensures (forall regs: seq<bv8>, chip: Registers, val: seq<bv8> ::
               |regs| == NUM_REGS && |val| == len && Agree(regs, chip) ==>
               Agree(ShadowStored(regs, reg, val), Overwrite(chip, reg, val)))
            <==> reg >= REG_SHADOW_START || reg + len <= REG_SHADOW_START
  {
    hide ShadowStored, Overwrite, Agree;
    if reg >= REG_SHADOW_START || reg + len <= REG_SHADOW_START {
      forall regs: seq<bv8>, chip: Registers, val: seq<bv8> | |regs| == NUM_REGS && |val| == len && Agree(regs, chip)
        ensures Agree(ShadowStored(regs, reg, val), Overwrite(chip, reg, val))
      {
        ShadowKeptHere(regs, chip, reg, val);
      }
    } else {
      var regs, chip, val := Misaligned(reg, len);
    }
  }

  // Values for a write that crosses into the shadow from below.
  lemma Misaligned(reg: nat, len: nat) returns (regs: seq<bv8>, chip: Registers, val: seq<bv8>)
    requires reg < REG_SHADOW_START < reg + len <= 256
    ensures |regs| == NUM_REGS && |val| == len && Agree(regs, chip)
    ensures !Agree(ShadowStored(regs, reg, val), Overwrite(chip, reg, val))
  {
    regs, chip := seq(NUM_REGS, i => 0), seq(256, i => 0);
    val := seq(len, i => if i == 0 then 1 else 0);
    assert ShadowStored(regs, reg, val)[0] == 1 && Overwrite(chip, reg, val)[REG_SHADOW_START] == 0;
  }

  // Bit by bit: where mask is set from val, elsewhere from old.
  function Masked(old_: bv8, val: bv8, mask: bv8): (r: bv8)
    ensures r & mask == val & mask && r & !mask == old_ & !mask
  {
    (old_ & !mask) | (val & mask)
  }

  // The first n values arrived and the next message failed.
  predicate Partly(chip: Registers, reg: nat, val: seq<bv8>, n: nat, now: Registers)
    requires reg + |val| <= 256
  {
    (n < |val| || (n == 0 && val == [])) && now == Overwrite(chip, reg, val[..n])
  }

  // A message on the bus: the first register and the values for it and the next ones.
  datatype Message = Message(reg: nat, val: seq<bv8>)

  class Tuner {
    var regs: array<bv8>        // the shadow of registers 0x05 up
    var chip: Registers         // the tuner's own registers
    var maxI2cMsgLen: nat
    var input: nat
    var messages: seq<Message>  // what went over the bus
    var faults: seq<int>        // what the bus answers to the next messages; then all succeed

    ghost predicate Valid()
      reads this
    {
      regs.Length == NUM_REGS && 2 <= maxI2cMsgLen
    }

    ghost predicate Agrees()
      requires Valid()
      reads this, regs
    {
      Agree(regs[..], chip)
    }

    ghost predicate MessagesFit()
      reads this
    {
      forall m :: m in messages ==> |m.val| + 1 <= maxI2cMsgLen
    }

    constructor (maxI2cMsgLen: nat, chip: Registers)
      requires maxI2cMsgLen >= 2
      ensures Valid() && MessagesFit() && this.chip == chip && fresh(regs)
    {
      regs := new bv8[NUM_REGS];
      this.maxI2cMsgLen, this.chip := maxI2cMsgLen, chip;
      input, messages, faults := 0, [], [];
    }

    // rtlsdr_i2c_write_fn
    method I2cWrite(message: Message) returns (rc: int)
      requires Valid() && message.reg + |message.val| <= 256
      modifies this`chip, this`messages, this`faults
      ensures messages == old(messages) + [message]
      ensures chip == if rc == |message.val| + 1 then Overwrite(old(chip), message.reg, message.val) else old(chip)
      ensures old(faults) == [] ==> rc == |message.val| + 1 && faults == []
    {
      messages := messages + [message];
      if faults == [] {
        rc := |message.val| + 1;
      } else {
        rc := faults[0];
        faults := faults[1..];
      }
      if rc == |message.val| + 1 { chip := Overwrite(chip, message.reg, message.val); }
    }

    method ShadowStore(reg: nat, val: seq<bv8>)
      requires Valid() && reg <= REG_SHADOW_START + NUM_REGS
      modifies regs
      ensures regs[..] == ShadowStored(old(regs[..]), reg, val)
    {
      var r, len: int := reg - REG_SHADOW_START, |val|;
      if r < 0 {
        len := len + r;
        r := 0;
      }
      if len <= 0 { return; }
      if len > NUM_REGS - r { len := NUM_REGS - r; }
      forall i | 0 <= i < len { regs[r + i] := val[i]; }
    }

    // r82xx_write: the chunks add up to one whole write.
    method Write(reg: nat, val: seq<bv8>) returns (rc: int)
      requires Valid() && MessagesFit() && reg <= REG_SHADOW_START + NUM_REGS && reg + |val| <= 256
      modifies this`chip, this`messages, this`faults, regs
      ensures Valid() && MessagesFit() && rc <= 0
      ensures regs[..] == ShadowStored(old(regs[..]), reg, val)
      ensures rc == 0 ==> chip == Overwrite(old(chip), reg, val)
      ensures rc == 0 && (reg >= REG_SHADOW_START || reg + |val| <= REG_SHADOW_START) && old(Agrees()) ==> Agrees()
      ensures rc < 0 ==> exists n: nat :: Partly(old(chip), reg, val, n, chip)
      ensures old(faults) == [] ==> rc == 0 && faults == []
    {
      hide Overwrite, ShadowStored, Agree;
      ghost var before := chip;
      ShadowKeptHere(regs[..], chip, reg, val);
      ghost var stored := ShadowStored(regs[..], reg, val);
      ShadowStore(reg, val);
      var r, len, pos: nat := reg, |val|, 0;
      while true
        invariant Valid() && MessagesFit() && regs[..] == stored && pos + len == |val| && r == reg + pos
                  && (len > 0 || pos == 0)
        invariant chip == Overwrite(before, reg, val[..pos])
        invariant old(faults) == [] ==> faults == []
        decreases len, if len == 0 then 0 else 1
      {
        var size := if len > maxI2cMsgLen - 1 then maxI2cMsgLen - 1 else len;
        var code := I2cWrite(Message(r, val[pos..pos + size]));
        if code != size + 1 {
          assert Partly(before, reg, val, pos, chip);
          rc := if code < 0 then code else -1;
          return;
        }
        OverwriteMore(before, reg, val, pos, size);
        r, len, pos := r + size, len - size, pos + size;
        if len == 0 { break; }
      }
      rc := 0;
    }

    // The register part of r82xx_init.
    method Init() returns (rc: int)
      requires Valid() && MessagesFit()
      modifies this`chip, this`messages, this`faults, regs
      ensures Valid() && MessagesFit() && rc <= 0
      ensures regs[..] == INIT_ARRAY
      ensures rc == 0 ==> Agrees() && chip == Overwrite(old(chip), 0x05, INIT_ARRAY)
      ensures old(faults) == [] ==> rc == 0 && faults == []
    {
      hide Overwrite, ShadowStored, Agree;
      ghost var before, stored := chip, regs[..];
      rc := Write(0x05, INIT_ARRAY);
      AllStored(stored, INIT_ARRAY, before);
    }

    // r82xx_read_cache_reg
    method ReadCacheReg(reg: nat) returns (known: bool, val: bv8)
      requires Valid()
      ensures known <==> REG_SHADOW_START <= reg < REG_SHADOW_START + NUM_REGS
      ensures known ==> val == regs[reg - REG_SHADOW_START]
    {
      known := REG_SHADOW_START <= reg < REG_SHADOW_START + NUM_REGS;
      val := if known then regs[reg - REG_SHADOW_START] else 0;
    }

    // r82xx_write_reg_mask: exactly the masked bits of the one chip register change.
    method WriteRegMask(reg: nat, val: bv8, mask: bv8) returns (rc: int)
      requires Valid() && MessagesFit()
      modifies this`chip, this`messages, this`faults, regs
      ensures Valid() && MessagesFit() && rc <= 0
      ensures !(REG_SHADOW_START <= reg < REG_SHADOW_START + NUM_REGS) ==>
                rc == -1 && chip == old(chip) && regs[..] == old(regs[..])
      ensures rc == 0 && old(Agrees()) ==>
                Agrees() && chip == WithMasked(old(chip), reg, val, mask)
      ensures rc < 0 ==> chip == old(chip)
      ensures old(faults) == [] && REG_SHADOW_START <= reg < REG_SHADOW_START + NUM_REGS ==> rc == 0 && faults == []
    {
      var known, cached := ReadCacheReg(reg);
      if !known { return -1; }
      rc := Write(reg, [Masked(cached, val, mask)]);
    }

    // The Blog V4 part of r82xx_set_freq that selects the input; gpio is what
    // setting the GPIO answers.  While writes succeed, not writing when the band is
    // the same comes to the same as writing.  After a failure the band is remembered
    // all the same, and the next call for it writes nothing.
    method SwitchInput(freq: nat, gpio: int) returns (rc: int)
      requires Valid() && MessagesFit()
      modifies this`chip, this`messages, this`faults, this`input, regs
      ensures Valid() && MessagesFit()
      ensures input == if freq <= 28_800_000 then 1 else if freq < 250_000_000 then 2 else 3
      ensures rc >= 0 && old(Agrees() && (IsBand(input) ==> InputSet(chip, input))) ==>
                && chip[0x06] & 0x08 == (if freq <= 28_800_000 then 0x08 else 0x00)
                && chip[0x05] & 0x40 == (if 28_800_000 < freq < 250_000_000 then 0x40 else 0x00)
                && chip[0x05] & 0x20 == (if freq < 250_000_000 then 0x20 else 0x00)
      ensures rc >= 0 && old(Agrees() && (IsBand(input) ==> InputSet(chip, input))) ==>
                Agrees() && chip == Switched(old(chip), input) && InputSet(chip, input)
      ensures rc < 0 && old(Agrees()) ==> exists n: nat :: n < 3 && chip == SwitchedUpTo(old(chip), input, n)
      ensures old(input) == input ==> rc == 0 && chip == old(chip)
      ensures old(faults) == [] && gpio >= 0 ==> rc >= 0
    {
      rc := 0;
      var band := Band(freq);
      SwitchedExactly(chip, band);
      SwitchedSets(chip, band);
      ghost var before := chip;
      if band != input {
        input := band;
        var cable2In := if band == HF then 0x08 else 0x00;
        rc := WriteRegMask(0x06, cable2In, 0x08);
        assert rc < 0 ==> chip == SwitchedUpTo(before, band, 0);
        if rc < 0 { return; }
        assert old(Agrees()) ==> chip == SwitchedUpTo(before, band, 1);
        if gpio < 0 { return gpio; }
        var cable1In := if band == VHF then 0x40 else 0x00;
        rc := WriteRegMask(0x05, cable1In, 0x40);
        if rc < 0 { return; }
        assert old(Agrees()) ==> chip == SwitchedUpTo(before, band, 2);
        var airIn := if band == UHF then 0x00 else 0x20;
        rc := WriteRegMask(0x05, airIn, 0x20);
      }
    }
  }

  /* The input switch. */

  const HF := 1
  const VHF := 2
  const UHF := 3

  predicate IsBand(input: nat) { HF <= input <= UHF }

  // The band of a frequency in Hz.
  function Band(freq: nat): (b: nat)
    ensures IsBand(b)
  {
    if freq <= 28_800_000 then HF else if freq < 250_000_000 then VHF else UHF
  }

  function WithMasked(chip: Registers, reg: nat, val: bv8, mask: bv8): Registers
    requires reg < 256
  {
    Overwrite(chip, reg, [Masked(chip[reg], val, mask)])
  }

  // The first n of the three writes.
  function SwitchedUpTo(chip: Registers, band: nat, n: nat): Registers {
    if n == 0 then chip
    else
      var cable2 := WithMasked(chip, 0x06, if band == HF then 0x08 else 0x00, 0x08);
      if n == 1 then cable2
      else
        var cable1 := WithMasked(cable2, 0x05, if band == VHF then 0x40 else 0x00, 0x40);
        if n == 2 then cable1 else WithMasked(cable1, 0x05, if band == UHF then 0x00 else 0x20, 0x20)
  }

  // All three, whatever the input.
  function Switched(chip: Registers, band: nat): Registers { SwitchedUpTo(chip, band, 3) }

  predicate InputSet(chip: Registers, band: nat) {
    && chip[0x06] & 0x08 == (if band == HF then 0x08 else 0x00)
    && chip[0x05] & 0x40 == (if band == VHF then 0x40 else 0x00)
    && chip[0x05] & 0x20 == (if band == UHF then 0x00 else 0x20)
  }

  lemma SwitchedSets(chip: Registers, band: nat)
    ensures InputSet(Switched(chip, band), band)
  {
  }

  // All bits are the same but the three input bits.
  predicate SameButInput(chip: Registers, now: Registers) {
    && (forall r :: 0 <= r < 256 && r != 0x05 && r != 0x06 ==> now[r] == chip[r])
    && now[0x05] & 0x9f == chip[0x05] & 0x9f && now[0x06] & 0xf7 == chip[0x06] & 0xf7
  }

  // The writes change no other bit.
  lemma SwitchKeeps(chip: Registers, band: nat, n: nat)
    requires n <= 3
    ensures SameButInput(chip, SwitchedUpTo(chip, band, n))
  {
    hide WithMasked, SameButInput;
    var cable2, cable1 := SwitchedUpTo(chip, band, 1), SwitchedUpTo(chip, band, 2);
    MaskedKeepsInput(chip, chip, 0x06, if band == HF then 0x08 else 0x00, 0x08);
    MaskedKeepsInput(chip, cable2, 0x05, if band == VHF then 0x40 else 0x00, 0x40);
    MaskedKeepsInput(chip, cable1, 0x05, if band == UHF then 0x00 else 0x20, 0x20);
  }

  lemma MaskedKeepsInput(chip: Registers, now: Registers, reg: nat, val: bv8, mask: bv8)
    requires (reg == 0x05 && mask & 0x9f == 0) || (reg == 0x06 && mask & 0xf7 == 0)
    ensures SameButInput(chip, chip)
    ensures SameButInput(chip, now) ==> SameButInput(chip, WithMasked(now, reg, val, mask))
  {
    hide WithMasked;
    MaskedKeeps(now, reg, val, mask, if reg == 0x05 then 0x9f else 0xf7);
  }

  // A masked write leaves the other registers and the bits outside the mask alone.
  lemma MaskedKeeps(chip: Registers, reg: nat, val: bv8, mask: bv8, kept: bv8)
    requires reg < 256 && mask & kept == 0
    ensures var now := WithMasked(chip, reg, val, mask);
            (forall r :: 0 <= r < 256 && r != reg ==> now[r] == chip[r]) && now[reg] & kept == chip[reg] & kept
  {
    hide Masked;
    KeptBits(chip[reg], val, mask, kept);
  }

  lemma KeptBits(old_: bv8, val: bv8, mask: bv8, kept: bv8)
    requires mask & kept == 0
    ensures Masked(old_, val, mask) & kept == old_ & kept
  {
  }

  // Which of them are set for a frequency in Hz.
  lemma InputBits(chip: Registers, freq: nat)
    ensures InputSet(chip, Band(freq)) <==>
            && chip[0x06] & 0x08 == (if freq <= 28_800_000 then 0x08 else 0x00)
            && chip[0x05] & 0x40 == (if 28_800_000 < freq < 250_000_000 then 0x40 else 0x00)
            && chip[0x05] & 0x20 == (if freq < 250_000_000 then 0x20 else 0x00)
  {
  }

  // Skipping the writes is right exactly when the chip is set to the band.
  lemma SwitchedExactly(chip: Registers, band: nat)
    ensures Switched(chip, band) == chip <==> InputSet(chip, band)
  {
  }

  // After a switch that failed behind n writes, skipping the next one for the band is
  // wrong exactly when a bit it did not come to differs.
  lemma LaterSkipIsRight(chip: Registers, band: nat, n: nat)
    requires n < 3
    ensures InputSet(SwitchedUpTo(chip, band, n), band) <==>
            && (n == 0 ==> chip[0x06] & 0x08 == (if band == HF then 0x08 else 0x00))
            && (n <= 1 ==> chip[0x05] & 0x40 == (if band == VHF then 0x40 else 0x00))
            && chip[0x05] & 0x20 == (if band == UHF then 0x00 else 0x20)
  {
  }

  // Any other masked write leaves the input alone.
  lemma InputKept(chip: Registers, band: nat, reg: nat, val: bv8, mask: bv8)
    requires InputSet(chip, band) && reg < 256
    requires reg == 0x05 ==> mask & 0x60 == 0
    requires reg == 0x06 ==> mask & 0x08 == 0
    ensures InputSet(WithMasked(chip, reg, val, mask), band)
  {
  }

  lemma ShadowKeptHere(regs: seq<bv8>, chip: Registers, reg: nat, val: seq<bv8>)
    requires |regs| == NUM_REGS && reg <= REG_SHADOW_START + NUM_REGS && reg + |val| <= 256
    ensures (reg >= REG_SHADOW_START || reg + |val| <= REG_SHADOW_START) && Agree(regs, chip) ==>
              Agree(ShadowStored(regs, reg, val), Overwrite(chip, reg, val))
    ensures Overwrite(chip, reg, val[..0]) == chip && val[..|val|] == val
  {
  }

  lemma AllStored(regs: seq<bv8>, val: seq<bv8>, chip: Registers)
    requires |regs| == |val| == NUM_REGS
    ensures ShadowStored(regs, REG_SHADOW_START, val) == val
    ensures Agree(val, Overwrite(chip, REG_SHADOW_START, val))
  {
  }

  lemma OverwriteMore(s: Registers, at: nat, val: seq<bv8>, pos: nat, n: nat)
    requires at + |val| <= 256 && pos + n <= |val|
    ensures Overwrite(Overwrite(s, at, val[..pos]), at + pos, val[pos..pos + n]) == Overwrite(s, at, val[..pos + n])
  {
  }
}

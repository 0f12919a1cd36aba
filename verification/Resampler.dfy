/**
  rtlsdr_set_sample_rate of librtlsdr.c at the nominal crystal of 28.8 MHz.  The
  resampler's register holds bits 2 to 27 of the ratio and takes bit 28 to be a
  copy of bit 27.  Doubles are modelled as exact rationals.
 */
module Resampler {
  import opened Options
  import opened Arithmetic

  const XTAL_22 := 28_800_000 * 0x40_0000   // rtl_xtal * TWO_POW(22)

  predicate Supported(rate: nat) {
    !(rate <= 225_000 || rate > 3_200_000 || (rate > 300_000 && rate <= 900_000))
  }

  function Ratio(rate: nat): nat
    requires rate > 0
  {
    XTAL_22 / rate
  }

  // ratio & 0x0ffffffc
  function Stored(ratio: nat): nat { ratio % 0x1000_0000 / 4 * 4 }

  // stored | (stored & 0x08000000) << 1, the two having no bit in common.
  function Rebuilt(stored: nat): nat {
    stored + stored / 0x800_0000 % 2 * 0x1000_0000
  }

  predicate Lossless(rate: nat)
    requires rate > 0
  {
    Rebuilt(Stored(Ratio(rate))) == Ratio(rate) / 4 * 4
  }

  lemma RatioBetween(rate: nat, lo: nat, hi: nat)
    requires 0 < lo <= rate <= hi
    ensures Ratio(hi) <= Ratio(rate) <= Ratio(lo)
  {
    QuotientDecreases(XTAL_22, lo, rate);
    QuotientDecreases(XTAL_22, rate, hi);
  }

  // The ratios that survive: bits 29 up are clear and bit 28 is a copy of bit 27.
  lemma RebuiltExactly(ratio: nat)
    ensures Rebuilt(Stored(ratio)) == ratio / 4 * 4 <==> ratio < 0x800_0000 || 0x1800_0000 <= ratio < 0x2000_0000
  {
    var low, high := ratio % 0x1000_0000, ratio / 0x1000_0000;
    assert ratio == 0x1000_0000 * high + low;
    assert ratio / 4 * 4 == 0x1000_0000 * high + low / 4 * 4;
    var bit := low / 0x800_0000;
    assert low / 4 * 4 / 0x800_0000 == bit && bit < 2;
  }

  // Up to 3.2 MHz the encoding is lossless exactly for the supported rates.
  lemma LosslessExactly(rate: nat)
    requires 0 < rate <= 3_200_000
    ensures Lossless(rate) <==> Supported(rate)
  {
    hide Stored, Rebuilt, Ratio;
    var q := Ratio(rate);
    Landmarks();
    RebuiltExactly(q);
    if rate <= 225_000 {
      RatioBetween(rate, 1, 225_000);
      assert q >= 0x2000_0000;
    } else if rate <= 300_000 {
      RatioBetween(rate, 225_001, 300_000);
      assert 0x1800_0000 <= q < 0x2000_0000;
    } else if rate <= 900_000 {
      RatioBetween(rate, 300_001, 900_000);
      assert 0x800_0000 <= q < 0x1800_0000;
    } else {
      RatioBetween(rate, 900_001, 3_200_000);
      assert q < 0x800_0000;
    }
  }

  lemma Landmarks()
    ensures Ratio(225_000) == 0x2000_0000 && Ratio(225_001) < 0x2000_0000
    ensures Ratio(300_000) == 0x1800_0000 && Ratio(300_001) < 0x1800_0000
    ensures Ratio(900_000) == 0x800_0000 && Ratio(900_001) < 0x800_0000
  {
  }

  // The rate the device then runs at is less than 1 Hz above the one asked for.
  lemma RateKept(rate: nat)
    requires Supported(rate)
    ensures var kept := Rebuilt(Stored(Ratio(rate))); kept > 0 && XTAL_22 / kept == rate
  {
    LosslessExactly(rate);
    RatioBetween(rate, 225_001, 3_200_000);
    var q, kept := Ratio(rate), Rebuilt(Stored(Ratio(rate)));
    Quotient(XTAL_22, rate);
    assert kept <= q < kept + 4 && q >= 37_748_736;
    MultiplyBounds(kept, q, kept + 3, rate);
    Distribute(rate, kept, 3);
    QuotientIs(XTAL_22, kept, rate);
  }

  // The device's rate and the two 16-bit registers written.
  datatype Setting = Setting(rate: nat, reg9f: nat, regA1: nat)

  // None: -EINVAL.
  method SetSampleRate(sampRate: nat) returns (r: Option<Setting>)
    ensures r.Some? <==> Supported(sampRate)
    ensures r.Some? ==>
              && r.value.rate == sampRate && r.value.reg9f < 0x1_0000 && r.value.regA1 < 0x1_0000
              && Rebuilt(0x1_0000 * r.value.reg9f + r.value.regA1) == Ratio(sampRate) / 4 * 4
  {
    if sampRate <= 225_000 || sampRate > 3_200_000 || (sampRate > 300_000 && sampRate <= 900_000) {
      return None;
    }
    LosslessExactly(sampRate);
    RateKept(sampRate);
    var rsampRatio := XTAL_22 / sampRate % 0x1000_0000 / 4 * 4;
    var realRsampRatio := rsampRatio + rsampRatio / 0x800_0000 % 2 * 0x1000_0000;
    var rate := XTAL_22 / realRsampRatio;
    r := Some(Setting(rate, rsampRatio / 0x1_0000, rsampRatio % 0x1_0000));
  }
}

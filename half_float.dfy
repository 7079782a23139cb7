/**
 * The f16_to_f32 lambda of the runtime context (runtime_ctx.cpp): IEEE
 * binary16 bit patterns widened to binary32 bit patterns, with zeros,
 * subnormals, infinities and NaNs handled as the lambda's branches do.
 */
module HalfFloat {
  import opened Words

  /** The sign bit of a binary16 pattern, as a 32-bit word. */
  function HalfSign(h: bv16): bv32 { (h >> 15) as bv32 }

  /** The five-bit biased exponent field of a binary16 pattern. */
  function HalfExp(h: bv16): bv32 { ((h >> 10) & 0x1F) as bv32 }

  /** The ten-bit mantissa field of a binary16 pattern. */
  function HalfMant(h: bv16): bv32 { (h & 0x3FF) as bv32 }

  /**
   * The number of left shifts the subnormal loop makes: ten less the
   * position of the mantissa's leading one, so that it lands on bit 10, the
   * implicit bit of a normal half.
   */
  function ShiftCount(mant: bv32): (k: bv32)
    requires 0 < mant < 0x800
    ensures k <= 10 && (mant < 0x400 <==> 1 <= k)
  {
    if mant >= 0x400 then 0 else if mant >= 0x200 then 1 else if mant >= 0x100 then 2
    else if mant >= 0x80 then 3 else if mant >= 0x40 then 4 else if mant >= 0x20 then 5
    else if mant >= 0x10 then 6 else if mant >= 0x8 then 7 else if mant >= 0x4 then 8
    else if mant >= 0x2 then 9 else 10
  }

  /** The mantissa the subnormal loop ends with: its leading one is bit 10. */
  function Normalized(mant: bv32): (x: bv32)
    requires 0 < mant < 0x800
    ensures x & 0x400 != 0 && x < 0x800
  {
    if mant >= 0x400 then mant else if mant >= 0x200 then mant << 1 else if mant >= 0x100 then mant << 2
    else if mant >= 0x80 then mant << 3 else if mant >= 0x40 then mant << 4 else if mant >= 0x20 then mant << 5
    else if mant >= 0x10 then mant << 6 else if mant >= 0x8 then mant << 7 else if mant >= 0x4 then mant << 8
    else if mant >= 0x2 then mant << 9 else mant << 10
  }

  /** Normalisation is a left shift by ShiftCount. */
  lemma NormalizedShift(mant: bv32)
    requires 0 < mant < 0x800
    ensures Normalized(mant) == mant << ShiftCount(mant)
  {
  }

  /** One shift of a mantissa whose bit 10 is clear leaves its normalised form, and needs one shift fewer. */
  lemma NormalizedStep(mant: bv32)
    requires 0 < mant < 0x800 && mant & 0x400 == 0
    ensures ShiftCount(mant) == ShiftCount(mant << 1) + 1
    ensures Normalized(mant << 1) == Normalized(mant)
  {
  }

  /**
   * The binary32 pattern the f16_to_f32 lambda produces: the sign moved to
   * bit 31; a zero kept as a (signed) zero; a subnormal renormalised; the
   * all-ones exponent kept as all ones; any other exponent rebiased by
   * 127 - 15. The mantissa goes to the top of the 23-bit field.
   */
  function F16Bits(h: bv16): bv32
  {
    var sign := ((h & 0x8000) as bv32) << 16;
    var exp := ((h & 0x7C00) >> 10) as bv32;
    var mant := (h & 0x3FF) as bv32;
    if exp == 0 then
      if mant == 0 then sign
      else SubnormalBits(sign, mant)
    else if exp == 0x1F then
      sign | 0x7F80_0000 | (mant << 13)
    else
      sign | ((exp + 112) << 23) | (mant << 13)
  }

  /** A renormalised subnormal: exponent field 113 less the shifts, the leading one dropped. */
  function SubnormalBits(sign: bv32, mant: bv32): bv32
    requires 0 < mant < 0x400
  {
    sign | ((113 - ShiftCount(mant)) << 23) | ((Normalized(mant) & 0x3FF) << 13)
  }

  /** Every conversion keeps the sign of the half. */
  lemma F16Sign(h: bv16)
    ensures SignOf(F16Bits(h)) == HalfSign(h)
  {
  }

  /** A zero of either sign converts to the zero of that sign. */
  lemma F16Zero(h: bv16)
    requires HalfExp(h) == 0 && HalfMant(h) == 0
    ensures ExpOf(F16Bits(h)) == 0 && MantOf(F16Bits(h)) == 0
  {
  }

  /** A normal half has its exponent rebiased from 15 to 127 and its mantissa moved up by 13 bits. */
  lemma F16Normal(h: bv16)
    requires 0 < HalfExp(h) < 0x1F
    ensures ExpOf(F16Bits(h)) == HalfExp(h) + 112
    ensures MantOf(F16Bits(h)) == HalfMant(h) << 13
  {
  }

  /** Infinities stay infinite and NaNs stay NaNs with their payload moved up by 13 bits. */
  lemma F16Special(h: bv16)
    requires HalfExp(h) == 0x1F
    ensures ExpOf(F16Bits(h)) == 0xFF
    ensures MantOf(F16Bits(h)) == HalfMant(h) << 13
  {
  }

  /** A subnormal half takes the lambda's subnormal branch. */
  lemma F16BitsSubnormal(h: bv16)
    requires HalfExp(h) == 0 && HalfMant(h) != 0
    ensures HalfSign(h) < 2 && HalfMant(h) < 0x400
    ensures F16Bits(h) == SubnormalBits(HalfSign(h) << 31, HalfMant(h))
  {
    HalfFieldMasks(h);
  }

  /**
   * A subnormal half m * 2^-24 with sign s, where k = ShiftCount(m) is
   * between one and ten, becomes the normal binary32 value
   * 2^(E-150) * (2^23 + M) with exponent field E = 113 - k and
   * 2^23 + M = Normalized(m) * 2^13, which is m * 2^(k+13) by
   * NormalizedShift: the same number.
   */
  lemma SubnormalFields(s: bv32, mant: bv32)
    requires s < 2 && 0 < mant < 0x400
    ensures 1 <= ShiftCount(mant) <= 10
    ensures SignOf(SubnormalBits(s << 31, mant)) == s
    ensures ExpOf(SubnormalBits(s << 31, mant)) == 113 - ShiftCount(mant)
    ensures MantOf(SubnormalBits(s << 31, mant)) | 0x80_0000 == Normalized(mant) << 13
  {
    HiddenBit(Normalized(mant));
  }

  /** The fields the lambda extracts with its masks are the fields of the half. */
  lemma HalfFieldMasks(h: bv16)
    ensures ((h & 0x8000) as bv32) << 16 == HalfSign(h) << 31
    ensures ((h & 0x7C00) >> 10) as bv32 == HalfExp(h)
    ensures (h & 0x3FF) as bv32 == HalfMant(h)
    ensures HalfSign(h) < 2 && HalfExp(h) < 0x20 && HalfMant(h) < 0x400
  {
  }

  /** Dropping bit 10 of a normalised mantissa and restoring it as bit 23 are inverse. */
  lemma HiddenBit(x: bv32)
    requires x & 0x400 != 0 && x < 0x800
    ensures (x & 0x3FF) << 13 < 0x80_0000
    ensures ((x & 0x3FF) << 13) | 0x80_0000 == x << 13
  {
  }

  /**
   * The loop of the lambda's subnormal branch: shift the mantissa left,
   * lowering the exponent from 113, until bit 10 is set.
   */
  method NormalizeSubnormal(m0: bv32) returns (mant: bv32, exp: bv32)
    requires 0 < m0 < 0x400
    ensures mant == Normalized(m0) && exp == 113 - ShiftCount(m0)
  {
    mant, exp := m0, 127 - 15 + 1;
    while mant & 0x400 == 0
      invariant 0 < mant < 0x800
      invariant Normalized(mant) == Normalized(m0)
      invariant exp + ShiftCount(m0) == 113 + ShiftCount(mant)
      decreases 0x800 - mant
    {
      NormalizedStep(mant);
      mant := mant << 1;
      exp := exp - 1;
    }
  }

  /** The lambda's subnormal branch: normalise, drop the leading one, assemble. */
  method SubnormalToF32(sign: bv32, m0: bv32) returns (f: bv32)
    requires 0 < m0 < 0x400
    ensures f == SubnormalBits(sign, m0)
  {
    var mant, exp := NormalizeSubnormal(m0);
    mant := mant & 0x3FF;
    f := sign | (exp << 23) | (mant << 13);
  }

  /** The f16_to_f32 lambda. */
  method F16ToF32(h: bv16) returns (f: bv32)
    ensures f == F16Bits(h)
  {
    var sign: bv32 := ((h & 0x8000) as bv32) << 16;
    var exp: bv32 := ((h & 0x7C00) >> 10) as bv32;
    var mant: bv32 := (h & 0x03FF) as bv32;
    if exp == 0 {
      if mant == 0 {
        f := sign;
      } else {
        f := SubnormalToF32(sign, mant);
      }
    } else if exp == 0x1F {
      f := sign | 0x7F80_0000 | (mant << 13);
    } else {
      exp := exp - 15 + 127;
      f := sign | (exp << 23) | (mant << 13);
    }
  }
}

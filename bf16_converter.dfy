/**
 * bfloat16 to binary32 conversion (bf16_converter): a bf16 value is the
 * upper half of a binary32 bit pattern, so widening puts its 16 bits on top
 * and sixteen zero mantissa bits below.
 */
module Bf16Converter {
  import opened Wrappers
  import opened Bytes
  import opened ShapeMath
  import opened CoreTypes
  import opened Tensors
  import opened Words

  /**
   * bf16_to_f32: the binary32 pattern whose upper half is `h` and whose
   * lower half is zero; sign, exponent and the top seven mantissa bits are
   * those of `h`.
   */
  function Bf16ToF32(h: bv16): (f: bv32)
    ensures Bf16Of(f) == h
    ensures f & 0xFFFF == 0
    ensures SignOf(f) == (h >> 15) as bv32
    ensures ExpOf(f) == ((h >> 7) & 0xFF) as bv32
    ensures MantOf(f) == ((h & 0x7F) as bv32) << 16
  {
    (h as bv32) << 16
  }

  /** Truncation of a binary32 pattern to bfloat16: its upper sixteen bits. */
  function Bf16Of(f: bv32): bv16
  {
    (f >> 16) as bv16
  }

  /** Widening the truncation of `f` gives back `f` with its low sixteen mantissa bits cleared. */
  lemma Bf16OfWidened(f: bv32)
    ensures Bf16ToF32(Bf16Of(f)) == f & 0xFFFF_0000
  {
    assert ((((f >> 16) as bv16) as bv32) << 16) == f & 0xFFFF_0000;
  }

  datatype ConvertError = NotBf16

  /**
   * convert_bf16_to_f32: a non-BF16 view is refused; otherwise a fresh F32
   * tensor of the same shape whose element i is bf16_to_f32 of element i of
   * the view (numel elements read from its data pointer).
   */
  method ConvertBf16ToF32(x: TensorView) returns (r: Result<Tensor, ConvertError>)
    requires x.dt == BF16 ==> Allocatable(x.shape, F32)
    requires x.dt == BF16 ==> x.Defined() && x.data.off + 2 * x.Numel() <= x.data.buf.Length
    ensures r.Err? <==> x.dt != BF16
    ensures r.Ok? ==> fresh(r.value.storage)
    ensures r.Ok? ==> r.value.view == TensorView(At(r.value.storage, 0), F32, x.shape, RowMajorStrides(x.shape))
    ensures r.Ok? ==> r.value.storage[..] == Widened(BytesAt(x.data, 2 * x.Numel()), Bf16ToF32)
  {
    if x.dt != BF16 {
      return Err(NotBf16);
    }
    var t := Empty(x.shape, F32);
    WidenInto(t.storage, x.data.buf, x.data.off, x.Numel(), Bf16ToF32);
    return Ok(t);
  }

  /** Element i of the converted tensor is the widening of element i of the input. */
  lemma ConvertedElement(x: TensorView, out: seq<byte>, i: nat)
    requires x.Defined() && 0 <= x.Numel() && x.data.off + 2 * x.Numel() <= x.data.buf.Length
    requires out == Widened(BytesAt(x.data, 2 * x.Numel()), Bf16ToF32)
    requires i < x.Numel()
    ensures out[4 * i .. 4 * i + 4] == WordBytes(Bf16ToF32(HalfAt(BytesAt(x.data, 2 * x.Numel()), i)))
  {
    WidenedAt(BytesAt(x.data, 2 * x.Numel()), Bf16ToF32, i);
  }
}

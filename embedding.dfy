/**
 * The embedding lookup of the decode step (runtime_ctx.cpp): the row of a
 * token in a [vocab_size, d_model] table, copied as binary32 from an F32
 * table and widened element by element from a BF16 or F16 one.
 */
module Embedding {
  import opened Bytes
  import opened ShapeMath
  import opened CoreTypes
  import opened Tensors
  import opened Words
  import opened Bf16Converter
  import opened HalfFloat

  /** The element types the lookup widens to binary32. */
  predicate Widenable(dt: DType) { dt == F32 || dt == BF16 || dt == F16 }

  /** A bound, widenable embedding table holds vocab_size rows of d_model elements. */
  predicate TableFits(e: TensorView, vocab: int, d: int)
  {
    e.Defined() && Widenable(e.dt) ==>
      0 <= d && e.data.off + vocab * d * DTypeBytes(e.dt) <= e.data.buf.Length
  }

  /** Row t of a table of v rows of d elements of sz bytes lies inside the table. */
  lemma RowInTable(t: int, v: int, d: int, sz: nat)
    requires 0 <= t < v && 0 <= d
    ensures 0 <= t * d * sz && t * d * sz + d * sz <= v * d * sz
  {
    assert t * d * sz + d * sz == (t + 1) * (d * sz);
    assert (t + 1) * (d * sz) <= v * (d * sz);
  }

  /** The byte offset of the first element of the row of `token`. */
  function RowStart(e: TensorView, vocab: int, d: int, token: int): (start: nat)
    requires e.Defined() && Widenable(e.dt) && TableFits(e, vocab, d) && 0 <= token < vocab
    ensures start + d * DTypeBytes(e.dt) <= e.data.buf.Length
  {
    RowInTable(token, vocab, d, DTypeBytes(e.dt));
    e.data.off + token * d * DTypeBytes(e.dt)
  }

  /** The raw bytes of the row of `token`: d_model elements of the table's type. */
  function RowBytes(e: TensorView, vocab: int, d: int, token: int): (raw: seq<byte>)
    requires e.Defined() && Widenable(e.dt) && TableFits(e, vocab, d) && 0 <= token < vocab
    reads e.data.buf
    ensures |raw| == d * DTypeBytes(e.dt)
  {
    var start := RowStart(e, vocab, d, token);
    e.data.buf[..][start .. start + d * DTypeBytes(e.dt)]
  }

  /**
   * The binary32 vector the lookup produces for `token`: the row itself for
   * an F32 table, each element widened by bf16_to_f32 or f16_to_f32 for a
   * BF16 or F16 table.
   */
  function EmbeddingRow(e: TensorView, vocab: int, d: int, token: int): (row: seq<byte>)
    requires e.Defined() && Widenable(e.dt) && TableFits(e, vocab, d) && 0 <= token < vocab
    reads e.data.buf
    ensures |row| == 4 * d
  {
    var raw := RowBytes(e, vocab, d, token);
    if e.dt == F32 then raw
    else
      assert |raw| == d * 2;
      Widened(raw, HalfConv(e.dt))
  }

  /** The widening lambda of a half-precision table: bf16_to_f32 for BF16, f16_to_f32 for F16. */
  function HalfConv(dt: DType): bv16 -> bv32
    requires dt == BF16 || dt == F16
  {
    if dt == BF16 then Bf16ToF32 else F16Bits
  }

  /** Element j of the row of `token` is element token * d_model + j of the table. */
  lemma RowElement(e: TensorView, vocab: int, d: int, token: int, j: int)
    requires e.Defined() && Widenable(e.dt) && TableFits(e, vocab, d) && 0 <= token < vocab
    requires 0 <= j < d
    ensures var sz, k := DTypeBytes(e.dt), e.data.off + (token * d + j) * DTypeBytes(e.dt);
      && 0 <= k && k + sz <= e.data.buf.Length && j * sz + sz <= d * sz
      && RowBytes(e, vocab, d, token)[j * sz .. j * sz + sz] == e.data.buf[k .. k + sz]
  {
    var sz := DTypeBytes(e.dt);
    var start := RowStart(e, vocab, d, token);
    Distrib(token * d, j, sz);
    Distrib(j, 1, sz);
    MulLe(j + 1, d, sz);
    SliceOfSlice(e.data.buf[..], start, d * sz, j * sz, sz);
  }

  /** A slice of a slice is a slice of the whole. */
  lemma SliceOfSlice(a: seq<byte>, s: nat, n: nat, i: nat, m: nat)
    requires s + n <= |a| && i + m <= n
    ensures a[s .. s + n][i .. i + m] == a[s + i .. s + i + m]
  {
    var x, y := a[s .. s + n][i .. i + m], a[s + i .. s + i + m];
    assert |x| == |y|;
    forall k | 0 <= k < m
      ensures x[k] == y[k]
    {
    }
  }

  /** From an F32 table, element j of the looked-up vector is table element token * d_model + j, copied. */
  lemma EmbeddingElementF32(e: TensorView, vocab: int, d: int, token: int, j: int)
    requires e.Defined() && e.dt == F32 && TableFits(e, vocab, d) && 0 <= token < vocab
    requires 0 <= j < d
    ensures var k := e.data.off + (token * d + j) * 4;
      && 0 <= k && k + 4 <= e.data.buf.Length
      && EmbeddingRow(e, vocab, d, token)[4 * j .. 4 * j + 4] == e.data.buf[k .. k + 4]
  {
    RowElement(e, vocab, d, token, j);
  }

  /**
   * From a BF16 or F16 table, element j of the looked-up vector is the
   * table's widening lambda applied to element j of the raw row, which
   * RowElement locates at table element token * d_model + j.
   */
  lemma EmbeddingElementHalf(e: TensorView, vocab: int, d: int, token: int, j: int)
    requires e.Defined() && (e.dt == BF16 || e.dt == F16) && TableFits(e, vocab, d) && 0 <= token < vocab
    requires 0 <= j < d
    ensures 2 * j + 2 <= |RowBytes(e, vocab, d, token)|
    ensures EmbeddingRow(e, vocab, d, token)[4 * j .. 4 * j + 4] == WordBytes(HalfConv(e.dt)(HalfAt(RowBytes(e, vocab, d, token), j)))
  {
    assert DTypeBytes(e.dt) == 2;
    WidenedAt(RowBytes(e, vocab, d, token), HalfConv(e.dt), j);
  }

  /** The F16 branch's loop: element i of the row goes through f16_to_f32 into dst[4i..4i+4]. */
  method WidenF16Into(dst: array<byte>, src: array<byte>, off: nat, n: nat)
    requires dst != src && dst.Length == 4 * n && off + 2 * n <= src.Length
    modifies dst
    ensures dst[..] == Widened(src[off .. off + 2 * n], F16Bits)
  {
    ghost var input := src[off .. off + 2 * n];
    for i := 0 to n
      invariant dst[..4 * i] == Widened(input[..2 * i], F16Bits)
    {
      var h := HalfOf(src[off + 2 * i], src[off + 2 * i + 1]);
      assert h == HalfAt(input, i);
      var w := F16ToF32(h);
      ghost var before := dst[..];
      StoreWord(dst, 4 * i, w);
      assert dst[..4 * i + 4] == before[..4 * i] + WordBytes(w);
      WidenedPrefix(input, F16Bits, i);
    }
    assert dst[..] == dst[..4 * n];
    assert input[..2 * n] == input;
  }

  /** The dtype dispatch of the lookup: copy an F32 row, widen a BF16 or F16 one. */
  method FillRow(dst: array<byte>, e: TensorView, vocab: int, d: int, token: int)
    requires e.Defined() && Widenable(e.dt) && TableFits(e, vocab, d) && 0 <= token < vocab
    requires dst != e.data.buf && dst.Length == 4 * d
    modifies dst
    ensures dst[..] == EmbeddingRow(e, vocab, d, token)
  {
    var start := RowStart(e, vocab, d, token);
    ghost var raw := RowBytes(e, vocab, d, token);
    assert raw == e.data.buf[start .. start + d * DTypeBytes(e.dt)];
    if e.dt == F32 {
      Memcpy(dst, 0, e.data.buf, start, d * 4);
      assert dst[..] == raw;
    } else if e.dt == BF16 {
      WidenInto(dst, e.data.buf, start, d, Bf16ToF32);
      assert HalfConv(e.dt) == Bf16ToF32;
    } else {
      WidenF16Into(dst, e.data.buf, start, d);
      assert HalfConv(e.dt) == F16Bits;
    }
  }
}

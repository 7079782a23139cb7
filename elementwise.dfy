/**
 * apply_causal_mask (elementwise.cpp): a copy of a binary32 score tensor in
 * which every element whose flat index exceeds seq_pos is -infinity. The
 * mask works on the flattened buffer, not row by row.
 */
module Elementwise {
  import opened Bytes
  import opened ShapeMath
  import opened CoreTypes
  import opened Tensors
  import opened Words

  /** -infinity as a binary32 pattern: sign set, exponent all ones, mantissa zero. */
  const NEG_INF: bv32 := 0xFF80_0000

  /** m consecutive -infinity elements. */
  function NegWords(m: nat): (r: seq<byte>)
    ensures |r| == 4 * m
  {
    if m == 0 then [] else NegWords(m - 1) + WordBytes(NEG_INF)
  }

  /** The number of leading elements the mask keeps: those at flat index at most seq_pos. */
  function Kept(n: nat, seqPos: int): (k: nat)
    requires seqPos >= -1
    ensures k <= n
    ensures k == n <==> seqPos + 1 >= n
  {
    if seqPos + 1 < n then seqPos + 1 else n
  }

  /** The masked buffer of n elements: the kept prefix, then -infinity up to the end. */
  function Masked(x: seq<byte>, n: nat, seqPos: int): (r: seq<byte>)
    requires |x| == 4 * n && seqPos >= -1
    ensures |r| == |x|
  {
    var k := Kept(n, seqPos);
    x[..4 * k] + NegWords(n - k)
  }

  /** Every element of NegWords is -infinity. */
  lemma {:induction false} NegWordsAt(m: nat, t: nat)
    requires t < m
    ensures NegWords(m)[4 * t .. 4 * t + 4] == WordBytes(NEG_INF)
  {
    if t < m - 1 {
      NegWordsAt(m - 1, t);
      assert NegWords(m)[4 * t .. 4 * t + 4] == NegWords(m - 1)[4 * t .. 4 * t + 4];
    }
  }

  /** Element i of the output is element i of the input when i <= seq_pos, and -infinity otherwise. */
  lemma MaskedElement(x: seq<byte>, n: nat, seqPos: int, i: nat)
    requires |x| == 4 * n && seqPos >= -1 && i < n
    ensures Masked(x, n, seqPos)[4 * i .. 4 * i + 4] ==
      if i <= seqPos then x[4 * i .. 4 * i + 4] else WordBytes(NEG_INF)
  {
    if i <= seqPos {
      MaskedKeeps(x, n, seqPos, i);
    } else {
      MaskedMasks(x, n, seqPos, i);
    }
  }

  lemma MaskedKeeps(x: seq<byte>, n: nat, seqPos: int, i: nat)
    requires |x| == 4 * n && seqPos >= -1 && i < n && i <= seqPos
    ensures Masked(x, n, seqPos)[4 * i .. 4 * i + 4] == x[4 * i .. 4 * i + 4]
  {
    var k := Kept(n, seqPos);
    assert Masked(x, n, seqPos)[4 * i .. 4 * i + 4] == x[..4 * k][4 * i .. 4 * i + 4];
  }

  lemma MaskedMasks(x: seq<byte>, n: nat, seqPos: int, i: nat)
    requires |x| == 4 * n && seqPos >= -1 && seqPos < i < n
    ensures Masked(x, n, seqPos)[4 * i .. 4 * i + 4] == WordBytes(NEG_INF)
  {
    var k := Kept(n, seqPos);
    NegWordsAt(n - k, i - k);
    assert Masked(x, n, seqPos)[4 * i .. 4 * i + 4] == NegWords(n - k)[4 * (i - k) .. 4 * (i - k) + 4];
  }

  /** When seq_pos + 1 reaches the element count nothing is masked. */
  lemma MaskedNothing(x: seq<byte>, n: nat, seqPos: int)
    requires |x| == 4 * n && seqPos + 1 >= n && seqPos >= -1
    ensures Masked(x, n, seqPos) == x
  {
    assert x[..4 * n] == x;
  }

  /** A seq_pos of -1 masks every element. */
  lemma MaskedAll(x: seq<byte>, n: nat)
    requires |x| == 4 * n
    ensures Masked(x, n, -1) == NegWords(n)
  {
    if n > 0 {
      assert Kept(n, -1) == 0;
    }
  }

  /** Masking twice masks at the smaller position. */
  lemma MaskedTwice(x: seq<byte>, n: nat, p: int, q: int)
    requires |x| == 4 * n && p >= -1 && q >= -1
    ensures Masked(Masked(x, n, p), n, q) == Masked(x, n, if p <= q then p else q)
  {
    var m := if p <= q then p else q;
    var a, b := Masked(Masked(x, n, p), n, q), Masked(x, n, m);
    forall i | 0 <= i < n
      ensures a[4 * i .. 4 * i + 4] == b[4 * i .. 4 * i + 4]
    {
      MaskedElement(Masked(x, n, p), n, q, i);
      MaskedElement(x, n, p, i);
      MaskedElement(x, n, m, i);
    }
    WordsEqual(a, b, n);
  }

  /** Masking is idempotent. */
  lemma MaskedIdempotent(x: seq<byte>, n: nat, p: int)
    requires |x| == 4 * n && p >= -1
    ensures Masked(Masked(x, n, p), n, p) == Masked(x, n, p)
  {
    MaskedTwice(x, n, p, p);
  }

  /** Two buffers of n four-byte elements that agree element by element are equal. */
  lemma WordsEqual(a: seq<byte>, b: seq<byte>, n: nat)
    requires |a| == 4 * n && |b| == 4 * n
    requires forall i :: 0 <= i < n ==> a[4 * i .. 4 * i + 4] == b[4 * i .. 4 * i + 4]
    ensures a == b
  {
    forall t | 0 <= t < 4 * n
      ensures a[t] == b[t]
    {
      var i := t / 4;
      assert a[4 * i .. 4 * i + 4][t - 4 * i] == a[t];
      assert b[4 * i .. 4 * i + 4][t - 4 * i] == b[t];
    }
  }

  /**
   * apply_causal_mask on an F32 view: a fresh tensor of the same shape and
   * dtype, filled by a copy loop and then a loop writing -infinity from flat
   * index seq_pos + 1 to the end. The input buffer is only read.
   */
  method ApplyCausalMask(scores: TensorView, seqPos: int) returns (out: Tensor)
    requires scores.dt == F32 && Allocatable(scores.shape, F32)
    requires scores.Defined() && scores.data.off + 4 * scores.Numel() <= scores.data.buf.Length
    requires seqPos >= -1
    ensures fresh(out.storage)
    ensures out.view == TensorView(At(out.storage, 0), F32, scores.shape, RowMajorStrides(scores.shape))
    ensures out.storage[..] == Masked(BytesAt(scores.data, 4 * scores.Numel()), scores.Numel(), seqPos)
  {
    var n := scores.Numel();
    out := Empty(scores.shape, scores.dt);
    CopyElements(out.storage, scores.data.buf, scores.data.off, n);
    MaskTail(out.storage, n, seqPos);
  }

  /** The copy loop: element i of the input, four bytes, to element i of the output. */
  method CopyElements(dst: array<byte>, src: array<byte>, off: nat, n: nat)
    requires dst != src && dst.Length == 4 * n && off + 4 * n <= src.Length
    modifies dst
    ensures dst[..] == src[off .. off + 4 * n]
  {
    ghost var x := src[off .. off + 4 * n];
    for i := 0 to n
      invariant dst[..4 * i] == x[..4 * i]
    {
      ghost var before := dst[..];
      Memcpy(dst, 4 * i, src, off + 4 * i, 4);
      assert x[4 * i .. 4 * i + 4] == src[off + 4 * i .. off + 4 * i + 4];
      assert dst[..4 * i + 4] == before[..4 * i] + x[4 * i .. 4 * i + 4];
      assert x[..4 * i + 4] == x[..4 * i] + x[4 * i .. 4 * i + 4];
    }
    assert dst[..] == dst[..4 * n];
  }

  /** The masking loop: -infinity at every flat index from seq_pos + 1 to the end. */
  method MaskTail(dst: array<byte>, n: nat, seqPos: int)
    requires dst.Length == 4 * n && seqPos >= -1
    modifies dst
    ensures dst[..] == Masked(old(dst[..]), n, seqPos)
  {
    ghost var x := dst[..];
    ghost var k := Kept(n, seqPos);
    var i := seqPos + 1;
    MaskTailEntry(x, n, seqPos);
    while i < n
      invariant seqPos + 1 <= i && k <= Min(i, n)
      invariant dst[..] == x[..4 * k] + NegWords(Min(i, n) - k) + x[4 * Min(i, n) ..]
    {
      ghost var before := dst[..];
      StoreWord(dst, 4 * i, NEG_INF);
      MaskStep(x, n, k, i, before);
      i := i + 1;
    }
    assert x[4 * n ..] == [];
  }

  /** The smaller of two integers. */
  function Min(a: int, b: int): int { if a <= b then a else b }

  /** Before the masking loop the buffer is its kept prefix, an empty run of -infinity, and the rest. */
  lemma MaskTailEntry(x: seq<byte>, n: nat, seqPos: int)
    requires |x| == 4 * n && seqPos >= -1
    ensures Kept(n, seqPos) <= Min(seqPos + 1, n)
    ensures x == x[..4 * Kept(n, seqPos)] + NegWords(Min(seqPos + 1, n) - Kept(n, seqPos)) + x[4 * Min(seqPos + 1, n) ..]
  {
    var k := Kept(n, seqPos);
    assert Min(seqPos + 1, n) == k;
    assert x == x[..4 * k] + x[4 * k ..];
  }

  /** One step of the masking loop extends the run of -infinity by one element. */
  lemma MaskStep(x: seq<byte>, n: nat, k: nat, i: int, cur: seq<byte>)
    requires 0 <= i < n && k <= Min(i, n) && |x| == 4 * n
    requires cur == x[..4 * k] + NegWords(Min(i, n) - k) + x[4 * Min(i, n) ..]
    ensures k <= Min(i + 1, n)
    ensures Splice(cur, 4 * i, WordBytes(NEG_INF)) == x[..4 * k] + NegWords(Min(i + 1, n) - k) + x[4 * Min(i + 1, n) ..]
  {
    assert Min(i, n) == i && Min(i + 1, n) == i + 1;
    assert NegWords(i + 1 - k) == NegWords(i - k) + WordBytes(NEG_INF);
    SpliceAfterRun(x[..4 * k] + NegWords(i - k), WordBytes(NEG_INF), x[4 * i ..], cur);
    assert x[4 * i ..][4..] == x[4 * i + 4 ..];
  }

  /** Writing w over the start of the tail that follows a prefix appends w to the prefix. */
  lemma SpliceAfterRun(prefix: seq<byte>, w: seq<byte>, tail: seq<byte>, cur: seq<byte>)
    requires |w| <= |tail| && cur == prefix + tail
    ensures Splice(cur, |prefix|, w) == (prefix + w) + tail[|w|..]
  {
    assert cur[..|prefix|] == prefix;
    assert cur[|prefix| + |w|..] == tail[|w|..];
  }
}

/**
 * Non-owning tensor views and owning tensors over raw byte buffers (tensor.hpp).
 * A view's `data` pointer is a position inside some byte buffer; an owning
 * tensor holds a freshly allocated buffer and a view of its start.
 */
module Tensors {
  import opened Bytes
  import opened ShapeMath
  import opened CoreTypes

  /** A raw pointer: null, or the byte at `off` of buffer `buf`. */
  datatype Ptr = Null | At(buf: array<byte>, off: nat)

  /** Strides, in elements, of a row-major layout: each entry is the product of the later dimensions. */
  function RowMajorStrides(shape: seq<int>): (s: seq<int>)
    ensures |s| == |shape|
  {
    seq(|shape|, i requires 0 <= i < |shape| => Prod(shape[i + 1..]))
  }

  /** The loop of row_major_strides: walks the shape backwards, multiplying an accumulator. */
  method ComputeRowMajorStrides(shape: seq<int>) returns (s: seq<int>)
    ensures s == RowMajorStrides(shape)
  {
    ghost var spec := RowMajorStrides(shape);
    var strides := new int[|shape|];
    var acc := 1;
    var i := |shape| - 1;
    while i >= 0
      invariant -1 <= i < |shape|
      invariant acc == Prod(shape[i + 1..])
      invariant strides[i + 1..] == spec[i + 1..]
    {
      strides[i] := acc;
      assert strides[i..] == [spec[i]] + spec[i + 1..] == spec[i..];
      acc := StrideStep(shape, i, acc);
      i := i - 1;
    }
    s := strides[..];
  }

  /** One step of the backward loop: multiplying by shape[i] extends the suffix product. */
  function StrideStep(shape: seq<int>, i: nat, acc: int): (r: int)
    requires i < |shape| && acc == Prod(shape[i + 1..])
    ensures r == Prod(shape[i..])
  {
    assert shape[i..][1..] == shape[i + 1..];
    shape[i] * acc
  }

  /** The last stride is 1 and each earlier stride is the next one times the next dimension. */
  lemma {:induction false} RowMajorStridesRecurrence(shape: seq<int>, i: nat)
    requires i < |shape|
    ensures i == |shape| - 1 ==> RowMajorStrides(shape)[i] == 1
    ensures i < |shape| - 1 ==> RowMajorStrides(shape)[i] == RowMajorStrides(shape)[i + 1] * shape[i + 1]
  {
    if i < |shape| - 1 {
      assert shape[i + 1..] == [shape[i + 1]] + shape[i + 2..];
    }
  }

  /** The element offset of a multi-index under the given strides. */
  function Offset(idx: seq<int>, strides: seq<int>): int
    requires |idx| == |strides|
  {
    if idx == [] then 0 else idx[0] * strides[0] + Offset(idx[1..], strides[1..])
  }

  /** With row-major strides every in-range multi-index lands inside [0, numel). */
  lemma {:induction false} RowMajorOffsetInRange(shape: seq<int>, idx: seq<int>)
    requires |idx| == |shape|
    requires forall k :: 0 <= k < |shape| ==> 0 <= idx[k] < shape[k]
    ensures 0 <= Offset(idx, RowMajorStrides(shape)) < Prod(shape)
  {
    if shape != [] {
      var rest := shape[1..];
      StridesTail(shape);
      RowMajorOffsetInRange(rest, idx[1..]);
      var p := Prod(rest);
      var o := Offset(idx[1..], RowMajorStrides(rest));
      assert RowMajorStrides(shape)[0] == p;
      assert Offset(idx, RowMajorStrides(shape)) == idx[0] * p + o;
      assert Prod(shape) == shape[0] * p;
      DigitBound(idx[0], shape[0], p, o);
    }
  }

  lemma StridesTail(shape: seq<int>)
    requires shape != []
    ensures RowMajorStrides(shape)[1..] == RowMajorStrides(shape[1..])
  {
    var a, b := RowMajorStrides(shape)[1..], RowMajorStrides(shape[1..]);
    assert |a| == |b|;
    forall i | 0 <= i < |a| ensures a[i] == b[i] {
      assert shape[1..][i + 1..] == shape[i + 2..];
    }
  }

  /** One mixed-radix digit: 0 <= d < n and 0 <= o < p give 0 <= d*p + o < n*p. */
  lemma DigitBound(d: int, n: int, p: int, o: int)
    requires 0 <= d < n && 0 <= o < p
    ensures 0 <= d * p + o < n * p
  {
    assert d * p + o < (d + 1) * p;
    assert (d + 1) * p <= n * p;
  }

  /** A view: data pointer, element type, shape and strides (all in elements). */
  datatype TensorView = TensorView(data: Ptr, dt: DType, shape: seq<int>, stride: seq<int>) {

    /** defined(): the data pointer is not null. */
    predicate Defined() { data.At? }

    function Numel(): int { Prod(shape) }

    function ItemSize(): nat { DTypeBytes(dt) }

    /** nbytes(): (size_t)numel() * itemsize(), with the size_t wrap-around. */
    function NBytes(): (n: nat)
      ensures 0 <= Numel() && Numel() * ItemSize() < TWO_64 ==> n == Numel() * ItemSize()
    {
      (Numel() * ItemSize()) % TWO_64
    }

    /** is_contiguous(): the strides are exactly the row-major strides of the shape. */
    predicate IsContiguous() { stride == RowMajorStrides(shape) }
  }

  /** The `n` bytes a defined view's pointer addresses, when they lie inside its buffer. */
  function BytesAt(p: Ptr, n: nat): (b: seq<byte>)
    requires p.At? && p.off + n <= p.buf.Length
    reads p.buf
    ensures |b| == n
    ensures forall i :: 0 <= i < n ==> b[i] == p.buf[p.off + i]
  {
    p.buf[p.off .. p.off + n]
  }

  /** make_view: an empty stride argument means row-major strides; any other is kept as given. */
  function MakeView(data: Ptr, dt: DType, shape: seq<int>, stride: seq<int>): (v: TensorView)
    ensures v.data == data && v.dt == dt && v.shape == shape
    ensures stride == [] ==> v.IsContiguous()
    ensures stride != [] ==> v.stride == stride
    ensures v.IsContiguous() <==> stride == [] || stride == RowMajorStrides(shape)
  {
    TensorView(data, dt, shape, if stride == [] then RowMajorStrides(shape) else stride)
  }

  /** An owning tensor: a buffer and a view of it. */
  datatype Tensor = Tensor(storage: array<byte>, view: TensorView)

  /** The allocation size of Tensor::empty fits a size_t and is not negative. */
  predicate Allocatable(shape: seq<int>, dt: DType)
  {
    0 <= Prod(shape) && Prod(shape) * DTypeBytes(dt) < TWO_64
  }

  /** Tensor::empty: numel * dtype_bytes zeroed bytes, with a contiguous view of them. */
  method Empty(shape: seq<int>, dt: DType) returns (t: Tensor)
    requires Allocatable(shape, dt)
    ensures fresh(t.storage)
    ensures t.storage.Length == Prod(shape) * DTypeBytes(dt)
    ensures forall i :: 0 <= i < t.storage.Length ==> t.storage[i] == 0
    ensures t.view == TensorView(At(t.storage, 0), dt, shape, RowMajorStrides(shape))
    ensures t.view.Defined() && t.view.IsContiguous() && t.view.NBytes() == t.storage.Length
  {
    var bytes := Prod(shape) * DTypeBytes(dt);
    var storage := new byte[bytes](_ => 0);
    var strides := ComputeRowMajorStrides(shape);
    t := Tensor(storage, TensorView(At(storage, 0), dt, shape, strides));
  }

  /** `dst` with `b` written over it from position `at` on. */
  function Splice(dst: seq<byte>, at: nat, b: seq<byte>): (r: seq<byte>)
    requires at + |b| <= |dst|
    ensures |r| == |dst|
  {
    dst[..at] + b + dst[at + |b|..]
  }

  /** std::memcpy between two distinct buffers: only dst[dstOff .. dstOff+n) changes. */
  method Memcpy(dst: array<byte>, dstOff: nat, src: array<byte>, srcOff: nat, n: nat)
    requires dst != src
    requires dstOff + n <= dst.Length && srcOff + n <= src.Length
    modifies dst
    ensures dst[..] == Splice(old(dst[..]), dstOff, old(src[srcOff .. srcOff + n]))
  {
    ghost var before := dst[..];
    for i := 0 to n
      invariant forall k :: 0 <= k < dst.Length ==>
        dst[k] == if dstOff <= k < dstOff + i then src[srcOff + k - dstOff] else before[k]
    {
      dst[dstOff + i] := src[srcOff + i];
    }
    assert forall k :: 0 <= k < dst.Length ==> dst[..][k] == Splice(before, dstOff, src[srcOff .. srcOff + n])[k];
  }

  /** Tensor::from_raw: a fresh tensor holding a copy of the first nbytes bytes at `src`. */
  method FromRaw(src: Ptr, shape: seq<int>, dt: DType) returns (t: Tensor)
    requires Allocatable(shape, dt)
    requires src.At? && src.off + Prod(shape) * DTypeBytes(dt) <= src.buf.Length
    ensures fresh(t.storage)
    ensures t.view == TensorView(At(t.storage, 0), dt, shape, RowMajorStrides(shape))
    ensures t.storage[..] == BytesAt(src, t.view.NBytes())
  {
    t := Empty(shape, dt);
    Memcpy(t.storage, 0, src.buf, src.off, t.view.NBytes());
  }
}

/** ops::reshape: a copy of a tensor's bytes under a new shape (reshape.cpp). */
module Reshape {
  import opened Wrappers
  import opened Bytes
  import opened ShapeMath
  import opened CoreTypes
  import opened Tensors

  /** std::invalid_argument: the new shape has a different number of elements. */
  datatype ReshapeError = ElementCountMismatch

  /** The bytes of `x` can be read: its view points at least nbytes() bytes into a buffer. */
  predicate Readable(x: Tensor)
    reads if x.view.data.At? then {x.view.data.buf} else {}
  {
    x.view.data.At? && x.view.data.off + x.view.NBytes() <= x.view.data.buf.Length
  }

  method Reshape(x: Tensor, newShape: seq<int>) returns (r: Result<Tensor, ReshapeError>)
    requires Readable(x)
    ensures r.Err? <==> Prod(newShape) != x.view.Numel()
    ensures r.Ok? ==> fresh(r.value.storage)
    ensures r.Ok? ==> r.value.view == TensorView(At(r.value.storage, 0), x.view.dt, newShape, RowMajorStrides(newShape))
    ensures r.Ok? ==> r.value.view.NBytes() == x.view.NBytes()
    ensures r.Ok? ==> r.value.storage[..] == BytesAt(x.view.data, x.view.NBytes())
  {
    var product := 1;
    for i := 0 to |newShape|
      invariant product == Prod(newShape[..i])
    {
      ProdSnoc(newShape[..i], newShape[i]);
      assert newShape[..i + 1] == newShape[..i] + [newShape[i]];
      product := product * newShape[i];
    }
    assert newShape[..|newShape|] == newShape;
    if product != x.view.Numel() {
      return Err(ElementCountMismatch);
    }
    var n := x.view.NBytes();
    var storage := new byte[n];
    Memcpy(storage, 0, x.view.data.buf, x.view.data.off, n);
    var strides := ComputeRowMajorStrides(newShape);
    r := Ok(Tensor(storage, TensorView(At(storage, 0), x.view.dt, newShape, strides)));
  }
}

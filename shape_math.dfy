/** The product of a dimension list, shared by every element-count computation. */
module ShapeMath {

  /** dims[0] * dims[1] * ... ; the empty product is 1. */
  function Prod(dims: seq<int>): int
  {
    if dims == [] then 1 else dims[0] * Prod(dims[1..])
  }

  /** Any zero dimension makes the product zero. */
  lemma {:induction false} ProdZeroDim(dims: seq<int>, k: nat)
    requires k < |dims| && dims[k] == 0
    ensures Prod(dims) == 0
  {
    if k > 0 {
      ProdZeroDim(dims[1..], k - 1);
    }
  }

  /** With no zero dimension the product is not zero. */
  lemma {:induction false} ProdNoZeroDim(dims: seq<int>)
    requires forall i :: 0 <= i < |dims| ==> dims[i] != 0
    ensures Prod(dims) != 0
  {
    if dims != [] {
      ProdNoZeroDim(dims[1..]);
    }
  }

  lemma {:induction false} ProdNonneg(dims: seq<int>)
    requires forall i :: 0 <= i < |dims| ==> dims[i] >= 0
    ensures Prod(dims) >= 0
  {
    if dims != [] {
      ProdNonneg(dims[1..]);
    }
  }

  /** Splitting a dimension list splits its product. */
  lemma {:induction false} ProdAppend(a: seq<int>, b: seq<int>)
    ensures Prod(a + b) == Prod(a) * Prod(b)
  {
    if a == [] {
      assert a + b == b;
    } else {
      assert (a + b)[1..] == a[1..] + b;
      ProdAppend(a[1..], b);
    }
  }

  /** The product of a prefix, extended by one more dimension. */
  lemma ProdSnoc(a: seq<int>, x: int)
    ensures Prod(a + [x]) == Prod(a) * x
  {
    ProdAppend(a, [x]);
  }

  /** Multiplication distributes over addition. */
  lemma Distrib(a: int, b: int, c: int)
    ensures (a + b) * c == a * c + b * c
  {
  }

  /** Multiplication is associative. */
  lemma Assoc(a: int, b: int, c: int)
    ensures (a * b) * c == a * (b * c)
  {
  }

  /** Multiplication by a natural number is monotone. */
  lemma MulLe(a: int, b: int, c: nat)
    requires a <= b
    ensures a * c <= b * c
  {
  }
}

/** The engine's scalar types and shapes (types.hpp). */
module CoreTypes {
  import opened ShapeMath

  /** The four-value element type enum; the declaration order gives F32 = 0 .. I8 = 3. */
  datatype DType = F32 | F16 | BF16 | I8

  /** dtype_bytes: the storage width of one element in bytes. */
  function DTypeBytes(dt: DType): (n: nat)
    ensures n == 1 || n == 2 || n == 4
    ensures n == 4 <==> dt == F32
    ensures n == 1 <==> dt == I8
  {
    match dt
    case F32 => 4
    case F16 => 2
    case BF16 => 2
    case I8 => 1
  }

  /** dtype_name: the printable name of a type (mixed case, as in the source). */
  function DTypeName(dt: DType): (s: string)
    ensures |s| >= 2
  {
    match dt
    case F32 => "f32"
    case F16 => "f16"
    case BF16 => "BF16"
    case I8 => "I8"
  }

  /** Every type has its own name, so the name identifies the type. */
  lemma DTypeNameInjective(a: DType, b: DType)
    requires DTypeName(a) == DTypeName(b)
    ensures a == b
  {
  }

  /** Shape: a list of signed 64-bit dimensions. */
  datatype Shape = Shape(dims: seq<int>) {

    /** rank(): the number of dimensions. */
    function Rank(): (r: nat)
      ensures r == |dims|
    {
      |dims|
    }

    /** numel(): the product of the dimensions. */
    function Numel(): (n: int)
      ensures dims == [] ==> n == 1
      ensures (exists k :: 0 <= k < |dims| && dims[k] == 0) ==> n == 0
      ensures (forall k :: 0 <= k < |dims| ==> dims[k] > 0) ==> n > 0
    {
      if exists k :: 0 <= k < |dims| && dims[k] == 0 then
        var k :| 0 <= k < |dims| && dims[k] == 0;
        ProdZeroDim(dims, k);
        Prod(dims)
      else
        NumelPositive(dims);
        Prod(dims)
    }
  }

  lemma {:induction false} NumelPositive(dims: seq<int>)
    ensures (forall k :: 0 <= k < |dims| ==> dims[k] > 0) ==> Prod(dims) > 0
  {
    if dims != [] {
      NumelPositive(dims[1..]);
      if forall k :: 0 <= k < |dims| ==> dims[k] > 0 {
        assert forall k :: 0 <= k < |dims| - 1 ==> dims[1..][k] > 0;
      }
    }
  }
}

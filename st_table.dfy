/**
 * The dtype codes of the safetensors format that the Python reader and writer
 * accept (the `_ITEMSIZE` table both of them carry), and the NumPy element
 * types each side pairs with a code.
 */
module SafetensorsTable {
  import opened Wrappers
  import opened Bytes
  import opened ShapeMath

  /** The thirteen codes, in the table's order. */
  const CODES: seq<string> := ["F16", "BF16", "F32", "F64", "I8", "I16", "I32", "I64", "U8", "U16", "U32", "U64", "BOOL"]

  /** _ITEMSIZE[code]: the byte width of one element, None when the code is not in the table. */
  function ItemSize(code: string): (r: Option<nat>)
    ensures r.Some? <==> code in CODES
    ensures r.Some? ==> r.value == 1 || r.value == 2 || r.value == 4 || r.value == 8
  {
    match code
    case "F16" => Some(2)
    case "BF16" => Some(2)
    case "F32" => Some(4)
    case "F64" => Some(8)
    case "I8" => Some(1)
    case "I16" => Some(2)
    case "I32" => Some(4)
    case "I64" => Some(8)
    case "U8" => Some(1)
    case "U16" => Some(2)
    case "U32" => Some(4)
    case "U64" => Some(8)
    case "BOOL" => Some(1)
    case _ => None
  }

  /**
   * NumPy element types. NumPy without a bfloat16 type has no 16-bit brain
   * float, so both sides fall back to uint16 for BF16.
   */
  datatype NpDType = Float16 | Float32 | Float64 | Int8 | Int16 | Int32 | Int64
                   | UInt8 | UInt16 | UInt32 | UInt64 | Bool

  /** An array as NumPy holds it: element type, shape, and its bytes in C (row-major) order. */
  datatype NpArray = NpArray(dtype: NpDType, shape: seq<nat>, data: seq<byte>)

  /** NumPy's own invariant: as many bytes as elements times the element width. */
  predicate WellFormed(a: NpArray)
  {
    |a.data| == Prod(a.shape) * NpItemSize(a.dtype)
  }

  /** np.dtype(...).itemsize */
  function NpItemSize(t: NpDType): nat
  {
    match t
    case Float16 => 2 case Float32 => 4 case Float64 => 8
    case Int8 => 1 case Int16 => 2 case Int32 => 4 case Int64 => 8
    case UInt8 => 1 case UInt16 => 2 case UInt32 => 4 case UInt64 => 8
    case Bool => 1
  }

  /** The writer's `_NP_DTYPE[code]`: the element type an array must have for its declared code. */
  function WriterNpDType(code: string): NpDType
    requires code in CODES
  {
    match code
    case "F16" => Float16
    case "BF16" => UInt16
    case "F32" => Float32
    case "F64" => Float64
    case "I8" => Int8
    case "I16" => Int16
    case "I32" => Int32
    case "I64" => Int64
    case "U8" => UInt8
    case "U16" => UInt16
    case "U32" => UInt32
    case "U64" => UInt64
    case "BOOL" => Bool
  }

  /** str.upper() on ASCII letters; other characters are left as they are. */
  function AsciiUpper(s: string): (u: string)
    ensures |u| == |s|
    ensures forall i :: 0 <= i < |s| ==> ('a' <= s[i] <= 'z' <==> u[i] != s[i])
  {
    seq(|s|, i requires 0 <= i < |s| => if 'a' <= s[i] <= 'z' then (s[i] as int - 32) as char else s[i])
  }

  /** The reader's `_numpy_dtype`: the code is upper-cased first; an unknown code raises ValueError. */
  function ReaderNpDType(code: string): (r: Option<NpDType>)
  {
    var d := AsciiUpper(code);
    if d == "F16" then Some(Float16)
    else if d == "BF16" then Some(UInt16)
    else if d == "F32" then Some(Float32)
    else if d == "F64" then Some(Float64)
    else if d == "I8" then Some(Int8)
    else if d == "I16" then Some(Int16)
    else if d == "I32" then Some(Int32)
    else if d == "I64" then Some(Int64)
    else if d == "U8" then Some(UInt8)
    else if d == "U16" then Some(UInt16)
    else if d == "U32" then Some(UInt32)
    else if d == "U64" then Some(UInt64)
    else if d == "BOOL" then Some(Bool)
    else None
  }

  /**
   * The two sides agree: for every code in the table the reader views the
   * bytes as the element type the writer demanded, and that type is exactly
   * as wide as the table says.
   */
  lemma TablesAgree(code: string)
    requires code in CODES
    ensures ReaderNpDType(code) == Some(WriterNpDType(code))
    ensures ItemSize(code) == Some(NpItemSize(WriterNpDType(code)))
  {
    CodesUpper(code);
  }

  /** The table's codes are already upper case. */
  lemma CodesUpper(code: string)
    requires code in CODES
    ensures AsciiUpper(code) == code
  {
    assert forall i :: 0 <= i < |code| ==> !('a' <= code[i] <= 'z');
  }
}

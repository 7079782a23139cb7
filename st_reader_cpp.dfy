/**
 * The C++ engine's safetensors reader (safetensors_reader.cpp): a scanner over
 * the header text that looks for quoted names, brace-delimited objects and
 * the "dtype" / "shape" / "data_offsets" keys by plain substring search, a
 * std::map of what it found, and lazy per-call checks in get_tensor.
 * Positions and sizes are size_t: the model wraps them modulo 2^64 exactly
 * where the source's arithmetic does.
 */
module SafetensorsCxxReader {
  import opened Wrappers
  import opened Bytes
  import opened ShapeMath
  import opened CoreTypes
  import opened Tensors
  import opened CxxString
  import SafetensorsTable

  /** The exceptions the reader throws. */
  datatype CxxError =
    | FileTooSmall                       // runtime_error: fewer than 8 bytes
    | InvalidHeaderLength                // runtime_error: the size_t sum 8 + header_len exceeds the file
    | HeaderStringTooLong                // length_error from the std::string constructor (see HeaderLengthWrap)
    | Conversion(e: ConversionError)     // invalid_argument / out_of_range from stoll / stoull
    | InvalidDataOffsets(name: string)   // runtime_error: data_offsets does not hold exactly two numbers
    | TensorNotFound(name: string)       // runtime_error from get_tensor / get_tensor_info
    | UnsupportedDtype(code: string)     // runtime_error from parse_dtype
    | SizeMismatch(name: string)         // runtime_error: expected size differs from data_size
    | OutOfBounds(name: string)          // runtime_error: the data range leaves the file

  /** SafeTensorInfo: the dtype text, the shape, and the absolute range as offset and size. */
  datatype TensorInfo = TensorInfo(dtype: string, shape: seq<int>, dataOffset: nat, dataSize: nat)

  /** parse_dtype: the engine's four types, four more codes read as F32, anything else refused. */
  function ParseDtype(code: string): (r: Result<DType, CxxError>)
    ensures r.Err? ==> r.error == UnsupportedDtype(code)
    ensures r.Ok? <==> code == "F32" || code == "F16" || code == "BF16" || code == "I8"
                       || code == "I32" || code == "I64" || code == "U8" || code == "U32"
    ensures r == Ok(F16) <==> code == "F16"
    ensures r == Ok(BF16) <==> code == "BF16"
    ensures r == Ok(I8) <==> code == "I8"
  {
    if code == "F32" then Ok(F32)
    else if code == "F16" then Ok(F16)
    else if code == "BF16" then Ok(BF16)
    else if code == "I8" then Ok(I8)
    else if code == "I32" || code == "I64" || code == "U8" || code == "U32" then Ok(F32)
    else Err(UnsupportedDtype(code))
  }

  /**
   * Against the safetensors table, dtype_size of the parsed type is the code's
   * own item size except for I64 and U8, which are read with F32's 4 bytes.
   */
  lemma ParsedWidthAgainstTable(code: string)
    requires ParseDtype(code).Ok?
    ensures SafetensorsTable.ItemSize(code).Some?
    ensures DTypeBytes(ParseDtype(code).value) == SafetensorsTable.ItemSize(code).value
            <==> code != "I64" && code != "U8"
  {
  }

  // ---------------------------------------------------------------------------
  // parse_header

  /** The shift-or loop over bytes 0..7: byte i lands in bits 8i..8i+7, so the result is their little-endian value. */
  method ReadHeaderLen(data: array<byte>) returns (headerLen: nat)
    requires data.Length >= 8
    ensures headerLen == LeValue(data[..8]) && headerLen < TWO_64
  {
    headerLen := 0;
    for i := 0 to 8
      invariant headerLen == LeValue(data[..i])
    {
      LeValueSnoc(data[..i], data[i]);
      assert data[..i + 1] == data[..i] + [data[i]];
      // the bits data[i] is or-ed into are still zero, so the or is an addition
      headerLen := headerLen + data[i] * Pow256(i);
    }
    LeValueBound(data[..8]);
    Pow256Eight();
  }

  /**
   * What opening a mapped file produces: the data section offset and the
   * table, or the exception. The guard computes 8 + header_len in size_t; a
   * length the guard lets through only because the sum wrapped is at least
   * 2^64 - 8, beyond std::string's max_size(), so building the header string
   * throws length_error.
   */
  function Open(file: seq<byte>): (r: Result<(nat, seq<Slot>), CxxError>)
    requires |file| < NPOS
  {
    var (base, json) :- HeaderText(file);
    var table :- Scan(json, 0, base, []);
    Ok((base, table))
  }

  /** The checks of parse_header and the header text they let through, with where the data section starts. */
  function HeaderText(file: seq<byte>): (r: Result<(nat, string), CxxError>)
    requires |file| < NPOS
    ensures r.Ok? ==> 8 <= r.value.0 <= |file| && |r.value.1| == r.value.0 - 8 < NPOS
  {
    if |file| < 8 then Err(FileTooSmall)
    else
      var headerLen := LeValue(file[..8]);
      if Wrap(8 + headerLen) > |file| then Err(InvalidHeaderLength)
      else if 8 + headerLen > |file| then Err(HeaderStringTooLong)
      else Ok((8 + headerLen, BytesToChars(file[8 .. 8 + headerLen])))
  }

  /**
   * The header-length guard is computed in size_t, so it is bypassed exactly
   * by the lengths of 2^64 - 8 and more; those files are still refused, by the
   * string constructor. Either way, a file is refused before its header is
   * scanned exactly when 8 + header_len exceeds it, as in the Python reader.
   */
  lemma HeaderLengthWrap(file: seq<byte>)
    requires 8 <= |file| < NPOS
    ensures var headerLen := LeValue(file[..8]);
      && (Open(file) == Err(HeaderStringTooLong) <==> headerLen >= TWO_64 - 8)
      && (Open(file) == Err(InvalidHeaderLength) <==> |file| < 8 + headerLen < TWO_64)
  {
    var headerLen := LeValue(file[..8]);
    LeValueBound(file[..8]);
    Pow256Eight();
    if headerLen >= TWO_64 - 8 {
      assert Wrap(8 + headerLen) == 8 + headerLen - TWO_64;
    } else if 8 + headerLen <= |file| {
      var json := BytesToChars(file[8 .. 8 + headerLen]);
      ScanErrors(json, 0, 8 + headerLen, []);
    }
  }

  // ---------------------------------------------------------------------------
  // The getline loops over the shape and data_offsets lists

  /** One shape item: trimmed; empty means skipped, otherwise std::stoll. */
  function ShapeItem(item: string): (r: Result<seq<int>, CxxError>)
    ensures r.Ok? ==> |r.value| <= 1
    ensures r.Err? ==> r.error.Conversion?
  {
    var t := Trim(item);
    if t == [] then Ok([])
    else
      var n := Stoll(t);
      if n.Err? then Err(Conversion(n.error)) else Ok([n.value])
  }

  /** One data_offsets item: trimmed; empty means skipped, otherwise std::stoull. */
  function OffsetItem(item: string): (r: Result<seq<int>, CxxError>)
    ensures r.Ok? ==> |r.value| <= 1
    ensures r.Err? ==> r.error.Conversion?
  {
    var t := Trim(item);
    if t == [] then Ok([])
    else
      var n := Stoull(t);
      if n.Err? then Err(Conversion(n.error)) else Ok([n.value])
  }

  /** Values already collected, followed by those still to come (or the error that stops them). */
  function Join(acc: seq<int>, r: Result<seq<int>, CxxError>): Result<seq<int>, CxxError>
  {
    if r.Ok? then Ok(acc + r.value) else r
  }

  /** The pieces std::getline(ss, item, ',') yields from position `start` on: no trailing empty piece. */
  function Items(text: string, start: nat): (items: seq<string>)
    requires |text| < NPOS
    decreases |text| - start
  {
    if start >= |text| then []
    else
      var comma := Find(text, ',', start);
      if comma == NPOS then [text[start..]] else [text[start .. comma]] + Items(text, comma + 1)
  }

  /** The items converted one after the other, stopping at the first conversion that throws. */
  function Collect(items: seq<string>, conv: string -> Result<seq<int>, CxxError>): (r: Result<seq<int>, CxxError>)
  {
    if items == [] then Ok([])
    else
      var v := conv(items[0]);
      if v.Err? then Err(v.error) else Join(v.value, Collect(items[1..], conv))
  }

  lemma JoinAppend(acc: seq<int>, v: seq<int>, r: Result<seq<int>, CxxError>)
    ensures Join(acc, Join(v, r)) == Join(acc + v, r)
  {
    if r.Ok? {
      assert acc + (v + r.value) == (acc + v) + r.value;
    }
  }

  /**
   * `while (std::getline(ss, item, ','))` with the conversion of each item
   * (trim, skip if empty, stoll or stoull) passed in as `conv`.
   */
  method ParseList(text: string, conv: string -> Result<seq<int>, CxxError>) returns (r: Result<seq<int>, CxxError>)
    requires |text| < NPOS
    ensures r == Collect(Items(text, 0), conv)
  {
    var acc: seq<int> := [];
    var start := 0;
    assert Join(acc, Collect(Items(text, 0), conv)) == Collect(Items(text, 0), conv) by {
      var all := Collect(Items(text, 0), conv);
      if all.Ok? {
        assert [] + all.value == all.value;
      }
    }
    while start < |text|
      invariant start <= |text|
      invariant Collect(Items(text, 0), conv) == Join(acc, Collect(Items(text, start), conv))
      decreases |text| - start
    {
      var comma := Find(text, ',', start);
      var item := if comma == NPOS then text[start..] else text[start .. comma];
      var next := if comma == NPOS then |text| else comma + 1;
      assert Items(text, start) == [item] + Items(text, next);
      assert ([item] + Items(text, next))[0] == item && ([item] + Items(text, next))[1..] == Items(text, next);
      var v := conv(item);
      if v.Err? {
        return Err(v.error);
      }
      JoinAppend(acc, v.value, Collect(Items(text, next), conv));
      acc := acc + v.value;
      start := next;
    }
    assert acc + [] == acc;
    r := Ok(acc);
  }

  /** An error from the list is the error of one of its items. */
  lemma {:induction false} CollectError(items: seq<string>, conv: string -> Result<seq<int>, CxxError>)
    requires Collect(items, conv).Err?
    ensures exists k :: 0 <= k < |items| && conv(items[k]) == Err(Collect(items, conv).error)
  {
    var v := conv(items[0]);
    if v.Ok? {
      CollectError(items[1..], conv);
      var k :| 0 <= k < |items[1..]| && conv(items[1..][k]) == Err(Collect(items[1..], conv).error);
      assert items[k + 1] == items[1..][k];
    }
  }

  /** The numbers of a list all come from its items, one or none per item. */
  lemma {:induction false} CollectBound(items: seq<string>, conv: string -> Result<seq<int>, CxxError>, lo: int, hi: int)
    requires forall x :: conv(x).Ok? ==> forall k :: 0 <= k < |conv(x).value| ==> lo <= conv(x).value[k] < hi
    requires Collect(items, conv).Ok?
    ensures forall k :: 0 <= k < |Collect(items, conv).value| ==> lo <= Collect(items, conv).value[k] < hi
  {
    if items != [] {
      CollectBound(items[1..], conv, lo, hi);
    }
  }

  /** A converted shape item fits int64_t; a converted offset fits size_t. */
  lemma ItemRanges(item: string)
    ensures ShapeItem(item).Ok? ==> forall k :: 0 <= k < |ShapeItem(item).value| ==> INT64_MIN <= ShapeItem(item).value[k] <= INT64_MAX
    ensures OffsetItem(item).Ok? ==> forall k :: 0 <= k < |OffsetItem(item).value| ==> 0 <= OffsetItem(item).value[k] < TWO_64
  {
  }

  /** Shape dimensions fit int64_t, offsets fit size_t, and the only errors are conversion errors. */
  lemma ListsRange(text: string)
    requires |text| < NPOS
    ensures var r := Collect(Items(text, 0), ShapeItem);
      && (r.Err? ==> r.error.Conversion?)
      && (r.Ok? ==> forall k :: 0 <= k < |r.value| ==> INT64_MIN <= r.value[k] <= INT64_MAX)
    ensures var r := Collect(Items(text, 0), OffsetItem);
      && (r.Err? ==> r.error.Conversion?)
      && (r.Ok? ==> forall k :: 0 <= k < |r.value| ==> 0 <= r.value[k] < TWO_64)
  {
    var items := Items(text, 0);
    forall x {
      ItemRanges(x);
    }
    if Collect(items, ShapeItem).Err? {
      CollectError(items, ShapeItem);
    } else {
      CollectBound(items, ShapeItem, INT64_MIN, INT64_MAX + 1);
    }
    if Collect(items, OffsetItem).Err? {
      CollectError(items, OffsetItem);
    } else {
      CollectBound(items, OffsetItem, 0, TWO_64);
    }
  }

  // ---------------------------------------------------------------------------
  // One object of the header

  const DTYPE_KEY: string := "\"dtype\""
  const SHAPE_KEY: string := "\"shape\""
  const OFFSETS_KEY: string := "\"data_offsets\""

  /**
   * The object text `obj` of tensor `name`: Ok(None) when one of the three
   * keys is missing (the entry is skipped), the conversion error or the
   * offsets-count error, or the stored info. The dtype is the text between the
   * next two quotes after "dtype"; each list is the text between the next '['
   * and the following ']'. Offsets are relative to `base`; the stored range is
   * (base + start, end - start), both in size_t, with no start <= end check.
   */
  function EntryObject(obj: string, base: nat, name: string): (r: Result<Option<TensorInfo>, CxxError>)
    requires |obj| < NPOS
    ensures r.Ok? && r.value.Some? ==> r.value.value.dataOffset < TWO_64 && r.value.value.dataSize < TWO_64
  {
    var dtypePos := FindStr(obj, DTYPE_KEY, 0);
    if dtypePos == NPOS then Ok(None)
    else
      var dtype := QuotedText(obj, dtypePos + 7);
      var shapePos := FindStr(obj, SHAPE_KEY, 0);
      if shapePos == NPOS then Ok(None)
      else
        var shapeText := BracketText(obj, shapePos);
        var shape :- Collect(Items(shapeText, 0), ShapeItem);
        EntryRange(obj, base, name, dtype, shape)
  }

  /** The data_offsets part of an object whose dtype and shape have been read. */
  function EntryRange(obj: string, base: nat, name: string, dtype: string, shape: seq<int>): (r: Result<Option<TensorInfo>, CxxError>)
    requires |obj| < NPOS
    ensures r.Ok? && r.value.Some? ==> r.value.value == TensorInfo(dtype, shape, r.value.value.dataOffset, r.value.value.dataSize)
    ensures r.Ok? && r.value.Some? ==> r.value.value.dataOffset < TWO_64 && r.value.value.dataSize < TWO_64
  {
    var offsetsPos := FindStr(obj, OFFSETS_KEY, 0);
    if offsetsPos == NPOS then Ok(None)
    else
      var offsetsText := BracketText(obj, offsetsPos);
      var offsets :- Collect(Items(offsetsText, 0), OffsetItem);
      if |offsets| != 2 then Err(InvalidDataOffsets(name))
      else Ok(Some(Stored(dtype, shape, base, offsets[0], offsets[1])))
  }

  /** Reading one object throws only conversion errors and the offsets-count error. */
  lemma EntryObjectErrors(obj: string, base: nat, name: string)
    requires |obj| < NPOS
    ensures var r := EntryObject(obj, base, name);
      r.Err? ==> r.error.Conversion? || r.error == InvalidDataOffsets(name)
  {
    var shapePos := FindStr(obj, SHAPE_KEY, 0);
    if shapePos != NPOS {
      ListsRange(BracketText(obj, shapePos));
    }
    var offsetsPos := FindStr(obj, OFFSETS_KEY, 0);
    if offsetsPos != NPOS {
      ListsRange(BracketText(obj, offsetsPos));
    }
  }

  /** The info stored for offsets [start, end]: data_offset = base + start and data_size = end - start, both in size_t. */
  function Stored(dtype: string, shape: seq<int>, base: nat, start: int, end: int): (info: TensorInfo)
    ensures info.dtype == dtype && info.shape == shape
    ensures info.dataOffset < TWO_64 && info.dataSize < TWO_64
  {
    TensorInfo(dtype, shape, Wrap(base + start), Wrap(end - start))
  }

  /**
   * The text between the first two quotes at or after `from`, as the
   * substr(q1 + 1, q2 - q1 - 1) call computes it (npos + 1 wrapping to 0).
   */
  function QuotedText(obj: string, from: nat): (t: string)
    requires |obj| < NPOS
  {
    var q1 := Find(obj, '"', from);
    var q2 := Find(obj, '"', Succ(q1));
    Substr(obj, Succ(q1), Wrap(q2 as int - q1 - 1))
  }

  /** The text between the first '[' at or after `from` and the next ']'. */
  function BracketText(obj: string, from: nat): (t: string)
    requires |obj| < NPOS
    ensures |t| < NPOS
  {
    var b1 := Find(obj, '[', from);
    var b2 := Find(obj, ']', b1);
    Substr(obj, Succ(b1), Wrap(b2 as int - b1 - 1))
  }

  /** The body of the scanning loop from `if (dtype_pos == npos)` on. */
  method ParseEntryObject(obj: string, base: nat, name: string) returns (r: Result<Option<TensorInfo>, CxxError>)
    requires |obj| < NPOS
    ensures r == EntryObject(obj, base, name)
  {
    var dtypePos := FindStr(obj, DTYPE_KEY, 0);
    if dtypePos == NPOS {
      return Ok(None);
    }
    var dtype := QuotedText(obj, dtypePos + 7);
    var shapePos := FindStr(obj, SHAPE_KEY, 0);
    if shapePos == NPOS {
      return Ok(None);
    }
    var shape := ParseList(BracketText(obj, shapePos), ShapeItem);
    if shape.Err? {
      return Err(shape.error);
    }
    r := ParseEntryRange(obj, base, name, dtype, shape.value);
  }

  method ParseEntryRange(obj: string, base: nat, name: string, dtype: string, shape: seq<int>) returns (r: Result<Option<TensorInfo>, CxxError>)
    requires |obj| < NPOS
    ensures r == EntryRange(obj, base, name, dtype, shape)
  {
    var offsetsPos := FindStr(obj, OFFSETS_KEY, 0);
    if offsetsPos == NPOS {
      return Ok(None);
    }
    var offsets := ParseList(BracketText(obj, offsetsPos), OffsetItem);
    if offsets.Err? {
      return Err(offsets.error);
    }
    if |offsets.value| != 2 {
      return Err(InvalidDataOffsets(name));
    }
    r := Ok(Some(Stored(dtype, shape, base, offsets.value[0], offsets.value[1])));
  }

  // ---------------------------------------------------------------------------
  // The brace loop

  /** Where the brace loop stops: just past the brace that closes the object, or at the end of the text. */
  function BraceEnd(s: string, i: nat, depth: int): (r: nat)
    requires i <= |s|
    ensures i <= r <= |s|
    decreases |s| - i
  {
    if i < |s| && depth > 0 then
      BraceEnd(s, i + 1, if s[i] == '{' then depth + 1 else if s[i] == '}' then depth - 1 else depth)
    else i
  }

  /** When the loop stops before the end of the text, the last character it consumed is a closing brace. */
  lemma {:induction false} BraceEndCloses(s: string, i: nat, depth: int)
    requires i <= |s| && depth > 0
    requires BraceEnd(s, i, depth) < |s|
    ensures i < BraceEnd(s, i, depth) && s[BraceEnd(s, i, depth) - 1] == '}'
    decreases |s| - i
  {
    var next := if s[i] == '{' then depth + 1 else if s[i] == '}' then depth - 1 else depth;
    if next > 0 {
      BraceEndCloses(s, i + 1, next);
    }
  }

  /** `int brace_count = 1; size_t obj_end = obj_start + 1; while (...)`. */
  method MatchBrace(s: string, objStart: nat) returns (objEnd: nat)
    requires objStart < |s|
    ensures objEnd == BraceEnd(s, objStart + 1, 1)
  {
    var braceCount := 1;
    objEnd := objStart + 1;
    while objEnd < |s| && braceCount > 0
      invariant objEnd <= |s|
      invariant BraceEnd(s, objEnd, braceCount) == BraceEnd(s, objStart + 1, 1)
      decreases |s| - objEnd
    {
      if s[objEnd] == '{' {
        braceCount := braceCount + 1;
      } else if s[objEnd] == '}' {
        braceCount := braceCount - 1;
      }
      objEnd := objEnd + 1;
    }
  }

  // ---------------------------------------------------------------------------
  // tensor_info_: a std::map, kept as a list strictly sorted by name

  datatype Slot = Slot(name: string, info: TensorInfo)

  predicate Sorted(t: seq<Slot>)
  {
    forall i, j :: 0 <= i < j < |t| ==> Less(t[i].name, t[j].name)
  }

  /** map::find: the info stored under `name`, if any. */
  function Lookup(t: seq<Slot>, name: string): (r: Option<TensorInfo>)
    ensures r.Some? <==> exists k :: 0 <= k < |t| && t[k].name == name
  {
    if t == [] then None
    else if t[0].name == name then Some(t[0].info)
    else
      var r := Lookup(t[1..], name);
      assert forall k :: 1 <= k < |t| ==> t[k] == t[1..][k - 1];
      r
  }

  /** In a sorted list a name sits in one slot only, so the lookup finds that slot. */
  lemma {:induction false} LookupSlot(t: seq<Slot>, k: nat)
    requires Sorted(t) && k < |t|
    ensures Lookup(t, t[k].name) == Some(t[k].info)
  {
    if k > 0 {
      LessIrreflexiveAt(t, k);
      assert t[1..][k - 1] == t[k];
      LookupSlot(t[1..], k - 1);
    }
  }

  lemma LessIrreflexiveAt(t: seq<Slot>, k: nat)
    requires Sorted(t) && 0 < k < |t|
    ensures t[0].name != t[k].name
  {
    LessIrreflexive(t[0].name);
  }

  /** `tensor_info_[name] = info`: replaces the slot of that name, or inserts one in order. */
  function Assign(t: seq<Slot>, name: string, info: TensorInfo): seq<Slot>
  {
    if t == [] then [Slot(name, info)]
    else if t[0].name == name then [Slot(name, info)] + t[1..]
    else if Less(name, t[0].name) then [Slot(name, info)] + t
    else [t[0]] + Assign(t[1..], name, info)
  }

  predicate Below(x: string, t: seq<Slot>)
  {
    forall k :: 0 <= k < |t| ==> Less(x, t[k].name)
  }

  lemma {:induction false} AssignBelow(t: seq<Slot>, name: string, info: TensorInfo, x: string)
    requires Below(x, t) && Less(x, name)
    ensures Below(x, Assign(t, name, info))
  {
    if t != [] && t[0].name != name && !Less(name, t[0].name) {
      AssignBelow(t[1..], name, info, x);
      var r := Assign(t, name, info);
      assert forall k :: 1 <= k < |r| ==> r[k] == Assign(t[1..], name, info)[k - 1];
    }
  }

  /** Assignment keeps the list strictly sorted. */
  lemma {:induction false} AssignSorted(t: seq<Slot>, name: string, info: TensorInfo)
    requires Sorted(t)
    ensures Sorted(Assign(t, name, info))
  {
    if t == [] {
    } else if t[0].name == name {
    } else if Less(name, t[0].name) {
      forall k | 0 <= k < |t| ensures Less(name, t[k].name) {
        if k > 0 {
          LessTransitive(name, t[0].name, t[k].name);
        }
      }
    } else {
      LessTotal(name, t[0].name);
      AssignSorted(t[1..], name, info);
      AssignBelow(t[1..], name, info, t[0].name);
      var r := Assign(t, name, info);
      var rest := Assign(t[1..], name, info);
      assert r == [t[0]] + rest;
      forall i, j | 0 <= i < j < |r| ensures Less(r[i].name, r[j].name) {
        if i == 0 {
          assert r[j] == rest[j - 1];
        } else {
          assert r[i] == rest[i - 1] && r[j] == rest[j - 1];
        }
      }
    }
  }

  /** After the assignment the name maps to the new info and every other name keeps its own. */
  lemma {:induction false} AssignLookup(t: seq<Slot>, name: string, info: TensorInfo, key: string)
    ensures Lookup(Assign(t, name, info), key) == if key == name then Some(info) else Lookup(t, key)
  {
    if t != [] && t[0].name != name && !Less(name, t[0].name) {
      AssignLookup(t[1..], name, info, key);
    }
  }

  // ---------------------------------------------------------------------------
  // parse_json_metadata

  /** Where the next entry of the header lies: its name and the extent of its object, if any. */
  datatype Located = End | Object(name: string, objStart: nat, objEnd: nat)

  /**
   * From `pos`: the next two quotes delimit a name, the next '{' after it
   * opens the object and the brace loop finds its end; no quote or no brace
   * left ends the loop.
   */
  function Locate(s: string, pos: nat): (r: Located)
    requires pos < |s| < NPOS
    ensures r.Object? ==> pos <= r.objStart < r.objEnd <= |s|
  {
    var quoteStart := Find(s, '"', pos);
    if quoteStart == NPOS then End
    else
      var quoteEnd := Find(s, '"', quoteStart + 1);
      if quoteEnd == NPOS then End
      else
        var objStart := Find(s, '{', quoteEnd);
        if objStart == NPOS then End
        else Object(s[quoteStart + 1 .. quoteEnd], objStart, BraceEnd(s, objStart + 1, 1))
  }

  /** The search at the head of the loop in parse_json_metadata. */
  method LocateObject(s: string, pos: nat) returns (loc: Located)
    requires pos < |s| < NPOS
    ensures loc == Locate(s, pos)
  {
    var quoteStart := Find(s, '"', pos);
    if quoteStart == NPOS {
      return End;
    }
    var quoteEnd := Find(s, '"', quoteStart + 1);
    if quoteEnd == NPOS {
      return End;
    }
    var name := s[quoteStart + 1 .. quoteEnd];
    var objStart := Find(s, '{', quoteEnd);
    if objStart == NPOS {
      return End;
    }
    var objEnd := MatchBrace(s, objStart);
    loc := Object(name, objStart, objEnd);
  }

  /**
   * The table the loop leaves behind when it starts at `pos` with table `t`,
   * or what it throws. An object missing a key is stepped over; a stored
   * entry replaces any earlier one of the same name.
   */
  function Scan(s: string, pos: nat, base: nat, t: seq<Slot>): (r: Result<seq<Slot>, CxxError>)
    requires pos <= |s| < NPOS
    decreases |s| - pos
  {
    if pos == |s| then Ok(t)
    else
      var loc := Locate(s, pos);
      if loc.End? then Ok(t)
      else
        var entry := EntryObject(s[loc.objStart .. loc.objEnd], base, loc.name);
        if entry.Err? then Err(entry.error)
        else if entry.value.None? then Scan(s, loc.objEnd, base, t)
        else Scan(s, loc.objEnd, base, Assign(t, loc.name, entry.value.value))
  }

  /**
   * Scanning only throws conversion and offset-count errors: dtype codes,
   * sizes and bounds are not looked at until get_tensor. It keeps a sorted
   * table sorted.
   */
  lemma {:induction false} ScanErrors(s: string, pos: nat, base: nat, t: seq<Slot>)
    requires pos <= |s| < NPOS
    ensures var r := Scan(s, pos, base, t);
      r.Err? ==> r.error.Conversion? || r.error.InvalidDataOffsets?
    ensures Sorted(t) && Scan(s, pos, base, t).Ok? ==> Sorted(Scan(s, pos, base, t).value)
    decreases |s| - pos
  {
    if pos < |s| {
      var loc := Locate(s, pos);
      if loc.Object? {
        var obj := s[loc.objStart .. loc.objEnd];
        var entry := EntryObject(obj, base, loc.name);
        EntryObjectErrors(obj, base, loc.name);
        if entry.Ok? && entry.value.None? {
          ScanErrors(s, loc.objEnd, base, t);
        } else if entry.Ok? {
          var t' := Assign(t, loc.name, entry.value.value);
          if Sorted(t) {
            AssignSorted(t, loc.name, entry.value.value);
          }
          ScanErrors(s, loc.objEnd, base, t');
        }
      }
    }
  }

  /** One turn of the scanning loop, in the form the loop's invariant needs. */
  lemma ScanStep(s: string, pos: nat, base: nat, t: seq<Slot>, loc: Located, entry: Result<Option<TensorInfo>, CxxError>)
    requires pos < |s| < NPOS && loc == Locate(s, pos) && loc.Object?
    requires entry == EntryObject(s[loc.objStart .. loc.objEnd], base, loc.name)
    ensures loc.objEnd <= |s|
    ensures entry.Err? ==> Scan(s, pos, base, t) == Err(entry.error)
    ensures entry.Ok? && entry.value.None? ==> Scan(s, pos, base, t) == Scan(s, loc.objEnd, base, t)
    ensures entry.Ok? && entry.value.Some? ==>
      Scan(s, pos, base, t) == Scan(s, loc.objEnd, base, Assign(t, loc.name, entry.value.value))
  {
  }

  // ---------------------------------------------------------------------------
  // The reader

  /** SafeTensorReader::Impl over a mapped file (the open/fstat/mmap calls are not modelled). */
  class SafeTensorReader {
    /** mapped_data_ and file_size_ */
    const mapped: array<byte>
    const fileSize: nat
    var dataSectionOffset: nat
    var tensorInfo: seq<Slot>

    ghost predicate Valid()
      reads this
    {
      fileSize == mapped.Length && fileSize < NPOS && Sorted(tensorInfo)
    }

    /** The state right after the mapping, before parse_header. */
    constructor (mapping: array<byte>)
      requires mapping.Length < NPOS
      ensures mapped == mapping && fileSize == mapping.Length
      ensures dataSectionOffset == 0 && tensorInfo == []
      ensures Valid()
    {
      mapped := mapping;
      fileSize := mapping.Length;
      dataSectionOffset := 0;
      tensorInfo := [];
    }

    /** parse_header, as the constructor calls it on a fresh reader. */
    method ParseHeader() returns (err: Option<CxxError>)
      requires Valid() && tensorInfo == [] && dataSectionOffset == 0
      modifies this
      ensures Valid()
      ensures Open(mapped[..]).Err? ==> err == Some(Open(mapped[..]).error)
      ensures Open(mapped[..]).Ok? ==> err == None && (dataSectionOffset, tensorInfo) == Open(mapped[..]).value
    {
      var header := ReadHeader();
      if header.Err? {
        return Some(header.error);
      }
      dataSectionOffset := header.value.0;
      err := ParseJsonMetadata(header.value.1);
    }

    /** parse_header up to the call of parse_json_metadata. */
    method ReadHeader() returns (r: Result<(nat, string), CxxError>)
      requires Valid()
      ensures r == HeaderText(mapped[..])
    {
      if fileSize < 8 {
        return Err(FileTooSmall);
      }
      var headerLen := ReadHeaderLen(mapped);
      assert mapped[..][..8] == mapped[..8];
      if Wrap(8 + headerLen) > fileSize {
        return Err(InvalidHeaderLength);
      }
      if 8 + headerLen > fileSize {
        return Err(HeaderStringTooLong);
      }
      assert mapped[..][8 .. 8 + headerLen] == mapped[8 .. 8 + headerLen];
      r := Ok((8 + headerLen, BytesToChars(mapped[8 .. 8 + headerLen])));
    }

    /** The scanning loop over the header text. */
    method ParseJsonMetadata(json: string) returns (err: Option<CxxError>)
      requires Valid() && |json| < NPOS
      modifies this
      ensures Valid() && dataSectionOffset == old(dataSectionOffset)
      ensures var spec := Scan(json, 0, dataSectionOffset, old(tensorInfo));
        && (spec.Err? ==> err == Some(spec.error))
        && (spec.Ok? ==> err == None && tensorInfo == spec.value)
    {
      ghost var spec := Scan(json, 0, dataSectionOffset, tensorInfo);
      var pos := 0;
      while pos < |json|
        invariant pos <= |json| && Valid() && dataSectionOffset == old(dataSectionOffset)
        invariant Scan(json, pos, dataSectionOffset, tensorInfo) == spec
        decreases |json| - pos
      {
        var loc := LocateObject(json, pos);
        if loc.End? {
          assert spec == Ok(tensorInfo);
          break;
        }
        var entry := ParseEntryObject(json[loc.objStart .. loc.objEnd], dataSectionOffset, loc.name);
        ScanStep(json, pos, dataSectionOffset, tensorInfo, loc, entry);
        if entry.Err? {
          return Some(entry.error);
        }
        if entry.value.Some? {
          AssignSorted(tensorInfo, loc.name, entry.value.value);
          tensorInfo := Assign(tensorInfo, loc.name, entry.value.value);
        }
        pos := loc.objEnd;
      }
      err := None;
    }

    /** has_tensor: the name has a slot. */
    function HasTensor(name: string): (b: bool)
      reads this
      ensures b <==> exists k :: 0 <= k < |tensorInfo| && tensorInfo[k].name == name
    {
      Lookup(tensorInfo, name).Some?
    }

    /** get_tensor_info: the stored info, or "Tensor not found". */
    function GetTensorInfo(name: string): (r: Result<TensorInfo, CxxError>)
      reads this
      requires Valid()
      ensures r.Err? <==> !HasTensor(name)
      ensures r.Err? ==> r.error == TensorNotFound(name)
      ensures r.Ok? ==> exists k :: 0 <= k < |tensorInfo| && tensorInfo[k] == Slot(name, r.value)
    {
      var found := Lookup(tensorInfo, name);
      if found.None? then Err(TensorNotFound(name))
      else
        var k :| 0 <= k < |tensorInfo| && tensorInfo[k].name == name;
        LookupSlot(tensorInfo, k);
        Ok(found.value)
    }

    /** get_tensor_names: every stored name once, in std::map order. */
    method GetTensorNames() returns (names: seq<string>)
      requires Valid()
      ensures |names| == |tensorInfo|
      ensures forall i, j :: 0 <= i < j < |names| ==> Less(names[i], names[j])
      ensures forall n :: n in names <==> HasTensor(n)
    {
      names := [];
      for k := 0 to |tensorInfo|
        invariant |names| == k
        invariant forall i :: 0 <= i < k ==> names[i] == tensorInfo[i].name
      {
        names := names + [tensorInfo[k].name];
      }
    }

    /**
     * get_tensor: "Tensor not found", then the lazy checks of TensorChecks
     * (see its note for where they depart from the size_t code), then a
     * contiguous view into the mapping at data_offset.
     */
    method GetTensor(name: string) returns (r: Result<TensorView, CxxError>)
      requires Valid()
      ensures !HasTensor(name) ==> r == Err(TensorNotFound(name))
      ensures HasTensor(name) ==> var info := Lookup(tensorInfo, name).value;
        && (r.Err? <==> TensorChecks(info, fileSize, name).Err?)
        && (r.Err? ==> r.error == TensorChecks(info, fileSize, name).error)
        && (r.Ok? ==> r.value == MakeView(At(mapped, info.dataOffset), TensorChecks(info, fileSize, name).value, info.shape, []))
      ensures r.Ok? ==> r.value.data == At(mapped, r.value.data.off) && r.value.IsContiguous()
      ensures r.Ok? ==> r.value.Numel() >= 0 && r.value.data.off + r.value.Numel() * r.value.ItemSize() <= mapped.Length
    {
      var found := Lookup(tensorInfo, name);
      if found.None? {
        return Err(TensorNotFound(name));
      }
      var info := found.value;
      var dt := ParseDtype(info.dtype);
      if dt.Err? {
        return Err(dt.error);
      }
      var elements := ExpectedElements(info.shape);
      if elements.None? || elements.value * DTypeBytes(dt.value) != info.dataSize {
        return Err(SizeMismatch(name));
      }
      if info.dataOffset + info.dataSize > fileSize {
        return Err(OutOfBounds(name));
      }
      r := Ok(MakeView(At(mapped, info.dataOffset), dt.value, info.shape, []));
    }
  }

  // ---------------------------------------------------------------------------
  // get_tensor's checks, as written and as evidently intended

  /** The product loop of get_tensor, refusing a negative dimension instead of casting it to size_t. */
  method ExpectedElements(shape: seq<int>) returns (n: Option<nat>)
    ensures n.Some? <==> NonNegative(shape)
    ensures n.Some? ==> n.value == Prod(shape)
  {
    var product: nat := 1;
    for k := 0 to |shape|
      invariant product == Prod(shape[..k])
      invariant NonNegative(shape[..k])
    {
      if shape[k] < 0 {
        assert !NonNegative(shape) by {
          assert shape[k] < 0;
        }
        return None;
      }
      ProdSnoc(shape[..k], shape[k]);
      assert shape[..k + 1] == shape[..k] + [shape[k]];
      product := product * shape[k];
    }
    assert shape[..|shape|] == shape;
    n := Some(product);
  }

  predicate NonNegative(dims: seq<int>) { forall k :: 0 <= k < |dims| ==> dims[k] >= 0 }

  /**
   * The checks get_tensor makes after the lookup, in exact arithmetic: the code
   * must parse, every dimension be non-negative, product(shape) * dtype_size
   * equal data_size, and data_offset + data_size stay within the file. The
   * reader model uses these; TensorChecksAsWritten is the size_t original.
   */
  function TensorChecks(info: TensorInfo, fileSize: nat, name: string): (r: Result<DType, CxxError>)
    ensures r.Ok? ==> ParseDtype(info.dtype) == Ok(r.value)
    ensures r.Ok? ==> NonNegative(info.shape) && Prod(info.shape) * DTypeBytes(r.value) == info.dataSize
    ensures r.Ok? ==> info.dataOffset + info.dataSize <= fileSize
  {
    var dt :- ParseDtype(info.dtype);
    if !NonNegative(info.shape) || Prod(info.shape) * DTypeBytes(dt) != info.dataSize then Err(SizeMismatch(name))
    else if info.dataOffset + info.dataSize > fileSize then Err(OutOfBounds(name))
    else Ok(dt)
  }

  /** expected_size as the loop computes it: each dimension cast to size_t, each product wrapped. */
  function SizeTProduct(dims: seq<int>): (r: nat)
    ensures r < TWO_64
  {
    if dims == [] then 1 else Wrap(SizeTProduct(dims[..|dims| - 1]) * Wrap(dims[|dims| - 1]))
  }

  /** The checks of get_tensor exactly as written: both in size_t arithmetic. */
  function TensorChecksAsWritten(info: TensorInfo, fileSize: nat, name: string): (r: Result<DType, CxxError>)
  {
    var dt :- ParseDtype(info.dtype);
    if Wrap(SizeTProduct(info.shape) * DTypeBytes(dt)) != info.dataSize then Err(SizeMismatch(name))
    else if Wrap(info.dataOffset + info.dataSize) > fileSize then Err(OutOfBounds(name))
    else Ok(dt)
  }

  /** The wrapped product is the true product modulo 2^64. */
  lemma {:induction false} SizeTProductMod(dims: seq<int>)
    ensures SizeTProduct(dims) == Prod(dims) % TWO_64
    decreases |dims|
  {
    if dims != [] {
      var front, last := dims[..|dims| - 1], dims[|dims| - 1];
      assert dims == front + [last];
      SizeTProductMod(front);
      ProdSnoc(front, last);
      MulMod(Prod(front), last);
    }
  }

  lemma MulMod(x: int, y: int)
    ensures ((x % TWO_64) * (y % TWO_64)) % TWO_64 == (x * y) % TWO_64
  {
    var a, b := x % TWO_64, y % TWO_64;
    var p, q := x / TWO_64, y / TWO_64;
    assert x * y == a * b + (p * b + a * q + p * q * TWO_64) * TWO_64 by {
      assert x == p * TWO_64 + a && y == q * TWO_64 + b;
    }
    ModMultiple(a * b, p * b + a * q + p * q * TWO_64);
  }

  lemma ModMultiple(r: int, k: int)
    ensures (r + k * TWO_64) % TWO_64 == r % TWO_64
  {
  }

  /** Where nothing wraps, the size_t checks and the exact ones decide alike. */
  lemma ChecksAgreeWithoutWrap(info: TensorInfo, fileSize: nat, name: string)
    requires NonNegative(info.shape) && Prod(info.shape) * 4 < TWO_64
    requires info.dataSize < TWO_64 && info.dataOffset + info.dataSize < TWO_64
    ensures TensorChecksAsWritten(info, fileSize, name) == TensorChecks(info, fileSize, name)
  {
    var dt := ParseDtype(info.dtype);
    if dt.Ok? {
      var p := Prod(info.shape);
      var b := DTypeBytes(dt.value);
      SizeTProductMod(info.shape);
      ProdNonneg(info.shape);
      assert 0 <= p * b <= p * 4 by {
        MulMonotone(p, b, 4);
      }
      assert SizeTProduct(info.shape) == p;
      assert Wrap(p * b) == p * b;
      assert Wrap(info.dataOffset + info.dataSize) == info.dataOffset + info.dataSize;
    }
  }

  lemma MulMonotone(p: nat, b: nat, c: nat)
    requires b <= c
    ensures p * b <= p * c
  {
  }

  /**
   * Offsets [4, 0] after a data section at 80 store data_size 2^64 - 4; with
   * shape [2^62 - 1] of F32 the size check matches it, and the bounds sum
   * wraps to 80, so the as-written checks hand out a view starting beyond the
   * end of an 80-byte file and reaching 2^64 - 4 bytes past it.
   */
  lemma BoundsCheckWraps()
    ensures var info := TensorInfo("F32", [0x3FFF_FFFF_FFFF_FFFF], Wrap(80 + 4), Wrap(0 - 4));
      && TensorChecksAsWritten(info, 80, "t") == Ok(F32)
      && info.dataOffset + Prod(info.shape) * 4 > 80
      && TensorChecks(info, 80, "t") == Err(OutOfBounds("t"))
  {
    var info := TensorInfo("F32", [0x3FFF_FFFF_FFFF_FFFF], Wrap(80 + 4), Wrap(0 - 4));
    assert SizeTProduct(info.shape) == 0x3FFF_FFFF_FFFF_FFFF;
    assert Prod(info.shape) == 0x3FFF_FFFF_FFFF_FFFF;
  }

  /**
   * Shape [2^32, 2^32] of I8 has 2^64 elements, but the size_t product is 0,
   * so an entry with data_size 0 passes the size check and the view claims
   * 2^64 bytes where the file holds none.
   */
  lemma SizeCheckWraps()
    ensures var info := TensorInfo("I8", [0x1_0000_0000, 0x1_0000_0000], 80, 0);
      && TensorChecksAsWritten(info, 80, "t") == Ok(I8)
      && Prod(info.shape) * 1 > info.dataSize
      && TensorChecks(info, 80, "t") == Err(SizeMismatch("t"))
  {
    var info := TensorInfo("I8", [0x1_0000_0000, 0x1_0000_0000], 80, 0);
    assert info.shape[..1] == [0x1_0000_0000];
    assert SizeTProduct(info.shape[..1]) == 0x1_0000_0000;
    assert SizeTProduct(info.shape) == 0;
    assert Prod(info.shape) == TWO_64;
  }
}

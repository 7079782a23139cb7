/**
 * SafeTensorFile (safetensors/reader.py): the Python reader. Opening a file
 * validates the whole header eagerly; afterwards `keys`, `meta` and `get`
 * are lookups into the table of validated entries. The memory-mapped file
 * is an immutable byte sequence; json.loads together with the UTF-8 decode
 * is a parameter `loads`, which answers None when either raises.
 */
module SafetensorsPyReader {
  import opened Wrappers
  import opened Bytes
  import opened ShapeMath
  import opened PyJson
  import opened PyDicts
  import opened SafetensorsTable

  /** _Entry: a validated header entry; the absolute offsets are file positions. */
  datatype Entry = Entry(name: string, dtype: string, shape: seq<nat>,
                         relStart: nat, relEnd: nat, absStart: nat, absEnd: nat)

  /** The exceptions of the reader: ValueError (by message), TypeError and KeyError. */
  datatype ReaderError =
    | FileTooSmall                       // "File too small for safetensors header"
    | HeaderExceedsFile                  // "Declared header length exceeds file size"
    | InvalidHeaderJson                  // "Invalid header JSON"
    | HeaderNotDict                      // "Header JSON must be a dict of name -> entry"
    | EntryNotObject(name: string)       // "Entry for .. must be an object"
    | MissingFields(name: string)        // "Entry for .. missing fields"
    | UnhashableDtype(name: string)      // TypeError from `dtype in _ITEMSIZE` on a list or dict
    | UnsupportedDtype(name: string)     // "Unsupported dtype in header for .."
    | InvalidShape(name: string)
    | InvalidOffsets(name: string)
    | SizeMismatch(name: string)         // "Byte size mismatch for .."
    | OffsetsExceedFile(name: string)
    | NoSuchTensor(name: string)         // KeyError from meta / get
  {
    /** An error raised while checking the header entry of `n`. */
    predicate ForEntry(n: string)
    {
      (EntryNotObject? || MissingFields? || UnhashableDtype? || UnsupportedDtype? || InvalidShape?
       || InvalidOffsets? || SizeMismatch? || OffsetsExceedFile?) && name == n
    }
  }

  /** _prod: the running product of the dimensions, starting from 1. */
  method ProductOf(dims: seq<int>) returns (n: int)
    ensures n == Prod(dims)
  {
    n := 1;
    for i := 0 to |dims|
      invariant n == Prod(dims[..i])
    {
      ProdSnoc(dims[..i], dims[i]);
      assert dims[..i + 1] == dims[..i] + [dims[i]];
      n := n * dims[i];
    }
    assert dims[..|dims|] == dims;
  }

  /** A shape the reader accepts: a list whose items are ints (bools included) and not negative. */
  predicate ValidShape(shape: Json)
  {
    shape.JArr? && forall k :: 0 <= k < |shape.items| ==> IsPyInt(shape.items[k]) && PyIntValue(shape.items[k]) >= 0
  }

  /** list(map(int, shape)) of an accepted shape. */
  function ShapeDims(shape: Json): (dims: seq<nat>)
    requires ValidShape(shape)
    ensures |dims| == |shape.items|
    ensures forall k :: 0 <= k < |dims| ==> dims[k] == PyIntValue(shape.items[k])
  {
    seq(|shape.items|, k requires 0 <= k < |shape.items| => PyIntValue(shape.items[k]) as nat)
  }

  /** The end of the header: 8 plus the little-endian u64 in the first 8 bytes. */
  function HeaderEnd(mm: seq<byte>): (e: nat)
    requires |mm| >= 8
    ensures 8 <= e < 8 + TWO_64
  {
    LeValueBound(mm[..8]);
    Pow256Eight();
    8 + LeValue(mm[..8])
  }

  /** The fields of an accepted entry, in the order reader.py checks them. */
  function CheckEntry(name: string, entry: Json, dataBase: nat, size: nat): (r: Result<Entry, ReaderError>)
    ensures r.Ok? ==> r.value.name == name && ItemSize(r.value.dtype).Some?
    ensures r.Ok? ==> dataBase <= r.value.absStart <= r.value.absEnd <= size
    ensures r.Ok? ==> r.value.absEnd - r.value.absStart == Prod(r.value.shape) * ItemSize(r.value.dtype).value
    ensures r.Err? ==> r.error.ForEntry(name)
  {
    if !entry.JObj? then Err(EntryNotObject(name))
    else
      var dtype, shape, offsets := Lookup(entry.members, "dtype"), Lookup(entry.members, "shape"), Lookup(entry.members, "data_offsets");
      if dtype.None? || shape.None? || offsets.None? || Unpack2(offsets.value).None? then Err(MissingFields(name))
      else
        var (relStart, relEnd) := Unpack2(offsets.value).value;
        if !Hashable(dtype.value) then Err(UnhashableDtype(name))
        else if !(dtype.value.JStr? && ItemSize(dtype.value.s).Some?) then Err(UnsupportedDtype(name))
        else if !ValidShape(shape.value) then Err(InvalidShape(name))
        else if !IsPyInt(relStart) || !IsPyInt(relEnd) || PyIntValue(relStart) < 0 || PyIntValue(relEnd) < PyIntValue(relStart) then
          Err(InvalidOffsets(name))
        else
          var dims := ShapeDims(shape.value);
          var expectNbytes := Prod(dims) * ItemSize(dtype.value.s).value;
          if PyIntValue(relEnd) - PyIntValue(relStart) != expectNbytes then Err(SizeMismatch(name))
          else if dataBase + PyIntValue(relEnd) > size then Err(OffsetsExceedFile(name))
          else Ok(Entry(name, dtype.value.s, dims, PyIntValue(relStart), PyIntValue(relEnd),
                        dataBase + PyIntValue(relStart), dataBase + PyIntValue(relEnd)))
  }

  /**
   * What an accepted entry is, stated field by field rather than check by
   * check: an object whose "dtype" is a table code, whose "shape" lists the
   * (non-negative) dims, whose "data_offsets" are two ints spanning exactly
   * the tensor's bytes, and whose absolute range ends inside the file.
   */
  predicate Describes(name: string, entry: Json, dataBase: nat, size: nat, e: Entry)
  {
    && entry.JObj?
    && e.name == name
    && Lookup(entry.members, "dtype") == Some(JStr(e.dtype)) && ItemSize(e.dtype).Some?
    && Lookup(entry.members, "shape").Some?
    && ListsDims(Lookup(entry.members, "shape").value, e.shape)
    && Lookup(entry.members, "data_offsets").Some?
    && Unpack2(Lookup(entry.members, "data_offsets").value).Some?
    && IntsAre(Unpack2(Lookup(entry.members, "data_offsets").value).value, e.relStart, e.relEnd)
    && e.relStart <= e.relEnd
    && e.relEnd - e.relStart == Prod(e.shape) * ItemSize(e.dtype).value
    && e.absStart == dataBase + e.relStart && e.absEnd == dataBase + e.relEnd
    && e.absEnd <= size
  }

  /** `shape` is a list of ints (bools included) equal to `dims`. */
  predicate ListsDims(shape: Json, dims: seq<nat>)
  {
    shape.JArr? && |shape.items| == |dims|
    && forall k :: 0 <= k < |dims| ==> IsPyInt(shape.items[k]) && PyIntValue(shape.items[k]) == dims[k]
  }

  /** Both unpacked offsets are ints with the given values. */
  predicate IntsAre(offsets: (Json, Json), start: nat, end: nat)
  {
    IsPyInt(offsets.0) && IsPyInt(offsets.1) && PyIntValue(offsets.0) == start && PyIntValue(offsets.1) == end
  }

  /** The check sequence accepts exactly the entries `Describes` characterises, and yields that description. */
  lemma CheckEntryAccepts(name: string, entry: Json, dataBase: nat, size: nat, e: Entry)
    ensures CheckEntry(name, entry, dataBase, size) == Ok(e) <==> Describes(name, entry, dataBase, size, e)
  {
    if CheckEntry(name, entry, dataBase, size) == Ok(e) {
      AcceptedDescribed(name, entry, dataBase, size, e);
    }
    if Describes(name, entry, dataBase, size, e) {
      DescribedAccepted(name, entry, dataBase, size, e);
    }
  }

  /** What the checks accept is described field by field. */
  lemma AcceptedDescribed(name: string, entry: Json, dataBase: nat, size: nat, e: Entry)
    requires CheckEntry(name, entry, dataBase, size) == Ok(e)
    ensures Describes(name, entry, dataBase, size, e)
  {
  }

  /** An entry described field by field passes every check, yielding the description. */
  lemma DescribedAccepted(name: string, entry: Json, dataBase: nat, size: nat, e: Entry)
    requires Describes(name, entry, dataBase, size, e)
    ensures CheckEntry(name, entry, dataBase, size) == Ok(e)
  {
    var shape := Lookup(entry.members, "shape").value;
    assert ValidShape(shape);
    assert ShapeDims(shape) == e.shape;
  }

  /**
   * The dtype is checked before the shape and the offsets: an entry with all
   * three fields and a hashable dtype outside the table is refused as an
   * unsupported dtype, whatever its shape and offsets.
   */
  lemma UnknownDtypeRefusedFirst(name: string, entry: Json, dataBase: nat, size: nat)
    requires entry.JObj?
    requires Lookup(entry.members, "dtype").Some? && Lookup(entry.members, "shape").Some?
    requires Lookup(entry.members, "data_offsets").Some? && Unpack2(Lookup(entry.members, "data_offsets").value).Some?
    requires Hashable(Lookup(entry.members, "dtype").value)
    requires !(Lookup(entry.members, "dtype").value.JStr? && Lookup(entry.members, "dtype").value.s in CODES)
    ensures CheckEntry(name, entry, dataBase, size) == Err(UnsupportedDtype(name))
  {
  }

  /** The check reader.py applies to one header entry, for a given data section and file size. */
  type Check = (string, Json) -> Result<Entry, ReaderError>

  /**
   * The `for name, entry in meta.items()` loop, over any per-entry check:
   * entries are checked in order and stored; the first refused entry ends
   * the loop with its error, leaving the entries before it stored.
   */
  function FillBy(check: Check, items: seq<(string, Json)>, d: Dict<Entry>): (r: (Dict<Entry>, Option<ReaderError>))
  {
    if items == [] then (d, None)
    else
      match check(items[0].0, items[0].1)
      case Err(e) => (d, Some(e))
      case Ok(e) => FillBy(check, items[1..], d.Put(items[0].0, e))
  }

  /** The check of one entry against the data section starting at `dataBase` in a file of `size` bytes. */
  function Checker(dataBase: nat, size: nat): Check
  {
    (name, entry) => CheckEntry(name, entry, dataBase, size)
  }

  /** The fill loop of _parse_header, with reader.py's own entry check. */
  function Fill(items: seq<(string, Json)>, dataBase: nat, size: nat, d: Dict<Entry>): (Dict<Entry>, Option<ReaderError>)
  {
    FillBy(Checker(dataBase, size), items, d)
  }

  /** One round of the fill loop: the i-th item is checked, then stored or reported. */
  lemma FillStep(items: seq<(string, Json)>, i: nat, dataBase: nat, size: nat, d: Dict<Entry>)
    requires i < |items|
    ensures var r := CheckEntry(items[i].0, items[i].1, dataBase, size);
      Fill(items[i..], dataBase, size, d) ==
        if r.Err? then (d, Some(r.error)) else Fill(items[i + 1..], dataBase, size, d.Put(items[i].0, r.value))
  {
    assert items[i..][1..] == items[i + 1..];
  }

  /**
   * _parse_header, from the mapped bytes and the entries already held: the
   * file-level checks come first, in this order, and leave the table alone.
   */
  function ParseHeaderSpec(mm: seq<byte>, loads: seq<byte> -> Option<Json>, d: Dict<Entry>): (r: (Dict<Entry>, Option<ReaderError>))
    ensures |mm| < 8 ==> r == (d, Some(FileTooSmall))
    ensures |mm| >= 8 && HeaderEnd(mm) > |mm| ==> r == (d, Some(HeaderExceedsFile))
    ensures r.1.None? ==> |mm| >= 8 && HeaderEnd(mm) <= |mm| && loads(mm[8..HeaderEnd(mm)]).Some?
  {
    if |mm| < 8 then (d, Some(FileTooSmall))
    else if HeaderEnd(mm) > |mm| then (d, Some(HeaderExceedsFile))
    else
      match loads(mm[8..HeaderEnd(mm)])
      case None => (d, Some(InvalidHeaderJson))
      case Some(meta) =>
        if !meta.JObj? then (d, Some(HeaderNotDict))
        else Fill(meta.members, HeaderEnd(mm), |mm|, d)
  }

  /** An entry stored under `key` that lies inside a file of `size` bytes and spans exactly its data. */
  predicate EntryInFile(key: string, e: Entry, dataBase: nat, size: nat)
  {
    && e.name == key && ItemSize(e.dtype).Some?
    && dataBase <= e.absStart <= e.absEnd <= size
    && e.absEnd - e.absStart == Prod(e.shape) * ItemSize(e.dtype).value
  }

  ghost predicate TableInFile(d: Dict<Entry>, dataBase: nat, size: nat)
  {
    d.Valid() && forall k :: k in d.values ==> EntryInFile(k, d.values[k], dataBase, size)
  }

  /** Storing an entry that lies inside the file keeps the whole table inside the file. */
  lemma PutInFile(d: Dict<Entry>, key: string, e: Entry, dataBase: nat, size: nat)
    requires TableInFile(d, dataBase, size) && EntryInFile(key, e, dataBase, size)
    ensures TableInFile(d.Put(key, e), dataBase, size)
  {
  }

  /** Filling with a check that only accepts entries inside the file keeps the table inside the file. */
  lemma {:induction false} FillInFile(check: Check, items: seq<(string, Json)>, dataBase: nat, size: nat, d: Dict<Entry>)
    requires forall name, entry :: check(name, entry).Ok? ==> EntryInFile(name, check(name, entry).value, dataBase, size)
    requires TableInFile(d, dataBase, size)
    ensures TableInFile(FillBy(check, items, d).0, dataBase, size)
  {
    if items != [] {
      var r := check(items[0].0, items[0].1);
      if r.Ok? {
        PutInFile(d, items[0].0, r.value, dataBase, size);
        FillInFile(check, items[1..], dataBase, size, d.Put(items[0].0, r.value));
      }
    }
  }

  /**
   * Every entry of a freshly opened file lies in the data section:
   * header_end <= abs_start <= abs_end <= size, spanning exactly its bytes.
   */
  lemma OpenedEntriesInFile(mm: seq<byte>, loads: seq<byte> -> Option<Json>)
    requires |mm| >= 8
    ensures TableInFile(ParseHeaderSpec(mm, loads, Empty()).0, HeaderEnd(mm), |mm|)
  {
    if HeaderEnd(mm) <= |mm| && loads(mm[8..HeaderEnd(mm)]).Some? && loads(mm[8..HeaderEnd(mm)]).value.JObj? {
      var check := Checker(HeaderEnd(mm), |mm|);
      forall name, entry | check(name, entry).Ok? ensures EntryInFile(name, check(name, entry).value, HeaderEnd(mm), |mm|) { }
      FillInFile(check, loads(mm[8..HeaderEnd(mm)]).value.members, HeaderEnd(mm), |mm|, Empty());
    }
  }

  /** The names of a header's items, in header order. */
  function Names(items: seq<(string, Json)>): (ns: seq<string>)
    ensures |ns| == |items| && forall k :: 0 <= k < |items| ==> ns[k] == items[k].0
  {
    seq(|items|, k requires 0 <= k < |items| => items[k].0)
  }

  /** When every entry is accepted, filling raises nothing. */
  lemma {:induction false} FillAccepts(check: Check, items: seq<(string, Json)>, d: Dict<Entry>)
    requires forall k :: 0 <= k < |items| ==> check(items[k].0, items[k].1).Ok?
    ensures FillBy(check, items, d).1 == None
  {
    if items != [] {
      var rest := items[1..];
      forall k | 0 <= k < |rest| ensures check(rest[k].0, rest[k].1).Ok? {
        assert rest[k] == items[k + 1];
      }
      FillAccepts(check, rest, d.Put(items[0].0, check(items[0].0, items[0].1).value));
    }
  }

  /**
   * keys() iterate in header order: when every entry is accepted and the
   * names are distinct and new, filling a table lists its keys followed by
   * exactly the header's names, in the header's order.
   */
  lemma {:induction false} FillKeepsHeaderOrder(check: Check, items: seq<(string, Json)>, d: Dict<Entry>)
    requires d.Valid()
    requires forall k :: 0 <= k < |items| ==> check(items[k].0, items[k].1).Ok?
    requires forall i, j :: 0 <= i < j < |items| ==> items[i].0 != items[j].0
    requires forall k :: 0 <= k < |items| ==> items[k].0 !in d.values
    ensures FillBy(check, items, d).0.keys == d.keys + Names(items)
  {
    if items == [] {
      assert d.keys + Names(items) == d.keys;
    } else {
      var d' := d.Put(items[0].0, check(items[0].0, items[0].1).value);
      FillByHead(check, items, d);
      OrderTail(check, items, d, d');
      FillKeepsHeaderOrder(check, items[1..], d');
      NamesCons(items);
      AppendOne(d.keys, items[0].0, Names(items[1..]));
    }
  }

  /** An accepted first item is stored before the rest are filled. */
  lemma FillByHead(check: Check, items: seq<(string, Json)>, d: Dict<Entry>)
    requires items != [] && check(items[0].0, items[0].1).Ok?
    ensures FillBy(check, items, d) == FillBy(check, items[1..], d.Put(items[0].0, check(items[0].0, items[0].1).value))
  {
  }

  /** Appending one name then a list is appending the list with that name in front. */
  lemma AppendOne(a: seq<string>, x: string, b: seq<string>)
    ensures (a + [x]) + b == a + ([x] + b)
  {
  }

  /** The conditions of FillKeepsHeaderOrder carry over to the tail, once the head is stored as a new last key. */
  lemma OrderTail(check: Check, items: seq<(string, Json)>, d: Dict<Entry>, d': Dict<Entry>)
    requires items != [] && d.Valid()
    requires forall k :: 0 <= k < |items| ==> check(items[k].0, items[k].1).Ok?
    requires forall i, j :: 0 <= i < j < |items| ==> items[i].0 != items[j].0
    requires forall k :: 0 <= k < |items| ==> items[k].0 !in d.values
    requires d' == d.Put(items[0].0, check(items[0].0, items[0].1).value)
    ensures d'.Valid() && d'.keys == d.keys + [items[0].0]
    ensures forall k :: 0 <= k < |items[1..]| ==> check(items[1..][k].0, items[1..][k].1).Ok?
    ensures forall i, j :: 0 <= i < j < |items[1..]| ==> items[1..][i].0 != items[1..][j].0
    ensures forall k :: 0 <= k < |items[1..]| ==> items[1..][k].0 !in d'.values
  {
    var rest := items[1..];
    forall k | 0 <= k < |rest| ensures rest[k] == items[k + 1] { }
  }

  /** The names of a non-empty header are its first name, then the rest's. */
  lemma NamesCons(items: seq<(string, Json)>)
    requires items != []
    ensures Names(items) == [items[0].0] + Names(items[1..])
  {
  }

  /** With every entry accepted and the names distinct, each name ends up holding its own checked entry. */
  lemma {:induction false} FillStores(check: Check, items: seq<(string, Json)>, d: Dict<Entry>)
    requires forall k :: 0 <= k < |items| ==> check(items[k].0, items[k].1).Ok?
    requires forall i, j :: 0 <= i < j < |items| ==> items[i].0 != items[j].0
    ensures forall k :: 0 <= k < |items| ==>
      (items[k].0 in FillBy(check, items, d).0.values
       && FillBy(check, items, d).0.values[items[k].0] == check(items[k].0, items[k].1).value)
  {
    if items != [] {
      var name := items[0].0;
      var d' := d.Put(name, check(name, items[0].1).value);
      var rest := items[1..];
      forall k | 0 <= k < |rest| ensures check(rest[k].0, rest[k].1).Ok? && rest[k].0 != name {
        assert rest[k] == items[k + 1];
      }
      forall i, j | 0 <= i < j < |rest| ensures rest[i].0 != rest[j].0 {
        assert rest[i] == items[i + 1] && rest[j] == items[j + 1];
      }
      FillStores(check, rest, d');
      FillKeeps(check, rest, d', name);
      forall k | 1 <= k < |items|
        ensures items[k].0 in FillBy(check, items, d).0.values
             && FillBy(check, items, d).0.values[items[k].0] == check(items[k].0, items[k].1).value
      {
        assert items[k] == rest[k - 1];
      }
    }
  }

  /** A key none of the remaining items names keeps its value through the fill. */
  lemma {:induction false} FillKeeps(check: Check, items: seq<(string, Json)>, d: Dict<Entry>, key: string)
    requires key in d.values
    requires forall k :: 0 <= k < |items| ==> items[k].0 != key
    ensures key in FillBy(check, items, d).0.values && FillBy(check, items, d).0.values[key] == d.values[key]
  {
    if items != [] {
      var r := check(items[0].0, items[0].1);
      if r.Ok? {
        forall k | 0 <= k < |items[1..]| ensures items[1..][k].0 != key {
          assert items[1..][k] == items[k + 1];
        }
        FillKeeps(check, items[1..], d.Put(items[0].0, r.value), key);
      }
    }
  }

  /** meta(name): the code, the shape, and the absolute byte range. */
  datatype Meta = Meta(dtype: string, shape: seq<nat>, dataOffsets: (nat, nat))

  /** What get() hands back: a NumPy array view, or a memoryview of the raw bytes. */
  datatype TensorData = NumpyView(arr: NpArray) | RawView(bytes: seq<byte>)

  class SafeTensorFile {
    /** The read-only mapping of the whole file. */
    var mm: seq<byte>
    var size: nat
    var entries: Dict<Entry>

    /** SafeTensorFile(path) followed by the mapping half of __enter__: no entries yet. */
    constructor (mapping: seq<byte>)
      ensures mm == mapping && size == |mapping| && entries == Empty()
      ensures Valid()
    {
      mm := mapping;
      size := |mapping|;
      entries := Empty();
    }

    /** The size is the mapping's length and every stored entry lies inside the file. */
    ghost predicate Valid()
      reads this
    {
      size == |mm| && TableInFile(entries, 0, size)
    }

    /** _parse_header, the validating half of __enter__. */
    method ParseHeader(loads: seq<byte> -> Option<Json>) returns (err: Option<ReaderError>)
      requires Valid()
      modifies this
      ensures Valid() && mm == old(mm) && size == old(size)
      ensures (entries, err) == ParseHeaderSpec(mm, loads, old(entries))
    {
      if size < 8 {
        return Some(FileTooSmall);
      }
      var headerEnd := HeaderEnd(mm);
      if headerEnd > size {
        return Some(HeaderExceedsFile);
      }
      var meta := loads(mm[8..headerEnd]);
      if meta.None? {
        return Some(InvalidHeaderJson);
      }
      if !meta.value.JObj? {
        return Some(HeaderNotDict);
      }
      err := FillEntries(meta.value.members, headerEnd);
    }

    /** The loop over meta.items(): validate each entry, store it, stop at the first refusal. */
    method FillEntries(items: seq<(string, Json)>, headerEnd: nat) returns (err: Option<ReaderError>)
      requires Valid()
      modifies this
      ensures Valid() && mm == old(mm) && size == old(size)
      ensures (entries, err) == Fill(items, headerEnd, size, old(entries))
    {
      ghost var spec := Fill(items, headerEnd, size, entries);
      for i := 0 to |items|
        invariant Valid() && mm == old(mm) && size == old(size)
        invariant Fill(items[i..], headerEnd, size, entries) == spec
      {
        var name := items[i].0;
        var checked := CheckEntry(name, items[i].1, headerEnd, size);
        FillStep(items, i, headerEnd, size, entries);
        if checked.Err? {
          return Some(checked.error);
        }
        PutInFile(entries, name, checked.value, 0, size);
        entries := entries.Put(name, checked.value);
      }
      err := None;
    }

    /** keys(): the stored names, each once, in insertion order. */
    function Keys(): (ks: seq<string>)
      reads this
      requires Valid()
      ensures forall k :: k in ks <==> k in entries.values
      ensures forall i, j :: 0 <= i < j < |ks| ==> ks[i] != ks[j]
    {
      entries.keys
    }

    /** meta(name): KeyError for an unknown name, else the entry's code, shape and absolute range. */
    function GetMeta(name: string): (r: Result<Meta, ReaderError>)
      reads this
      requires Valid()
      ensures r.Err? <==> name !in entries.values
      ensures r.Err? ==> r.error == NoSuchTensor(name)
      ensures r.Ok? ==> r.value.dtype in CODES && r.value.dataOffsets.0 <= r.value.dataOffsets.1 <= size
      ensures r.Ok? ==> r.value.dataOffsets.1 - r.value.dataOffsets.0 == Prod(r.value.shape) * ItemSize(r.value.dtype).value
    {
      if name !in entries.values then Err(NoSuchTensor(name))
      else
        var e := entries.values[name];
        Ok(Meta(e.dtype, e.shape, (e.absStart, e.absEnd)))
    }

    /**
     * get(name, as_numpy): KeyError for an unknown name. As a NumPy array it is
     * prod(shape) elements of the reader's element type for the code, starting
     * at the absolute start; as a memoryview it is the bytes of the absolute
     * range. Either way it comes with meta(name).
     */
    function Get(name: string, asNumpy: bool): (r: Result<(TensorData, Meta), ReaderError>)
      reads this
      requires Valid()
      ensures r.Err? <==> name !in entries.values
      ensures r.Ok? ==> GetMeta(name) == Ok(r.value.1)
      ensures r.Ok? && !asNumpy ==> r.value.0 == RawView(mm[r.value.1.dataOffsets.0 .. r.value.1.dataOffsets.1])
      ensures r.Ok? && asNumpy ==> r.value.0.NumpyView? && r.value.0.arr.shape == r.value.1.shape
      ensures r.Ok? && asNumpy ==> r.value.0.arr.data == mm[r.value.1.dataOffsets.0 .. r.value.1.dataOffsets.1]
      ensures r.Ok? && asNumpy ==> ReaderNpDType(r.value.1.dtype) == Some(r.value.0.arr.dtype)
    {
      if name !in entries.values then Err(NoSuchTensor(name))
      else
        var e := entries.values[name];
        var info := GetMeta(name).value;
        if asNumpy then
          TablesAgree(e.dtype);
          var npType := ReaderNpDType(e.dtype).value;
          var count := Prod(e.shape);
          Ok((NumpyView(NpArray(npType, e.shape, mm[e.absStart .. e.absStart + count * NpItemSize(npType)])), info))
        else
          Ok((RawView(mm[e.absStart .. e.absEnd]), info))
    }
  }
}

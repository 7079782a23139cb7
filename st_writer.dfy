/**
 * write_min (safetensors/write_min.py): validates every (array, code) item,
 * lays the arrays out back to back, then writes the 8-byte header length,
 * the compact JSON header and the raw bytes. The file system is a map from
 * path to contents; NumPy's C-order serialisation is the array's `data`.
 */
module SafetensorsPyWriter {
  import opened Wrappers
  import opened Bytes
  import opened ShapeMath
  import opened PyJson
  import opened SafetensorsTable

  /** The exceptions write_min raises. */
  datatype WriterError =
    | NameNotString        // ValueError "Tensor name must be a non-empty string"
    | UnhashableDtype      // TypeError from `dts not in _ITEMSIZE` on a list or dict
    | UnsupportedDtype     // ValueError "Unsupported dtype"
    | DtypeMismatch        // ValueError "Array dtype .. does not match declared .."
    | HeaderTooLong        // struct.error from struct.pack('<Q', ...) at 2^64 bytes or more

  /** One item's checks, in the order write_min makes them. */
  function CheckItem(name: Json, arr: NpArray, dts: Json): (r: Option<WriterError>)
    ensures r.None? <==> name.JStr? && name.s != [] && dts.JStr? && dts.s in CODES && arr.dtype == WriterNpDType(dts.s)
  {
    if !name.JStr? || name.s == [] then Some(NameNotString)
    else if !Hashable(dts) then Some(UnhashableDtype)
    else if !dts.JStr? || ItemSize(dts.s).None? then Some(UnsupportedDtype)
    else if arr.dtype != WriterNpDType(dts.s) then Some(DtypeMismatch)
    else None
  }

  /**
   * np.ascontiguousarray(arr): the same element type and C-order bytes, with
   * at least one dimension, so an array of rank 0 comes back with shape [1].
   */
  function AsContiguous(arr: NpArray): (c: NpArray)
    ensures c.dtype == arr.dtype && c.data == arr.data && |c.shape| >= 1
    ensures arr.shape != [] ==> c.shape == arr.shape
    ensures arr.shape == [] ==> c.shape == [1]
    ensures Prod(c.shape) == Prod(arr.shape) && (WellFormed(arr) ==> WellFormed(c))
  {
    if arr.shape == [] then NpArray(arr.dtype, [1], arr.data) else arr
  }

  /** A validated item and the byte range [start, end) the layout gives it in the data section. */
  datatype Placed = Placed(name: string, code: string, arr: NpArray, start: nat, end: nat)

  /** A check of one (name, array, code) item: None accepts it, and only when the name and the code are strings; Some(e) refuses it with e. */
  type ItemCheck = c: (Json, NpArray, Json) -> Option<WriterError> | forall name, arr, dts :: c(name, arr, dts).None? ==> name.JStr? && dts.JStr?
    witness (name, arr, dts) => CheckItem(name, arr, dts)

  /** The check write_min makes of each item. */
  const WriteMinCheck: ItemCheck := (name, arr, dts) => CheckItem(name, arr, dts)

  /**
   * The validation loop: each accepted item is placed at the cursor, which
   * then moves past its bytes; the first refused item is the error.
   */
  function Layout(items: seq<(Json, (NpArray, Json))>, cursor: nat): Result<seq<Placed>, WriterError>
  {
    LayoutBy(WriteMinCheck, items, cursor)
  }

  /** The validation loop under any item check; write_min's is CheckItem. */
  function LayoutBy(check: ItemCheck, items: seq<(Json, (NpArray, Json))>, cursor: nat): (r: Result<seq<Placed>, WriterError>)
    ensures r.Ok? ==> |r.value| == |items|
  {
    if items == [] then Ok([])
    else
      var (name, (arr, dts)) := items[0];
      if check(name, arr, dts).Some? then Err(check(name, arr, dts).value)
      else
        var rest := LayoutBy(check, items[1..], cursor + |arr.data|);
        if rest.Err? then rest
        else Ok([Placed(name.s, dts.s, AsContiguous(arr), cursor, cursor + |arr.data|)] + rest.value)
  }

  /** The header entry of one placed array. */
  function EntryJson(p: Placed): Json
  {
    JObj([("dtype", JStr(p.code)),
          ("shape", JArr(seq(|p.arr.shape|, k requires 0 <= k < |p.arr.shape| => JInt(p.arr.shape[k])))),
          ("data_offsets", JArr([JInt(p.start), JInt(p.end)]))])
  }

  /** The `entries` dict: one member per placed array, in item order. */
  function HeaderJson(ps: seq<Placed>): Json
  {
    JObj(seq(|ps|, i requires 0 <= i < |ps| => (ps[i].name, EntryJson(ps[i]))))
  }

  /** json.dumps(entries, separators=(',', ':')).encode('utf-8') */
  function HeaderBytes(ps: seq<Placed>): (hb: seq<byte>)
  {
    AsciiBytes(Dumps(HeaderJson(ps)))
  }

  /** The raw blobs concatenated in item order. */
  function Blobs(ps: seq<Placed>): (b: seq<byte>)
  {
    if ps == [] then [] else ps[0].arr.data + Blobs(ps[1..])
  }

  /** The whole file: length prefix, header, data section. */
  function FileImage(ps: seq<Placed>): (f: seq<byte>)
    requires |HeaderBytes(ps)| < TWO_64
  {
    PackLe(|HeaderBytes(ps)|, 8) + HeaderBytes(ps) + Blobs(ps)
  }

  /** Arrays placed back to back from `cursor`: each starts where the previous one ended and spans its own bytes. */
  ghost predicate Contiguous(ps: seq<Placed>, cursor: nat)
  {
    && (|ps| > 0 ==> ps[0].start == cursor)
    && (forall i :: 0 <= i < |ps| ==> ps[i].end - ps[i].start == |ps[i].arr.data|)
    && (forall i, j :: 0 <= i < j < |ps| && j == i + 1 ==> ps[j].start == ps[i].end)
  }

  /** Placement is contiguous from `cursor`: each array starts where the previous one ended, spanning its own bytes. */
  lemma {:induction false} LayoutContiguous(check: ItemCheck, items: seq<(Json, (NpArray, Json))>, cursor: nat)
    requires LayoutBy(check, items, cursor).Ok?
    ensures Contiguous(LayoutBy(check, items, cursor).value, cursor)
  {
    if items != [] {
      var arr := items[0].1.0;
      var ps := LayoutBy(check, items, cursor).value;
      var rest := LayoutBy(check, items[1..], cursor + |arr.data|).value;
      LayoutCons(check, items, cursor);
      LayoutContiguous(check, items[1..], cursor + |arr.data|);
      ContiguousCons(ps, rest, cursor);
    }
  }

  /** The layout of a non-empty list places the first item at the cursor, in front of the rest's layout. */
  lemma LayoutCons(check: ItemCheck, items: seq<(Json, (NpArray, Json))>, cursor: nat)
    requires items != [] && LayoutBy(check, items, cursor).Ok?
    ensures var arr := items[0].1.0;
      && check(items[0].0, arr, items[0].1.1).None?
      && LayoutBy(check, items[1..], cursor + |arr.data|).Ok?
      && LayoutBy(check, items, cursor).value
         == [Placed(items[0].0.s, items[0].1.1.s, AsContiguous(arr), cursor, cursor + |arr.data|)] + LayoutBy(check, items[1..], cursor + |arr.data|).value
  {
  }

  /** An array spanning its bytes from `cursor`, followed by arrays contiguous from its end, is contiguous from `cursor`. */
  lemma ContiguousCons(ps: seq<Placed>, rest: seq<Placed>, cursor: nat)
    requires ps != [] && ps[1..] == rest
    requires ps[0].start == cursor && ps[0].end == cursor + |ps[0].arr.data|
    requires Contiguous(rest, ps[0].end)
    ensures Contiguous(ps, cursor)
  {
    forall i | 1 <= i < |ps| ensures ps[i] == rest[i - 1] { }
    forall i, j | 0 <= i < j < |ps| && j == i + 1 ensures ps[j].start == ps[i].end {
      if i > 0 {
        assert ps[i] == rest[i - 1] && ps[j] == rest[j - 1];
      }
    }
  }

  /** The rest of a contiguous placement is contiguous from the first array's end. */
  lemma ContiguousTail(ps: seq<Placed>, cursor: nat)
    requires ps != [] && Contiguous(ps, cursor)
    ensures ps[0].end == cursor + |ps[0].arr.data|
    ensures Contiguous(ps[1..], cursor + |ps[0].arr.data|)
  {
    var rest := ps[1..];
    forall i | 0 <= i < |rest| ensures rest[i] == ps[i + 1] { }
    forall i, j | 0 <= i < j < |rest| && j == i + 1 ensures rest[j].start == rest[i].end {
      assert rest[i] == ps[i + 1] && rest[j] == ps[j + 1];
    }
  }

  /** The blobs of a contiguous placement run from `cursor` to the last array's end. */
  lemma {:induction false} ContiguousBlobsEnd(ps: seq<Placed>, cursor: nat)
    requires Contiguous(ps, cursor)
    ensures |Blobs(ps)| == if ps == [] then 0 else ps[|ps| - 1].end - cursor
  {
    if ps != [] {
      ContiguousTail(ps, cursor);
      ContiguousBlobsEnd(ps[1..], cursor + |ps[0].arr.data|);
      if |ps| > 1 {
        assert ps[1..][|ps[1..]| - 1] == ps[|ps| - 1];
      }
    }
  }

  /** Each placed array carries its item's name, code, element type and bytes, and its shape as np.ascontiguousarray gives it. */
  lemma {:induction false} LayoutRecords(items: seq<(Json, (NpArray, Json))>, cursor: nat)
    requires Layout(items, cursor).Ok?
    ensures var ps := Layout(items, cursor).value;
      forall i :: 0 <= i < |ps| ==> PlacedFrom(ps[i], items[i])
  {
    if items != [] {
      var arr := items[0].1.0;
      var ps := Layout(items, cursor).value;
      var rest := Layout(items[1..], cursor + |arr.data|).value;
      LayoutCons(WriteMinCheck, items, cursor);
      LayoutRecords(items[1..], cursor + |arr.data|);
      forall i | 0 <= i < |ps| ensures PlacedFrom(ps[i], items[i]) {
        if i > 0 {
          assert ps[i] == rest[i - 1] && items[i] == items[1..][i - 1];
        }
      }
    }
  }

  /** `p` carries the item's name, code and contiguous array, and the code is in the table with the array's element type. */
  predicate PlacedFrom(p: Placed, item: (Json, (NpArray, Json)))
  {
    && JStr(p.name) == item.0 && JStr(p.code) == item.1.1 && p.arr == AsContiguous(item.1.0)
    && p.code in CODES && p.arr.dtype == WriterNpDType(p.code)
  }

  /** Item i is the first one the check refuses, with error e. */
  predicate FirstRefused(check: ItemCheck, items: seq<(Json, (NpArray, Json))>, i: int, e: WriterError)
  {
    && 0 <= i < |items|
    && (forall j :: 0 <= j < i ==> check(items[j].0, items[j].1.0, items[j].1.1).None?)
    && check(items[i].0, items[i].1.0, items[i].1.1) == Some(e)
  }

  /** The layout fails exactly when the check refuses some item, and then with the first such item's error. */
  lemma {:induction false} LayoutRefuses(check: ItemCheck, items: seq<(Json, (NpArray, Json))>, cursor: nat)
    ensures LayoutBy(check, items, cursor).Err? <==> exists i :: 0 <= i < |items| && check(items[i].0, items[i].1.0, items[i].1.1).Some?
    ensures LayoutBy(check, items, cursor).Err? ==> exists i :: FirstRefused(check, items, i, LayoutBy(check, items, cursor).error)
  {
    if items != [] {
      var arr := items[0].1.0;
      var next := cursor + |arr.data|;
      LayoutRefuses(check, items[1..], next);
      LayoutHead(check, items, cursor);
      if check(items[0].0, items[0].1.0, items[0].1.1).Some? {
        assert FirstRefused(check, items, 0, LayoutBy(check, items, cursor).error);
      } else {
        forall i | 1 <= i < |items| ensures items[i] == items[1..][i - 1] { }
        if LayoutBy(check, items, cursor).Err? {
          var i :| FirstRefused(check, items[1..], i, LayoutBy(check, items, cursor).error);
          RefusedShift(check, items, i, LayoutBy(check, items, cursor).error);
        }
      }
    }
  }

  /** The first item decides: refused, it is the error; accepted, the layout fails exactly as the rest's does. */
  lemma LayoutHead(check: ItemCheck, items: seq<(Json, (NpArray, Json))>, cursor: nat)
    requires items != []
    ensures var c, rest := check(items[0].0, items[0].1.0, items[0].1.1), LayoutBy(check, items[1..], cursor + |items[0].1.0.data|);
      && (c.Some? ==> LayoutBy(check, items, cursor) == Err(c.value))
      && (c.None? ==> (LayoutBy(check, items, cursor).Err? <==> rest.Err?))
      && (c.None? && rest.Err? ==> LayoutBy(check, items, cursor) == rest)
  {
  }

  /** Behind an accepted first item, the first refusal of the rest is the first refusal of the whole. */
  lemma RefusedShift(check: ItemCheck, items: seq<(Json, (NpArray, Json))>, i: int, e: WriterError)
    requires items != [] && check(items[0].0, items[0].1.0, items[0].1.1).None?
    requires FirstRefused(check, items[1..], i, e)
    ensures FirstRefused(check, items, i + 1, e)
  {
    forall j | 1 <= j <= i + 1 ensures items[j] == items[1..][j - 1] { }
  }

  /** The file system: the contents of each path. */
  class FileSystem {
    var files: map<string, seq<byte>>

    constructor (initial: map<string, seq<byte>>)
      ensures files == initial
    {
      files := initial;
    }
  }

  /**
   * write_min(path, tensors). Validation finishes before the file is opened,
   * so a refused item leaves the file system as it was; an oversized header
   * fails after open('wb') has emptied the file.
   */
  method WriteMin(fs: FileSystem, path: string, tensors: seq<(Json, (NpArray, Json))>) returns (err: Option<WriterError>)
    modifies fs
    ensures Layout(tensors, 0).Err? ==> err == Some(Layout(tensors, 0).error) && fs.files == old(fs.files)
    ensures Layout(tensors, 0).Ok? && |HeaderBytes(Layout(tensors, 0).value)| >= TWO_64 ==>
      err == Some(HeaderTooLong) && fs.files == old(fs.files)[path := []]
    ensures Layout(tensors, 0).Ok? && |HeaderBytes(Layout(tensors, 0).value)| < TWO_64 ==>
      err == None && fs.files == old(fs.files)[path := FileImage(Layout(tensors, 0).value)]
  {
    var placed, cursor := ValidateAll(tensors);
    if placed.Err? {
      return Some(placed.error);
    }
    err := WriteImage(fs, path, placed.value);
  }

  /** The output half of write_min: open('wb') empties the file, then the prefix, the header and the blobs follow. */
  method WriteImage(fs: FileSystem, path: string, ps: seq<Placed>) returns (err: Option<WriterError>)
    modifies fs
    ensures |HeaderBytes(ps)| >= TWO_64 ==> err == Some(HeaderTooLong) && fs.files == old(fs.files)[path := []]
    ensures |HeaderBytes(ps)| < TWO_64 ==> err == None && fs.files == old(fs.files)[path := FileImage(ps)]
  {
    var headerBytes := AsciiBytes(Dumps(HeaderJson(ps)));
    var headerLen := |headerBytes|;
    fs.files := fs.files[path := []];
    if headerLen >= TWO_64 {
      return Some(HeaderTooLong);
    }
    var prefix := PackLe(headerLen, 8);
    Append(fs, path, prefix);
    Append(fs, path, headerBytes);
    WriteBlobs(fs, path, ps);
    assert [] + prefix + headerBytes + Blobs(ps) == FileImage(ps);
    err := None;
  }

  /** f.write(bytes) on the file open at `path`. */
  method Append(fs: FileSystem, path: string, bytes: seq<byte>)
    requires path in fs.files
    modifies fs
    ensures fs.files == old(fs.files)[path := old(fs.files[path]) + bytes]
  {
    fs.files := fs.files[path := fs.files[path] + bytes];
  }

  /** The output loop: each array's bytes, in item order. */
  method WriteBlobs(fs: FileSystem, path: string, ps: seq<Placed>)
    requires path in fs.files
    modifies fs
    ensures fs.files == old(fs.files)[path := old(fs.files[path]) + Blobs(ps)]
  {
    ghost var prefix := fs.files[path];
    assert ps[..0] == [];
    assert prefix + BlobsUpTo(ps, 0) == prefix;
    for i := 0 to |ps|
      invariant fs.files == old(fs.files)[path := prefix + BlobsUpTo(ps, i)]
    {
      BlobsUpToStep(ps, i);
      assert prefix + BlobsUpTo(ps, i + 1) == (prefix + BlobsUpTo(ps, i)) + ps[i].arr.data;
      Append(fs, path, ps[i].arr.data);
    }
    BlobsUpToAll(ps);
  }

  /**
   * The validation loop of write_min: the `entries` dict, the `raw_blobs`
   * list and the cursor are built item by item; here the placed arrays hold
   * both (HeaderJson and Blobs are read off them).
   */
  method ValidateAll(tensors: seq<(Json, (NpArray, Json))>) returns (r: Result<seq<Placed>, WriterError>, cursor: nat)
    ensures r == Layout(tensors, 0)
    ensures r.Ok? ==> cursor == |Blobs(r.value)|
  {
    var placed: seq<Placed> := [];
    cursor := 0;
    assert tensors[0..] == tensors;
    PrependedNone(Layout(tensors, 0));
    for i := 0 to |tensors|
      invariant cursor == |Blobs(placed)|
      invariant LayoutBy(WriteMinCheck, tensors, 0) == Prepended(placed, LayoutBy(WriteMinCheck, tensors[i..], cursor))
    {
      var (name, (arr, dts)) := tensors[i];
      var check := CheckItem(name, arr, dts);
      if check.Some? {
        LayoutStopsAt(WriteMinCheck, tensors, i, cursor, placed);
        return Err(check.value), cursor;
      }
      var carr := AsContiguous(arr);
      var p := Placed(name.s, dts.s, carr, cursor, cursor + |carr.data|);
      LayoutPlacesAt(WriteMinCheck, tensors, i, cursor, placed);
      BlobsAppend(placed, p);
      placed := placed + [p];
      cursor := cursor + |carr.data|;
    }
    assert placed + [] == placed;
    r := Ok(placed);
  }

  /** One round of the validation loop: item i is refused, or placed at the cursor in front of the rest. */
  lemma LayoutStep(check: ItemCheck, tensors: seq<(Json, (NpArray, Json))>, i: nat, cursor: nat)
    requires i < |tensors|
    ensures var (name, (arr, dts)) := tensors[i];
      LayoutBy(check, tensors[i..], cursor) ==
        if check(name, arr, dts).Some? then Err(check(name, arr, dts).value)
        else Prepended([Placed(name.s, dts.s, AsContiguous(arr), cursor, cursor + |arr.data|)], LayoutBy(check, tensors[i + 1..], cursor + |arr.data|))
  {
    assert tensors[i..][1..] == tensors[i + 1..];
  }

  /** A refused item ends the layout with its error. */
  lemma LayoutStopsAt(check: ItemCheck, tensors: seq<(Json, (NpArray, Json))>, i: nat, cursor: nat, placed: seq<Placed>)
    requires i < |tensors| && LayoutBy(check, tensors, 0) == Prepended(placed, LayoutBy(check, tensors[i..], cursor))
    requires check(tensors[i].0, tensors[i].1.0, tensors[i].1.1).Some?
    ensures LayoutBy(check, tensors, 0) == Err(check(tensors[i].0, tensors[i].1.0, tensors[i].1.1).value)
  {
    LayoutStep(check, tensors, i, cursor);
  }

  /** An accepted item moves from the rest of the layout to the end of the placed arrays. */
  lemma LayoutPlacesAt(check: ItemCheck, tensors: seq<(Json, (NpArray, Json))>, i: nat, cursor: nat, placed: seq<Placed>)
    requires i < |tensors| && LayoutBy(check, tensors, 0) == Prepended(placed, LayoutBy(check, tensors[i..], cursor))
    requires check(tensors[i].0, tensors[i].1.0, tensors[i].1.1).None?
    ensures var (name, (arr, dts)) := tensors[i];
      LayoutBy(check, tensors, 0) == Prepended(placed + [Placed(name.s, dts.s, AsContiguous(arr), cursor, cursor + |arr.data|)], LayoutBy(check, tensors[i + 1..], cursor + |arr.data|))
  {
    var (name, (arr, dts)) := tensors[i];
    var p := Placed(name.s, dts.s, AsContiguous(arr), cursor, cursor + |arr.data|);
    var rest := LayoutBy(check, tensors[i + 1..], cursor + |arr.data|);
    LayoutStep(check, tensors, i, cursor);
    PrependStep(LayoutBy(check, tensors, 0), placed, LayoutBy(check, tensors[i..], cursor), p, rest);
  }

  /** Prepending `placed` to `[p]` prepended to `rest` is prepending `placed + [p]`. */
  lemma PrependStep(whole: Result<seq<Placed>, WriterError>, placed: seq<Placed>, here: Result<seq<Placed>, WriterError>, p: Placed, rest: Result<seq<Placed>, WriterError>)
    requires whole == Prepended(placed, here) && here == Prepended([p], rest)
    ensures whole == Prepended(placed + [p], rest)
  {
    PrependedAssoc(placed, p, rest);
  }

  lemma PrependedNone(rest: Result<seq<Placed>, WriterError>)
    ensures Prepended([], rest) == rest
  {
    if rest.Ok? {
      assert [] + rest.value == rest.value;
    }
  }

  /** `front` followed by the result of the rest of the layout. */
  function Prepended(front: seq<Placed>, rest: Result<seq<Placed>, WriterError>): Result<seq<Placed>, WriterError>
  {
    if rest.Err? then rest else Ok(front + rest.value)
  }

  lemma PrependedAssoc(front: seq<Placed>, p: Placed, rest: Result<seq<Placed>, WriterError>)
    ensures Prepended(front, Prepended([p], rest)) == Prepended(front + [p], rest)
  {
    if rest.Ok? {
      assert front + ([p] + rest.value) == (front + [p]) + rest.value;
    }
  }

  lemma {:induction false} BlobsAppend(ps: seq<Placed>, p: Placed)
    ensures Blobs(ps + [p]) == Blobs(ps) + p.arr.data
  {
    if ps == [] {
      assert [p][1..] == [];
    } else {
      assert (ps + [p])[1..] == ps[1..] + [p];
      BlobsAppend(ps[1..], p);
    }
  }

  /** The blobs written by the first i iterations of the output loop. */
  function BlobsUpTo(ps: seq<Placed>, i: nat): seq<byte>
    requires i <= |ps|
  {
    Blobs(ps[..i])
  }

  lemma BlobsUpToStep(ps: seq<Placed>, i: nat)
    requires i < |ps|
    ensures BlobsUpTo(ps, i + 1) == BlobsUpTo(ps, i) + ps[i].arr.data
  {
    assert ps[..i + 1] == ps[..i] + [ps[i]];
    BlobsAppend(ps[..i], ps[i]);
  }

  lemma BlobsUpToAll(ps: seq<Placed>)
    ensures BlobsUpTo(ps, |ps|) == Blobs(ps)
  {
    assert ps[..|ps|] == ps;
  }

  /** A float32 scalar is placed as a one-element array: its header entry records shape [1]. */
  lemma ScalarPlacedWithShapeOne()
    ensures var items := [(JStr("s"), (NpArray(Float32, [], [0, 0, 128, 63]), JStr("F32")))];
      && Layout(items, 0) == Ok([Placed("s", "F32", NpArray(Float32, [1], [0, 0, 128, 63]), 0, 4)])
      && EntryJson(Layout(items, 0).value[0]).members[1] == ("shape", JArr([JInt(1)]))
  {
    var items := [(JStr("s"), (NpArray(Float32, [], [0, 0, 128, 63]), JStr("F32")))];
    assert WriteMinCheck(items[0].0, items[0].1.0, items[0].1.1) == CheckItem(items[0].0, items[0].1.0, items[0].1.1) == None;
    assert items[1..] == [] && LayoutBy(WriteMinCheck, items[1..], 4) == Ok([]);
    var p := Placed("s", "F32", AsContiguous(items[0].1.0), 0, 4);
    assert p.arr == NpArray(Float32, [1], [0, 0, 128, 63]);
    LayoutStep(WriteMinCheck, items, 0, 0);
    assert items[0..] == items && [p] + [] == [p];
    assert LayoutBy(WriteMinCheck, items, 0) == Ok([p]);
    assert Layout(items, 0).value[0] == p;
    var shape := seq(|p.arr.shape|, k requires 0 <= k < |p.arr.shape| => JInt(p.arr.shape[k]));
    assert shape == [JInt(1)];
    assert EntryJson(p).members[1] == ("shape", JArr(shape));
  }
}

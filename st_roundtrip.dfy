/**
 * The Python writer and reader together: a file that write_min produces is
 * opened by SafeTensorFile without error, lists the tensors in the order
 * they were given, and hands back every array with its element type, shape
 * and bytes unchanged.
 *
 * json.loads is a parameter of the reader; the one thing assumed of it is
 * that it parses the header json.dumps produced back into the same value.
 */
module SafetensorsRoundTrip {
  import opened Wrappers
  import opened Bytes
  import opened ShapeMath
  import opened PyJson
  import opened PyDicts
  import opened SafetensorsTable
  import opened SafetensorsPyWriter
  import opened SafetensorsPyReader

  /** The bytes of a file whose header bytes are `hb` and whose data section is `blobs`, as the writer lays them out. */
  function Image(hb: seq<byte>, blobs: seq<byte>): seq<byte>
    requires |hb| < TWO_64
  {
    PackLe(|hb|, 8) + hb + blobs
  }

  /** The writer's file image is the image of its header bytes and blobs. */
  lemma FileImageIs(ps: seq<Placed>)
    requires |HeaderBytes(ps)| < TWO_64
    ensures FileImage(ps) == Image(HeaderBytes(ps), Blobs(ps))
  {
  }

  /** An image: the 8-byte length reads back as the header's length, followed by the header and the data section. */
  lemma ImageParts(hb: seq<byte>, blobs: seq<byte>)
    requires |hb| < TWO_64
    ensures var img := Image(hb, blobs);
      && |img| == 8 + |hb| + |blobs|
      && HeaderEnd(img) == 8 + |hb|
      && img[8..8 + |hb|] == hb
      && img[8 + |hb|..] == blobs
  {
    var img := Image(hb, blobs);
    Pow256Eight();
    PackLeRoundTrip(|hb|, 8);
    assert img[..8] == PackLe(|hb|, 8);
  }

  /** Slicing an image's data section is slicing its blobs. */
  lemma ImageSlice(hb: seq<byte>, blobs: seq<byte>, s: nat, e: nat)
    requires |hb| < TWO_64
    requires s <= e <= |blobs|
    ensures var base := 8 + |hb|;
      base + e <= |Image(hb, blobs)| && Image(hb, blobs)[base + s..base + e] == blobs[s..e]
  {
    ImageParts(hb, blobs);
    var img, base := Image(hb, blobs), 8 + |hb|;
    assert img[base + s..base + e] == img[base..][s..e];
  }

  lemma SliceAfter(a: seq<byte>, b: seq<byte>, s: nat, e: nat)
    requires s <= e <= |b|
    ensures (a + b)[|a| + s..|a| + e] == b[s..e]
  {
  }

  /** Each placed array's bytes sit at its [start, end) range of a data section that begins at `cursor`. */
  predicate BlobsAtOffsets(ps: seq<Placed>, cursor: nat)
  {
    forall i :: 0 <= i < |ps| ==> BlobAt(ps, i, cursor)
  }

  /** Array i's bytes sit at its [start, end) range of the blobs, which begin at `cursor`. */
  predicate BlobAt(ps: seq<Placed>, i: nat, cursor: nat)
    requires i < |ps|
  {
    && cursor <= ps[i].start <= ps[i].end <= cursor + |Blobs(ps)|
    && Blobs(ps)[ps[i].start - cursor..ps[i].end - cursor] == ps[i].arr.data
  }

  /** Back-to-back placement puts each array's bytes at its own range of the concatenated blobs. */
  lemma {:induction false} ContiguousSlices(ps: seq<Placed>, cursor: nat)
    requires Contiguous(ps, cursor)
    ensures BlobsAtOffsets(ps, cursor)
  {
    if ps != [] {
      ContiguousTail(ps, cursor);
      ContiguousSlices(ps[1..], cursor + |ps[0].arr.data|);
      BlobsCons(ps, cursor);
    }
  }

  /** The layout puts each array's bytes at the range its header entry names. */
  lemma LayoutSlices(items: seq<(Json, (NpArray, Json))>, cursor: nat)
    requires Layout(items, cursor).Ok?
    ensures BlobsAtOffsets(Layout(items, cursor).value, cursor)
  {
    LayoutContiguous(WriteMinCheck, items, cursor);
    ContiguousSlices(Layout(items, cursor).value, cursor);
  }

  /** The first array's bytes lead the blobs, and the rest's ranges carry over from the tail. */
  lemma BlobsCons(ps: seq<Placed>, cursor: nat)
    requires ps != [] && Contiguous(ps, cursor)
    requires BlobsAtOffsets(ps[1..], cursor + |ps[0].arr.data|)
    ensures BlobsAtOffsets(ps, cursor)
  {
    ContiguousTail(ps, cursor);
    forall i | 0 <= i < |ps| ensures BlobAt(ps, i, cursor) {
      if i == 0 {
        BlobAtFirst(ps, cursor);
      } else {
        BlobAtLater(ps, i, cursor);
      }
    }
  }

  /** The first array's bytes open the blobs. */
  lemma BlobAtFirst(ps: seq<Placed>, cursor: nat)
    requires ps != [] && ps[0].start == cursor && ps[0].end == cursor + |ps[0].arr.data|
    ensures BlobAt(ps, 0, cursor)
  {
    var data := ps[0].arr.data;
    assert Blobs(ps) == data + Blobs(ps[1..]);
    assert Blobs(ps)[0..|data|] == data;
  }

  /** A later array's bytes sit in the blobs where they sit in the tail's, shifted by the first array's length. */
  lemma BlobAtLater(ps: seq<Placed>, i: nat, cursor: nat)
    requires 0 < i < |ps| && BlobAt(ps[1..], i - 1, cursor + |ps[0].arr.data|)
    ensures BlobAt(ps, i, cursor)
  {
    var data, rest := ps[0].arr.data, ps[1..];
    var next := cursor + |data|;
    var p := rest[i - 1];
    assert ps[i] == p;
    assert Blobs(ps) == data + Blobs(rest);
    SliceAfter(data, Blobs(rest), p.start - next, p.end - next);
  }

  /** The reader accepts the header entry the writer made for a well-formed array, reading back its code, shape and offsets. */
  lemma EntryAccepted(p: Placed, base: nat, size: nat)
    requires p.code in CODES && p.arr.dtype == WriterNpDType(p.code) && WellFormed(p.arr)
    requires p.start + |p.arr.data| == p.end && base + p.end <= size
    ensures CheckEntry(p.name, EntryJson(p), base, size) == Ok(PlacedEntry(p, base))
  {
    EntryDescribed(p, base, size);
    DescribedAccepted(p.name, EntryJson(p), base, size, PlacedEntry(p, base));
  }

  /** The header entry the writer made describes, field by field, the entry the reader should store. */
  lemma EntryDescribed(p: Placed, base: nat, size: nat)
    requires p.code in CODES && p.arr.dtype == WriterNpDType(p.code) && WellFormed(p.arr)
    requires p.start + |p.arr.data| == p.end && base + p.end <= size
    ensures Describes(p.name, EntryJson(p), base, size, PlacedEntry(p, base))
  {
    EntryFields(p);
    TablesAgree(p.code);
    var shape := Lookup(EntryJson(p).members, "shape").value;
    assert ListsDims(shape, p.arr.shape);
  }

  /** The three keys of a written entry look up its code, its dims as ints and its two offsets. */
  lemma EntryFields(p: Placed)
    ensures var m := EntryJson(p).members;
      && Lookup(m, "dtype") == Some(JStr(p.code))
      && Lookup(m, "shape") == Some(JArr(seq(|p.arr.shape|, k requires 0 <= k < |p.arr.shape| => JInt(p.arr.shape[k]))))
      && Lookup(m, "data_offsets") == Some(JArr([JInt(p.start), JInt(p.end)]))
  {
    var m := EntryJson(p).members;
    LookupFirst(m, "dtype", 0);
    LookupFirst(m, "shape", 1);
    LookupFirst(m, "data_offsets", 2);
  }

  /** The names of the items, as the writer's dict holds them (distinct keys). */
  predicate DistinctNames(tensors: seq<(Json, (NpArray, Json))>)
  {
    forall i, j :: 0 <= i < j < |tensors| ==> tensors[i].0 != tensors[j].0
  }

  /** The entry the reader should store for a placed array whose data section starts at `base`. */
  function PlacedEntry(p: Placed, base: nat): Entry
  {
    Entry(p.name, p.code, p.arr.shape, p.start, p.end, base + p.start, base + p.end)
  }

  /** What the layout guarantees of each placed array: a table code, the matching element type, and a range as long as its bytes. */
  predicate PlacedWell(ps: seq<Placed>)
  {
    forall k :: 0 <= k < |ps| ==> PlaceWell(ps[k])
  }

  /** One placed array: a table code, the matching element type, a well-formed array and a range as long as its bytes. */
  predicate PlaceWell(p: Placed)
  {
    p.code in CODES && p.arr.dtype == WriterNpDType(p.code) && WellFormed(p.arr) && p.end - p.start == |p.arr.data|
  }

  predicate PlacedNamesDistinct(ps: seq<Placed>)
  {
    forall i, j :: 0 <= i < j < |ps| ==> ps[i].name != ps[j].name
  }

  /** Laying out well-formed arrays places each one, made contiguous and under its own name, at its range of the blobs. */
  lemma LayoutWell(tensors: seq<(Json, (NpArray, Json))>)
    requires Layout(tensors, 0).Ok?
    requires forall i :: 0 <= i < |tensors| ==> WellFormed(tensors[i].1.0)
    ensures var ps := Layout(tensors, 0).value;
      && |ps| == |tensors| && PlacedWell(ps) && BlobsAtOffsets(ps, 0)
      && (forall i :: 0 <= i < |ps| ==> JStr(ps[i].name) == tensors[i].0 && ps[i].arr == AsContiguous(tensors[i].1.0))
      && (DistinctNames(tensors) ==> PlacedNamesDistinct(ps))
  {
    LayoutRecords(tensors, 0);
    LayoutContiguous(WriteMinCheck, tensors, 0);
    LayoutSlices(tensors, 0);
  }

  /** Every header entry the writer produced is accepted, in a file whose data section holds the blobs. */
  lemma PlacedEntriesAccepted(ps: seq<Placed>, base: nat, size: nat)
    requires PlacedWell(ps) && BlobsAtOffsets(ps, 0) && base + |Blobs(ps)| <= size
    ensures var items := HeaderJson(ps).members;
      |items| == |ps| &&
      forall k :: 0 <= k < |items| ==>
        items[k].0 == ps[k].name && CheckEntry(items[k].0, items[k].1, base, size) == Ok(PlacedEntry(ps[k], base))
  {
    forall k | 0 <= k < |ps|
      ensures CheckEntry(ps[k].name, EntryJson(ps[k]), base, size) == Ok(PlacedEntry(ps[k], base))
    {
      assert BlobAt(ps, k, 0);
      EntryAccepted(ps[k], base, size);
    }
  }

  /** Opening the image of well-placed arrays with distinct names, under a header `hb` that json.loads reads as the writer's dict: no error, their names in order, each with its entry. */
  lemma PlacedHeaderParses(ps: seq<Placed>, hb: seq<byte>, loads: seq<byte> -> Option<Json>) returns (d: Dict<Entry>)
    requires PlacedWell(ps) && BlobsAtOffsets(ps, 0) && PlacedNamesDistinct(ps)
    requires |hb| < TWO_64 && loads(hb) == Some(HeaderJson(ps))
    ensures ParseHeaderSpec(Image(hb, Blobs(ps)), loads, Empty()) == (d, None)
    ensures |d.keys| == |ps| && forall i :: 0 <= i < |ps| ==> d.keys[i] == ps[i].name
    ensures forall i :: 0 <= i < |ps| ==> ps[i].name in d.values && d.values[ps[i].name] == PlacedEntry(ps[i], 8 + |hb|)
  {
    var size := ImageHeader(ps, hb, loads);
    d := PlacedFill(ps, 8 + |hb|, size);
  }

  /** Filling an empty table from the writer's header members, in a file whose data section holds the blobs. */
  lemma PlacedFill(ps: seq<Placed>, base: nat, size: nat) returns (d: Dict<Entry>)
    requires PlacedWell(ps) && BlobsAtOffsets(ps, 0) && PlacedNamesDistinct(ps)
    requires base + |Blobs(ps)| <= size
    ensures Fill(HeaderJson(ps).members, base, size, Empty()) == (d, None)
    ensures |d.keys| == |ps| && forall i :: 0 <= i < |ps| ==> d.keys[i] == ps[i].name
    ensures forall i :: 0 <= i < |ps| ==> ps[i].name in d.values && d.values[ps[i].name] == PlacedEntry(ps[i], base)
  {
    var items := HeaderJson(ps).members;
    PlacedEntriesAccepted(ps, base, size);
    var es := seq(|ps|, k requires 0 <= k < |ps| => PlacedEntry(ps[k], base));
    d := FillAllAccepted(items, base, size, es);
    forall i | 0 <= i < |ps| ensures d.keys[i] == ps[i].name {
      assert d.keys[i] == items[i].0;
    }
    forall i | 0 <= i < |ps| ensures ps[i].name in d.values && d.values[ps[i].name] == PlacedEntry(ps[i], base) {
      assert items[i].0 == ps[i].name && es[i] == PlacedEntry(ps[i], base);
    }
  }

  /**
   * Opening a written file: no error, the keys are the written names in the
   * written order, and each name holds the entry describing its array at its
   * place after the header.
   */
  lemma WrittenHeaderParses(tensors: seq<(Json, (NpArray, Json))>, loads: seq<byte> -> Option<Json>) returns (d: Dict<Entry>)
    requires Layout(tensors, 0).Ok? && DistinctNames(tensors)
    requires forall i :: 0 <= i < |tensors| ==> WellFormed(tensors[i].1.0)
    requires |HeaderBytes(Layout(tensors, 0).value)| < TWO_64
    requires loads(HeaderBytes(Layout(tensors, 0).value)) == Some(HeaderJson(Layout(tensors, 0).value))
    ensures ParseHeaderSpec(FileImage(Layout(tensors, 0).value), loads, Empty()) == (d, None)
    ensures |d.keys| == |tensors|
    ensures forall i :: 0 <= i < |tensors| ==> JStr(d.keys[i]) == tensors[i].0
    ensures var ps := Layout(tensors, 0).value;
      forall i :: 0 <= i < |ps| ==> ps[i].name in d.values && d.values[ps[i].name] == PlacedEntry(ps[i], 8 + |HeaderBytes(ps)|)
  {
    var ps := Layout(tensors, 0).value;
    LayoutWell(tensors);
    FileImageIs(ps);
    d := PlacedHeaderParses(ps, HeaderBytes(ps), loads);
    forall i | 0 <= i < |tensors| ensures JStr(d.keys[i]) == tensors[i].0 {
      assert d.keys[i] == ps[i].name;
    }
  }

  /** Opening an image reaches the fill of the header's members, with the data section after the header. */
  lemma ImageHeader(ps: seq<Placed>, hb: seq<byte>, loads: seq<byte> -> Option<Json>) returns (size: nat)
    requires |hb| < TWO_64 && loads(hb) == Some(HeaderJson(ps))
    ensures size == |Image(hb, Blobs(ps))| && 8 + |hb| + |Blobs(ps)| == size
    ensures ParseHeaderSpec(Image(hb, Blobs(ps)), loads, Empty()) == Fill(HeaderJson(ps).members, 8 + |hb|, size, Empty())
  {
    ImageParts(hb, Blobs(ps));
    size := |Image(hb, Blobs(ps))|;
  }

  /** Filling an empty table with entries that are all accepted, under distinct names. */
  lemma FillAllAccepted(items: seq<(string, Json)>, base: nat, size: nat, es: seq<Entry>) returns (d: Dict<Entry>)
    requires |es| == |items|
    requires forall k :: 0 <= k < |items| ==> CheckEntry(items[k].0, items[k].1, base, size) == Ok(es[k])
    requires forall i, j :: 0 <= i < j < |items| ==> items[i].0 != items[j].0
    ensures Fill(items, base, size, Empty()) == (d, None)
    ensures d.keys == Names(items)
    ensures forall k :: 0 <= k < |items| ==> items[k].0 in d.values && d.values[items[k].0] == es[k]
  {
    var check := Checker(base, size);
    FillAccepts(check, items, Empty());
    FillKeepsHeaderOrder(check, items, Empty());
    FillStores(check, items, Empty());
    d := Fill(items, base, size, Empty()).0;
    assert Empty<Entry>().keys + Names(items) == Names(items);
  }

  /** get() on one stored entry whose range holds a well-formed array's bytes gives that array back. */
  lemma StoredArrayReadBack(f: SafeTensorFile, p: Placed, base: nat)
    requires f.Valid() && p.name in f.entries.values && f.entries.values[p.name] == PlacedEntry(p, base)
    requires p.code in CODES && p.arr.dtype == WriterNpDType(p.code) && WellFormed(p.arr)
    requires p.end - p.start == |p.arr.data|
    requires base + p.end <= |f.mm| && f.mm[base + p.start..base + p.end] == p.arr.data
    ensures f.Get(p.name, true).Ok? && f.Get(p.name, true).value.0 == NumpyView(p.arr)
    ensures f.Get(p.name, false).Ok? && f.Get(p.name, false).value.0 == RawView(p.arr.data)
  {
    TablesAgree(p.code);
  }

  /**
   * Reading back: on a written file whose header has been parsed, get(name)
   * gives each written array with its element type and bytes, and its shape
   * as written (a rank-0 array comes back with shape [1]); the memoryview of
   * its range holds its bytes.
   */
  lemma WrittenArraysReadBack(f: SafeTensorFile, tensors: seq<(Json, (NpArray, Json))>, loads: seq<byte> -> Option<Json>)
    requires Layout(tensors, 0).Ok? && DistinctNames(tensors)
    requires forall i :: 0 <= i < |tensors| ==> WellFormed(tensors[i].1.0)
    requires |HeaderBytes(Layout(tensors, 0).value)| < TWO_64
    requires loads(HeaderBytes(Layout(tensors, 0).value)) == Some(HeaderJson(Layout(tensors, 0).value))
    requires f.Valid() && f.mm == FileImage(Layout(tensors, 0).value)
    requires f.entries == ParseHeaderSpec(f.mm, loads, Empty()).0
    ensures forall i :: 0 <= i < |tensors| ==>
      && tensors[i].0.JStr?
      && f.Get(tensors[i].0.s, true).Ok? && f.Get(tensors[i].0.s, true).value.0 == NumpyView(AsContiguous(tensors[i].1.0))
      && f.Get(tensors[i].0.s, false).Ok? && f.Get(tensors[i].0.s, false).value.0 == RawView(tensors[i].1.0.data)
  {
    var ps := Layout(tensors, 0).value;
    var hb := HeaderBytes(ps);
    LayoutWell(tensors);
    FileImageIs(ps);
    var d := PlacedHeaderParses(ps, hb, loads);
    assert f.entries == d;
    forall i | 0 <= i < |tensors|
      ensures tensors[i].0.JStr?
      ensures f.Get(tensors[i].0.s, true).Ok? && f.Get(tensors[i].0.s, true).value.0 == NumpyView(AsContiguous(tensors[i].1.0))
      ensures f.Get(tensors[i].0.s, false).Ok? && f.Get(tensors[i].0.s, false).value.0 == RawView(tensors[i].1.0.data)
    {
      PlacedReadBack(f, ps, hb, i);
    }
  }

  /** get() on the i-th array of a parsed file image gives that array back. */
  lemma PlacedReadBack(f: SafeTensorFile, ps: seq<Placed>, hb: seq<byte>, i: nat)
    requires i < |ps| && PlacedWell(ps) && BlobsAtOffsets(ps, 0) && |hb| < TWO_64
    requires f.Valid() && f.mm == Image(hb, Blobs(ps))
    requires ps[i].name in f.entries.values && f.entries.values[ps[i].name] == PlacedEntry(ps[i], 8 + |hb|)
    ensures f.Get(ps[i].name, true).Ok? && f.Get(ps[i].name, true).value.0 == NumpyView(ps[i].arr)
    ensures f.Get(ps[i].name, false).Ok? && f.Get(ps[i].name, false).value.0 == RawView(ps[i].arr.data)
  {
    assert BlobAt(ps, i, 0) && PlaceWell(ps[i]);
    PlacedRange(ps, hb, i);
    StoredArrayReadBack(f, ps[i], 8 + |hb|);
  }

  /** The i-th array's bytes sit in the image at its range after the header. */
  lemma PlacedRange(ps: seq<Placed>, hb: seq<byte>, i: nat)
    requires i < |ps| && BlobAt(ps, i, 0) && |hb| < TWO_64
    ensures var p, base := ps[i], 8 + |hb|;
      base + p.end <= |Image(hb, Blobs(ps))| && Image(hb, Blobs(ps))[base + p.start..base + p.end] == p.arr.data
  {
    var p := ps[i];
    ImageSlice(hb, Blobs(ps), p.start, p.end);
  }
}

# A verified model of the inference engine's tensor I/O and runtime helpers

This project models the core of a small CPU inference engine for transformer language models. It covers:

- **safetensors container format, Python side.**
  - The minimal writer (`write_min`) lays tensors out contiguously and serialises the header with `json.dumps`.
  - The reader (`SafeTensorFile`) validates every header entry eagerly when a file is opened, then serves `keys`, `meta` and `get` from the validated table.
  - Writer and reader are connected by a round-trip theorem: a file the writer produces opens without error, lists the tensors in the order given, and returns each one's dtype code, shape and bytes unchanged.
- **safetensors container format, C++ side.**
  - The engine's reader scans the header text with substring searches and keeps what it finds in a `std::map`.
  - It skips objects that lack a key, and returns names in sorted order.
  - It defers its size and bounds checks to `get_tensor`.
  - `size_t` arithmetic is modelled modulo 2^64 exactly where the source computes with it.
- **Tensor metadata.** Dtype widths and names, element counts, row-major strides, contiguity, view construction, and `reshape`'s element-count check and copy.
- **The key/value cache.** Its configuration, the flat offset formula, the shape and bounds checks of `append`, and the in-place write of one (layer, position) slot of both stores. Nothing else in the stores changes.
- **Weights.**
  - The engine's `ModelWeights` table: setters, range-checked getters and "not bound" errors.
  - The Python `bind_safetensors`: it fetches the embedding and six tensors per layer and checks each shape against the hyperparameters.
- **Half-precision widening on bit patterns** (`bv16` to `bv32`), following the binary16/binary32 encodings of section 3.4 of IEEE 754-2008:
  - the bf16 converter and its buffer loop;
  - the runtime's `f16_to_f32` lambda, including the loop that normalises subnormals.
- **The runtime context.** KV-cache initialisation, the token-id check, and the embedding-row lookup of a decode step.
- **The causal mask.** `apply_causal_mask` copies the score buffer and overwrites every element past `seq_pos` with -infinity.
- **The example drivers' string helpers.**
  - Both variants of `parse_int_field`: `text_gen`'s falls back on a conversion error, `fast_logits`' lets the exception escape.
  - `escape_quotes`.
  - The byte-level tokenizer fallback.
  - The generation loop's stop rule.

## Modelling choices

- **Bytes and buffers.** Bytes are integers in [0, 256). A mapped file is an immutable byte sequence. C++ buffers are `array<byte>`, and a view's data pointer is a buffer plus an offset.
- **Python values.** A decoded JSON header is a `Json` datatype with dicts kept in insertion order. `json.loads` together with the UTF-8 decode is a parameter of the reader. The round trip assumes only that this parameter parses the writer's output back into the value it was made from. `json.dumps` with `separators=(',', ':')` and `ensure_ascii` is modelled concretely, so the C++ scanner can be run on the writer's output. Python's `bool` counts as an `int`, as `isinstance` says.
- **C++ values.** Strings are sequences of characters that stand for bytes. A `std::map` is a strictly sorted association list. Exceptions are the error side of a `Result`.
- **Header length.** In the C++ reader, `8 + header_len` can wrap past the `size_t` guard, but that case is harmless: the `std::string` built from the header then throws `length_error`, so no out-of-range read follows (`SafetensorsCxxReader.HeaderLengthWrap`).
- **Where the design description and the code disagree, the model follows the code:**
  - The Python reader raises `ValueError` for every structural problem, with a message per cause, and `KeyError` for an unknown name. There is no separate error kind per cause.
  - The C++ reader does not validate eagerly. It skips malformed objects, lists names sorted rather than in file order, and checks sizes and bounds only in `get_tensor`.
  - Shape entries that are `true`/`false` pass the Python reader's `isinstance(x, int)` test.

## Model

| member | source | states |
|---|---|---|
| CoreTypes.DTypeBytes | include/infer_engine/core/types.hpp:19-24 | an element is 1, 2 or 4 bytes wide; 4 exactly for f32 and 1 exactly for i8 |
| CoreTypes.DTypeNameInjective | include/infer_engine/core/types.hpp:13-17 | no two types share a printable name |
| CoreTypes.Shape.Rank | include/infer_engine/core/types.hpp:29 | the rank is the number of dimensions |
| CoreTypes.Shape.Numel | include/infer_engine/core/types.hpp:30-33 | a scalar shape has one element, a shape with a zero dimension none, a shape of positive dimensions a positive count |
| Tensors.ComputeRowMajorStrides | include/infer_engine/core/tensor.hpp:9-19 | the backward loop yields, at each axis, the product of the later dimensions |
| Tensors.RowMajorStridesRecurrence | include/infer_engine/core/tensor.hpp:13-17 | the last stride is 1 and each earlier one is the next stride times the next dimension |
| Tensors.RowMajorOffsetInRange | include/infer_engine/core/tensor.hpp:9-19 | under row-major strides every in-range multi-index addresses an element inside [0, numel) |
| Tensors.TensorView.NBytes | include/infer_engine/core/tensor.hpp:35 | the byte size is numel times the item size whenever that product fits a size_t |
| Tensors.MakeView | include/infer_engine/core/tensor.hpp:71-78 | an empty stride argument gives a contiguous view, any other is kept; the view is contiguous exactly then or when the given strides are row-major |
| Tensors.Empty | include/infer_engine/core/tensor.hpp:50-59 | a fresh zeroed buffer of numel times item size bytes, viewed contiguously from its start |
| Tensors.Memcpy | include/infer_engine/core/tensor.hpp:64 | only the destination range changes, and it then holds the source bytes |
| Tensors.FromRaw | include/infer_engine/core/tensor.hpp:61-66 | a fresh contiguous tensor whose buffer equals the nbytes bytes at the source pointer |
| Reshape.Reshape | src/layers/ops/reshape.cpp:7-30 | fails exactly when the product of the new dimensions differs from the element count; otherwise a fresh contiguous tensor of the same type and byte size holding a copy of the input's bytes |
| KvCache.KvOffsetInStore | src/runtime/kv_cache.cpp:32-35 | for in-range indices the uint64 offset does not wrap and lies below the element count of a store |
| KvCache.KvOffsetInjective | src/runtime/kv_cache.cpp:32-35 | distinct in-range (layer, position, head, dim) tuples get distinct offsets |
| KvCache.AppendCheckAccepts | src/runtime/kv_cache.cpp:39-52 | append's checks pass exactly for an in-range layer and position with K and V both shaped [num_kv_heads, head_dim] |
| KvCache.SlotWriteEffect | src/runtime/kv_cache.cpp:67-82 | after a slot write, each element byte of the written (layer, position) is the matching byte of the source and every other element byte is unchanged |
| KvCache.KVCache.constructor | src/runtime/kv_cache.cpp:9-14 | two distinct zeroed stores of shape [num_layers, max_seq_len, num_kv_heads, head_dim] |
| KvCache.KVCache.KView | src/runtime/kv_cache.cpp:85-87 | the key view has the store shape and type and is contiguous |
| KvCache.KVCache.VView | src/runtime/kv_cache.cpp:89-91 | the value view has the store shape and type and is contiguous |
| KvCache.KVCache.Append | src/runtime/kv_cache.cpp:37-83 | every check runs before any write; a rejected append changes nothing; an accepted one overwrites exactly the (layer, position) slot of each store with K's and V's bytes |
| KvCache.WriteSlot | src/runtime/kv_cache.cpp:54-82 | the per-head copy loop writes exactly the slot, row by row, from the source bytes |
| KvCache.RowsProduct | src/runtime/kv_cache.cpp:65-74 | k rows of row_bytes bytes, counted row by row, are k * row_bytes bytes |
| ModelWeightsCxx.BoundOr | src/model/weights.cpp:6-11 | a getter returns the view exactly when its data pointer is set, and logic_error with the getter's message otherwise |
| ModelWeightsCxx.ModelWeights.constructor | include/infer_engine/model/weights.hpp:62-67 | a fresh object has every view empty, no layers and no owner |
| ModelWeightsCxx.ModelWeights.Clone | include/infer_engine/model/weights.hpp:36-68 | the implicit copy has the same views, layers and owner |
| ModelWeightsCxx.ModelWeights.GetTokenEmbeddings | src/model/weights.cpp:6-11 | succeeds exactly when the token embedding is bound, and then returns it |
| ModelWeightsCxx.ModelWeights.GetLmHead | src/model/weights.cpp:13-18 | succeeds exactly when the lm head is bound, and then returns it |
| ModelWeightsCxx.ModelWeights.GetFinalNorm | src/model/weights.cpp:20-25 | succeeds exactly when the final norm is bound, and then returns it |
| ModelWeightsCxx.ModelWeights.GetLayerWeights | src/model/weights.cpp:27-32 | succeeds exactly for an index in [0, num_layers) and returns that layer; out_of_range otherwise |
| ModelWeightsCxx.ModelWeights.NumLayers | include/infer_engine/model/weights.hpp:57 | the layer count is the length of the layer list |
| ModelWeightsCxx.ModelWeights.SetTokenEmbeddings | include/infer_engine/model/weights.hpp:47 | the getter then answers for the new view; nothing else changes |
| ModelWeightsCxx.ModelWeights.SetLmHead | include/infer_engine/model/weights.hpp:48 | the getter then answers for the new view; nothing else changes |
| ModelWeightsCxx.ModelWeights.SetFinalNorm | include/infer_engine/model/weights.hpp:49 | the getter then answers for the new view; nothing else changes |
| ModelWeightsCxx.ModelWeights.SetNumLayers | include/infer_engine/model/weights.hpp:50 | a negative count is refused with length_error and no change; otherwise exactly n empty layers |
| ModelWeightsCxx.ModelWeights.SetLayerWeights | include/infer_engine/model/weights.hpp:51-56 | refused exactly for an index outside [0, num_layers), with no change; otherwise that one layer is replaced and the getter returns it |
| ModelWeightsCxx.ModelWeights.SetOwner | include/infer_engine/model/weights.hpp:60 | only the owner changes |
| PyDicts.Dict.Put | safetensors/reader.py:261-269 | storing under a key sets that key's value, leaves every other key as it was, appends a new key at the end of the iteration order and keeps an existing key in place |
| PyDicts.Empty | safetensors/reader.py:134 | the empty dict is well formed and iterates nothing |
| PyJson.Lookup | safetensors/reader.py:234-236 | indexing a decoded object finds a value exactly when some member carries the key, and the value is one stored under it |
| PyJson.LookupFirst | safetensors/reader.py:234-236 | the member found is the first one carrying the key |
| PyJson.Unpack2 | safetensors/reader.py:236 | two-name unpacking succeeds exactly on a list, string or dict of length two, and a list gives its two items in order |
| PyJson.Hex4 | safetensors/write_min.py:75 | the four hex digits of a \uXXXX escape spell the code unit |
| PyJson.EscapeChar | safetensors/write_min.py:75 | ensure_ascii writes each character as printable ASCII, and as a single character exactly for printable ASCII other than the quote and the backslash |
| PyJson.Escape | safetensors/write_min.py:75 | an escaped string body is printable ASCII and no shorter than the string |
| PyJson.UnescapeChar | safetensors/reader.py:218 | decoding one escaped character, whatever follows, yields that character first |
| PyJson.UnescapePair | safetensors/reader.py:218 | an escaped high surrogate followed by an escaped low surrogate decodes to the character they encode |
| PyJson.Surrogates | safetensors/write_min.py:75 | a character above U+FFFF splits into a high and a low surrogate that recombine to it |
| PyJson.EscapeRoundTrip | safetensors/reader.py:218 | json.loads decodes what json.dumps escaped: the string comes back unchanged |
| PyJson.Quote | safetensors/write_min.py:75 | a string literal is ASCII text of at least the two quotes |
| PyJson.Dumps | safetensors/write_min.py:75 | compact json.dumps output is non-empty pure ASCII |
| PyJson.AsciiBytes | safetensors/write_min.py:75 | UTF-8 encoding of ASCII text is one byte per character, equal to its code point |
| PyJson.AsciiBytesRoundTrip | safetensors/reader.py:217-218 | decoding the header bytes as UTF-8 gives back the ASCII text that was encoded |
| SafetensorsTable.ItemSize | safetensors/reader.py:34-52 | a code has a width exactly when it is one of the thirteen table codes, and the width is 1, 2, 4 or 8 |
| SafetensorsTable.AsciiUpper | safetensors/reader.py:61 | upper-casing keeps the length and changes exactly the lower-case ASCII letters |
| SafetensorsTable.TablesAgree | safetensors/write_min.py:18-33 | for every table code the reader's element type is the one the writer demands, and its width is the table's width |
| SafetensorsTable.CodesUpper | safetensors/reader.py:61 | the table's codes are unchanged by upper-casing |
| SafetensorsPyReader.ProductOf | safetensors/reader.py:95-99 | the running product of the dimensions is their product |
| SafetensorsPyReader.ShapeDims | safetensors/reader.py:264 | list(map(int, shape)) keeps the length and gives each item's int value |
| SafetensorsPyReader.HeaderEnd | safetensors/reader.py:204-211 | the header ends 8 bytes plus the little-endian u64 length in, below 8 + 2^64 |
| SafetensorsPyReader.CheckEntry | safetensors/reader.py:227-269 | an accepted entry carries the name and a table code, and its absolute range lies in the data section and file and spans exactly numel times the item size bytes; every refusal names the entry |
| SafetensorsPyReader.CheckEntryAccepts | safetensors/reader.py:227-269 | the check sequence accepts exactly the entries whose fields describe a table code, the listed dims and two int offsets spanning the tensor's bytes inside the file, and returns that description |
| SafetensorsPyReader.AcceptedDescribed | safetensors/reader.py:227-269 | what the checks accept is described field by field |
| SafetensorsPyReader.DescribedAccepted | safetensors/reader.py:227-269 | an entry described field by field passes every check |
| SafetensorsPyReader.UnknownDtypeRefusedFirst | safetensors/reader.py:240-241 | a hashable dtype outside the table is refused as unsupported whatever the shape and offsets |
| SafetensorsPyReader.FillStep | safetensors/reader.py:227-269 | one round of the loop checks the next item, then stores it or stops with its error |
| SafetensorsPyReader.ParseHeaderSpec | safetensors/reader.py:200-225 | a file under 8 bytes and a header running past the end are refused in that order without touching the table; success needs a decodable header inside the file |
| SafetensorsPyReader.PutInFile | safetensors/reader.py:261-269 | storing an entry inside the file keeps the whole table inside the file |
| SafetensorsPyReader.FillInFile | safetensors/reader.py:227-269 | a loop whose check accepts only in-file entries keeps the table in the file |
| SafetensorsPyReader.OpenedEntriesInFile | safetensors/reader.py:200-269 | every entry of an opened file lies between the end of the header and the end of the file and spans exactly its bytes |
| SafetensorsPyReader.FillAccepts | safetensors/reader.py:227-269 | when every entry is accepted the loop raises nothing |
| SafetensorsPyReader.FillKeepsHeaderOrder | safetensors/reader.py:149-150 | with distinct accepted names, keys() lists the header's names in header order |
| SafetensorsPyReader.FillStores | safetensors/reader.py:261-269 | with distinct accepted names, each name holds its own checked entry |
| SafetensorsPyReader.FillKeeps | safetensors/reader.py:261-269 | a key no later item names keeps its entry through the loop |
| SafetensorsPyReader.SafeTensorFile.constructor | safetensors/reader.py:129-138 | a new reader holds the mapping and its size, and no entries |
| SafetensorsPyReader.SafeTensorFile.ParseHeader | safetensors/reader.py:200-225 | the new table and the error are those of the header specification; the mapping is unchanged and every entry lies in the file |
| SafetensorsPyReader.SafeTensorFile.FillEntries | safetensors/reader.py:227-269 | the loop leaves the table and error of the fill specification and keeps every entry in the file |
| SafetensorsPyReader.SafeTensorFile.Keys | safetensors/reader.py:149-150 | keys() lists exactly the stored names, each once |
| SafetensorsPyReader.SafeTensorFile.GetMeta | safetensors/reader.py:152-161 | KeyError exactly for an unknown name; otherwise a table code and an absolute range inside the file spanning numel times the item size |
| SafetensorsPyReader.SafeTensorFile.Get | safetensors/reader.py:163-197 | KeyError exactly for an unknown name; otherwise meta(name) together with the range's bytes, as a memoryview or as an array of the listed shape and the reader's element type for the code |
| SafetensorsPyWriter.CheckItem | safetensors/write_min.py:53-60 | an item passes exactly when its name is a non-empty string, its code is in the table and the array has the code's element type |
| SafetensorsPyWriter.AsContiguous | safetensors/write_min.py:63 | np.ascontiguousarray keeps element type and bytes, keeps a shape of rank one or more, and turns a rank-0 shape into [1] with the same element count |
| SafetensorsPyWriter.ScalarPlacedWithShapeOne | safetensors/write_min.py:63-71 | a float32 scalar is placed as a one-element array at offsets 0..4 and its header entry records shape [1] |
| SafetensorsPyWriter.LayoutBy | safetensors/write_min.py:52-73 | a successful validation loop places every item |
| SafetensorsPyWriter.LayoutContiguous | safetensors/write_min.py:70-73 | the arrays are placed back to back from the cursor, each spanning exactly its own bytes |
| SafetensorsPyWriter.LayoutCons | safetensors/write_min.py:52-73 | an accepted first item is placed at the cursor in front of the rest's layout |
| SafetensorsPyWriter.ContiguousBlobsEnd | safetensors/write_min.py:72-73 | the concatenated blobs run from the start cursor to the end of the last placed array |
| SafetensorsPyWriter.LayoutRecords | safetensors/write_min.py:67-72 | each placed array is its item's array as np.ascontiguousarray returns it (same element type and bytes; a rank-0 array gets shape [1]) under the item's name and code |
| SafetensorsPyWriter.LayoutRefuses | safetensors/write_min.py:52-60 | validation fails exactly when some item is refused, and then with the first refused item's error |
| SafetensorsPyWriter.LayoutHead | safetensors/write_min.py:52-60 | the first item decides: refused it is the error, accepted the outcome is the rest's |
| SafetensorsPyWriter.RefusedShift | safetensors/write_min.py:52-60 | behind an accepted item, the first refusal of the rest is the first refusal of the whole |
| SafetensorsPyWriter.FileSystem.constructor | safetensors/write_min.py:78 | the file system starts with the given contents |
| SafetensorsPyWriter.WriteMin | safetensors/write_min.py:36-85 | a refused item leaves every file as it was; an oversized header leaves the path emptied; otherwise the path holds the length prefix, the header and the blobs, with each array laid out as np.ascontiguousarray returns it (a rank-0 array is recorded with shape [1]) |
| SafetensorsPyWriter.WriteImage | safetensors/write_min.py:75-85 | the output half empties the file, then writes the prefix, header and blobs; nothing else changes |
| SafetensorsPyWriter.Append | safetensors/write_min.py:80-85 | f.write appends to the open file only |
| SafetensorsPyWriter.WriteBlobs | safetensors/write_min.py:84-85 | the output loop appends every blob in item order |
| SafetensorsPyWriter.ValidateAll | safetensors/write_min.py:48-73 | the validation loop yields the layout specification, and the cursor ends at the total blob length |
| SafetensorsPyWriter.LayoutStep | safetensors/write_min.py:52-73 | one round of the loop refuses the item or places it at the cursor |
| SafetensorsPyWriter.LayoutStopsAt | safetensors/write_min.py:53-60 | a refused item ends the loop with its error |
| SafetensorsPyWriter.LayoutPlacesAt | safetensors/write_min.py:67-73 | an accepted item joins the end of the placed arrays |
| SafetensorsPyWriter.BlobsAppend | safetensors/write_min.py:72 | appending a placed array appends its bytes to the blobs |
| SafetensorsPyWriter.BlobsUpToStep | safetensors/write_min.py:84-85 | one round of the output loop writes the next blob |
| SafetensorsPyWriter.BlobsUpToAll | safetensors/write_min.py:84-85 | after the last round every blob is written |
| SafetensorsRoundTrip.FileImageIs | safetensors/write_min.py:78-85 | the written file is the length prefix, the header bytes and the blobs |
| SafetensorsRoundTrip.ImageParts | safetensors/reader.py:204-225 | in a written image the 8-byte prefix reads back as the header length, the header follows it and the data section starts right after |
| SafetensorsRoundTrip.ImageSlice | safetensors/reader.py:256-257 | a range of the data section, shifted by the header end, is the same range of the blobs |
| SafetensorsRoundTrip.ContiguousSlices | safetensors/write_min.py:70-73 | back-to-back placement puts each array's bytes at its own range of the blobs |
| SafetensorsRoundTrip.LayoutSlices | safetensors/write_min.py:67-73 | the layout puts each array's bytes at the range its header entry names |
| SafetensorsRoundTrip.BlobsCons | safetensors/write_min.py:72-73 | the first array's bytes lead the blobs and the rest's ranges carry over |
| SafetensorsRoundTrip.BlobAtFirst | safetensors/write_min.py:70-72 | the first array's bytes open the blobs |
| SafetensorsRoundTrip.BlobAtLater | safetensors/write_min.py:70-73 | a later array's bytes keep their range, shifted by the first array's length |
| SafetensorsRoundTrip.EntryAccepted | safetensors/reader.py:227-269 | the reader accepts the entry the writer made for a well-formed array and reads back its code, shape and offsets |
| SafetensorsRoundTrip.EntryDescribed | safetensors/write_min.py:67-71 | a written entry describes, field by field, the entry the reader should store, with the shape of the contiguous copy (shape [1] for a rank-0 array) |
| SafetensorsRoundTrip.EntryFields | safetensors/write_min.py:67-71 | a written entry's three keys look up its code, its dims and its two offsets |
| SafetensorsRoundTrip.LayoutWell | safetensors/write_min.py:52-73 | laying out well-formed arrays places each one's contiguous copy (the array itself, or shape [1] for a rank-0 array) under its own name at its range of the blobs |
| SafetensorsRoundTrip.PlacedEntriesAccepted | safetensors/reader.py:227-269 | every written header entry is accepted when the data section holds the blobs |
| SafetensorsRoundTrip.PlacedHeaderParses | tests/test_safetensors_reader.py:11-19 | opening a written image raises nothing, lists the names in written order and stores each one's entry |
| SafetensorsRoundTrip.PlacedFill | safetensors/reader.py:227-269 | filling from the written header raises nothing, keeps the written order and stores each entry |
| SafetensorsRoundTrip.WrittenHeaderParses | tests/test_safetensors_reader.py:11-19 | write_min then open: no error, the keys are the written names in order, each with the entry of its contiguous copy after the header (shape [1] for a rank-0 array) |
| SafetensorsRoundTrip.ImageHeader | safetensors/reader.py:200-227 | opening an image reaches the loop over the header's members, with the data section after the header |
| SafetensorsRoundTrip.FillAllAccepted | safetensors/reader.py:227-269 | when all entries are accepted under distinct names, the loop raises nothing, keeps the header order and stores each entry |
| SafetensorsRoundTrip.StoredArrayReadBack | safetensors/reader.py:163-197 | get on an entry whose range holds a well-formed array's bytes gives that array back, and the memoryview gives its bytes |
| SafetensorsRoundTrip.WrittenArraysReadBack | tests/test_safetensors_reader.py:21-31 | after write_min and open, get gives every written array back with its element type and bytes, and its shape except that a rank-0 array comes back with shape [1] |
| SafetensorsRoundTrip.PlacedReadBack | safetensors/reader.py:163-197 | get on the i-th placed array of a parsed image gives that placed array (the contiguous copy) back |
| SafetensorsRoundTrip.PlacedRange | safetensors/reader.py:256-257 | the i-th array's bytes sit in the image at its range after the header |
| SafetensorsCxxReader.ParseDtype | src/io/safetensors_reader.cpp:16-26 | the four engine codes map to their own type, I32, I64, U8 and U32 fall back to F32, and any other code is refused with "Unsupported dtype" |
| SafetensorsCxxReader.ParsedWidthAgainstTable | src/io/safetensors_reader.cpp:22-35 | the width the reader assumes for an accepted code agrees with the safetensors item size except for I64 and U8 |
| SafetensorsCxxReader.ReadHeaderLen | src/io/safetensors_reader.cpp:85-90 | the shift-or loop over the first eight bytes yields their little-endian value, below 2^64 |
| SafetensorsCxxReader.HeaderText | src/io/safetensors_reader.cpp:80-98 | a file shorter than 8 bytes or whose header overruns it is refused; otherwise the data section starts at 8 + header_len within the file and the header text is header_len characters long |
| SafetensorsCxxReader.HeaderLengthWrap | src/io/safetensors_reader.cpp:92-97 | the size_t length guard is bypassed exactly by header lengths of 2^64 - 8 and above, which the string construction refuses; every other overrun is refused by the guard |
| SafetensorsCxxReader.ShapeItem | src/io/safetensors_reader.cpp:158-164 | a shape item yields at most one dimension and fails only with a conversion error |
| SafetensorsCxxReader.OffsetItem | src/io/safetensors_reader.cpp:180-186 | an offsets item yields at most one value and fails only with a conversion error |
| SafetensorsCxxReader.ParseList | src/io/safetensors_reader.cpp:155-165 | the getline loop converts the comma-separated items in order and stops at the first item whose conversion throws |
| SafetensorsCxxReader.CollectError | src/io/safetensors_reader.cpp:158-164 | an error from a list is the conversion error of one of its items |
| SafetensorsCxxReader.CollectBound | src/io/safetensors_reader.cpp:155-186 | when every item's values lie in a range, so does every value of the list |
| SafetensorsCxxReader.ItemRanges | src/io/safetensors_reader.cpp:163-184 | a converted shape item fits int64_t and a converted offset fits size_t |
| SafetensorsCxxReader.ListsRange | src/io/safetensors_reader.cpp:155-186 | shape lists hold int64_t values, offset lists hold size_t values, and both fail only with conversion errors |
| SafetensorsCxxReader.EntryObject | src/io/safetensors_reader.cpp:133-198 | an entry whose stored range comes out of the object has offset and size below 2^64 |
| SafetensorsCxxReader.EntryRange | src/io/safetensors_reader.cpp:167-198 | a stored entry keeps the dtype text and shape read before it, and its offset and size fit size_t |
| SafetensorsCxxReader.EntryObjectErrors | src/io/safetensors_reader.cpp:133-190 | reading one object throws only conversion errors and "Invalid data_offsets" for that tensor |
| SafetensorsCxxReader.Stored | src/io/safetensors_reader.cpp:192-196 | the stored info keeps dtype and shape, and its offset and size are size_t values |
| SafetensorsCxxReader.BracketText | src/io/safetensors_reader.cpp:151-153 | the list text cut from the object is a valid string length |
| SafetensorsCxxReader.ParseEntryObject | src/io/safetensors_reader.cpp:133-165 | the loop body reads the dtype and the shape, skipping the object when a key is missing, as EntryObject describes |
| SafetensorsCxxReader.ParseEntryRange | src/io/safetensors_reader.cpp:167-198 | the data_offsets part skips an object without the key, refuses a count other than two and stores the size_t range otherwise |
| SafetensorsCxxReader.BraceEnd | src/io/safetensors_reader.cpp:122-129 | the brace loop stops within the text, at or after where it started |
| SafetensorsCxxReader.BraceEndCloses | src/io/safetensors_reader.cpp:122-129 | when the brace loop stops before the end of the text, the last character it consumed is a closing brace |
| SafetensorsCxxReader.MatchBrace | src/io/safetensors_reader.cpp:122-129 | the counting loop ends where BraceEnd says, just past the brace closing the object |
| SafetensorsCxxReader.Lookup | src/io/safetensors_reader.cpp:211-212 | a name is found exactly when some slot holds it |
| SafetensorsCxxReader.LookupSlot | src/io/safetensors_reader.cpp:240-249 | in the name-sorted table, looking up a slot's name returns that slot's info |
| SafetensorsCxxReader.AssignSorted | src/io/safetensors_reader.cpp:198 | storing under a name keeps the table strictly sorted by name, as a std::map is |
| SafetensorsCxxReader.AssignLookup | src/io/safetensors_reader.cpp:198 | after storing, the name maps to the new info and every other name to what it had |
| SafetensorsCxxReader.Locate | src/io/safetensors_reader.cpp:110-129 | the next object found lies within the text from the current position |
| SafetensorsCxxReader.LocateObject | src/io/safetensors_reader.cpp:110-129 | the search at the head of the loop finds the name, the opening brace and the object's end as Locate describes, or stops |
| SafetensorsCxxReader.ScanErrors | src/io/safetensors_reader.cpp:103-202 | scanning the header throws only conversion and offset-count errors, never dtype, size or bounds errors, and leaves a sorted table sorted |
| SafetensorsCxxReader.SafeTensorReader.constructor | src/io/safetensors_reader.cpp:45-66 | the reader holds the mapping and its size, no data section offset and an empty table |
| SafetensorsCxxReader.SafeTensorReader.ParseHeader | src/io/safetensors_reader.cpp:80-101 | the reader either throws the error opening the file gives, or holds exactly the data section offset and table it gives |
| SafetensorsCxxReader.SafeTensorReader.ReadHeader | src/io/safetensors_reader.cpp:80-98 | the checks and header text of parse_header, as HeaderText states them |
| SafetensorsCxxReader.SafeTensorReader.ParseJsonMetadata | src/io/safetensors_reader.cpp:103-202 | the scanning loop leaves the table Scan describes, or throws its error, keeping the data section offset |
| SafetensorsCxxReader.SafeTensorReader.HasTensor | src/io/safetensors_reader.cpp:240-242 | true exactly when some slot holds the name |
| SafetensorsCxxReader.SafeTensorReader.GetTensorInfo | src/io/safetensors_reader.cpp:244-250 | "Tensor not found" exactly when the name is absent; otherwise the info stored under it |
| SafetensorsCxxReader.SafeTensorReader.GetTensorNames | src/io/safetensors_reader.cpp:252-259 | every stored name once, strictly ascending, and nothing else |
| SafetensorsCxxReader.SafeTensorReader.GetTensor | src/io/safetensors_reader.cpp:210-238 | "Tensor not found" for an absent name; otherwise fails exactly as the exact-arithmetic checks TensorChecks do (the corrected checks; see Findings and Left out), and on success is a contiguous view into the mapping at the stored offset whose bytes lie within the file |
| SafetensorsCxxReader.ExpectedElements | src/io/safetensors_reader.cpp:220-223 | the product loop yields the exact product of the dimensions, and refuses exactly a shape with a negative dimension (the corrected loop; see Left out) |
| SafetensorsCxxReader.TensorChecks | src/io/safetensors_reader.cpp:217-232 | an accepted entry has a parsed dtype, non-negative dimensions whose product times the item size is the data size, and a range inside the file |
| SafetensorsCxxReader.SizeTProduct | src/io/safetensors_reader.cpp:220-223 | the size_t product stays below 2^64 |
| SafetensorsCxxReader.SizeTProductMod | src/io/safetensors_reader.cpp:220-223 | the wrapped product is the true product modulo 2^64 |
| SafetensorsCxxReader.ChecksAgreeWithoutWrap | src/io/safetensors_reader.cpp:220-232 | where neither product nor sum overflows, the size_t checks decide exactly as the exact ones |
| SafetensorsCxxReader.BoundsCheckWraps | src/io/safetensors_reader.cpp:195-196 | offsets [4, 0] pass the size_t checks though the range they describe leaves the file |
| SafetensorsCxxReader.SizeCheckWraps | src/io/safetensors_reader.cpp:220-226 | shape [2^32, 2^32] of I8 with data size 0 passes the size_t size check though it has 2^64 elements |
| Bf16Converter.Bf16ToF32 | src/io/bf16_converter.hpp:8-20 | the widened pattern truncates back to the input, has a zero lower half, and carries the input's sign, exponent and seven mantissa bits at the top of binary32's fields |
| Bf16Converter.Bf16OfWidened | src/io/bf16_converter.hpp:8-20 | widening a truncated binary32 pattern restores it with its low sixteen bits cleared |
| Bf16Converter.ConvertBf16ToF32 | src/io/bf16_converter.cpp:6-24 | a non-BF16 view is refused, and only then; otherwise a fresh contiguous F32 tensor of the same shape whose bytes are the element-by-element widening of the input's numel elements |
| Bf16Converter.ConvertedElement | src/io/bf16_converter.cpp:19-21 | element i of the converted tensor is bf16_to_f32 of element i of the input |
| Words.Widened | src/io/bf16_converter.cpp:18-21 | a buffer of 16-bit elements widens to one twice as long |
| Words.WidenedSnoc | src/io/bf16_converter.cpp:19-21 | widening one more element appends its converted four bytes |
| Words.WidenedAt | src/io/bf16_converter.cpp:19-21 | bytes [4i, 4i+4) of the widened buffer are the conversion of element i |
| Words.StoreWord | src/io/bf16_converter.cpp:20 | a float store changes exactly four bytes, to the word's little-endian bytes |
| Words.WidenInto | src/io/bf16_converter.cpp:18-21 | the conversion loop leaves the destination holding the widening of the n source elements |
| HalfFloat.ShiftCount | src/runtime/runtime_ctx.cpp:74-75 | the subnormal loop shifts at most ten times, and at least once exactly when bit 10 starts clear |
| HalfFloat.Normalized | src/runtime/runtime_ctx.cpp:75 | the loop ends with bit 10 set and nothing above it |
| HalfFloat.NormalizedShift | src/runtime/runtime_ctx.cpp:75 | the normalised mantissa is the input shifted left ShiftCount times |
| HalfFloat.NormalizedStep | src/runtime/runtime_ctx.cpp:75 | one shift of a mantissa with bit 10 clear keeps its normalised form and saves one shift |
| HalfFloat.F16Sign | src/runtime/runtime_ctx.cpp:65 | every conversion keeps the half's sign |
| HalfFloat.F16Zero | src/runtime/runtime_ctx.cpp:69-71 | a zero of either sign converts to the zero of that sign |
| HalfFloat.F16Normal | src/runtime/runtime_ctx.cpp:81-83 | a normal half has its exponent rebiased from 15 to 127 and its mantissa moved up 13 bits |
| HalfFloat.F16Special | src/runtime/runtime_ctx.cpp:79-80 | infinities stay infinite and NaNs stay NaNs with their payload moved up 13 bits |
| HalfFloat.F16BitsSubnormal | src/runtime/runtime_ctx.cpp:65-78 | a subnormal half takes the renormalising branch, with the fields the masks extract |
| HalfFloat.SubnormalFields | src/runtime/runtime_ctx.cpp:73-77 | a subnormal m * 2^-24 becomes a normal binary32 of exponent field 113 - k and full mantissa m * 2^(k+13), the same number, with its sign kept |
| HalfFloat.HalfFieldMasks | src/runtime/runtime_ctx.cpp:65-67 | the lambda's masks extract the half's sign, five-bit exponent and ten-bit mantissa |
| HalfFloat.HiddenBit | src/runtime/runtime_ctx.cpp:76-77 | dropping bit 10 and restoring it as binary32's implicit bit are inverse |
| HalfFloat.NormalizeSubnormal | src/runtime/runtime_ctx.cpp:74-75 | the while loop ends with the normalised mantissa and the exponent 113 less the shifts made |
| HalfFloat.SubnormalToF32 | src/runtime/runtime_ctx.cpp:73-77 | the subnormal branch assembles the renormalised pattern |
| HalfFloat.F16ToF32 | src/runtime/runtime_ctx.cpp:64-87 | the lambda computes the pattern F16Bits describes, branch by branch |
| Embedding.RowStart | src/runtime/runtime_ctx.cpp:51 | the token's row starts where its d_model elements still lie within the table |
| Embedding.RowBytes | src/runtime/runtime_ctx.cpp:51-52 | the raw row is d_model elements of the table's type |
| Embedding.EmbeddingRow | src/runtime/runtime_ctx.cpp:49-93 | the looked-up vector is d_model binary32 values |
| Embedding.RowElement | src/runtime/runtime_ctx.cpp:51 | element j of the row is element token * d_model + j of the table |
| Embedding.EmbeddingElementF32 | src/runtime/runtime_ctx.cpp:50-52 | from an F32 table, element j of the vector is table element token * d_model + j, copied |
| Embedding.EmbeddingElementHalf | src/runtime/runtime_ctx.cpp:53-90 | from a BF16 or F16 table, element j of the vector is the matching lambda applied to element j of the row |
| Embedding.WidenF16Into | src/runtime/runtime_ctx.cpp:88-90 | the F16 loop leaves the destination holding f16_to_f32 of each row element |
| Embedding.FillRow | src/runtime/runtime_ctx.cpp:50-90 | the dtype dispatch fills the vector with the looked-up row, copied or widened |
| RuntimeCtx.TruncDiv | src/runtime/runtime_ctx.cpp:19 | C++ division truncates toward zero: the remainder has the dividend's sign and magnitude below the divisor's, and for non-negative operands it is floor division |
| RuntimeCtx.KvConfigFor | src/runtime/runtime_ctx.cpp:13-20 | the cache takes the model's layer and kv-head counts, max_seq_len when positive and 2048 otherwise, head_dim d_model / n_heads and F16 storage |
| RuntimeCtx.InitKv | src/runtime/runtime_ctx.cpp:13-21 | a fresh zero-filled valid cache with the configuration above |
| RuntimeCtx.Runtime.constructor | src/runtime/runtime_ctx.cpp:29-32 | the context keeps the config, its own copy of the weights (views, layers and owner), and a fresh cache of max_seq_len 2048 whose K and V stores are zero-filled |
| RuntimeCtx.Runtime.WithMaxSeqLen | src/runtime/runtime_ctx.cpp:34-37 | as the two-argument constructor (copied weights with their owner, fresh zero-filled K and V stores), with the given max_seq_len, or 2048 when it is not positive |
| RuntimeCtx.Runtime.EmbedToken | src/runtime/runtime_ctx.cpp:41-93 | an out-of-range token id is refused first, then an unbound table, then an unsupported dtype; otherwise a fresh [d_model] F32 vector holding the token's row widened to binary32 |
| Elementwise.NegWords | src/layers/ops/elementwise.cpp:43-46 | m elements of -infinity occupy 4m bytes |
| Elementwise.Kept | src/layers/ops/elementwise.cpp:44 | the mask keeps at most all elements, and keeps them all exactly when seq_pos + 1 reaches the count |
| Elementwise.NegWordsAt | src/layers/ops/elementwise.cpp:43-46 | every element of the masked run is -infinity |
| Elementwise.MaskedElement | src/layers/ops/elementwise.cpp:38-46 | output element i is input element i when i <= seq_pos and -infinity otherwise |
| Elementwise.MaskedNothing | src/layers/ops/elementwise.cpp:44 | when seq_pos + 1 reaches the element count the output equals the input |
| Elementwise.MaskedAll | src/layers/ops/elementwise.cpp:44 | a seq_pos of -1 masks every element |
| Elementwise.MaskedTwice | src/layers/ops/elementwise.cpp:27-49 | masking at p and then at q is masking at the smaller of the two |
| Elementwise.MaskedIdempotent | src/layers/ops/elementwise.cpp:27-49 | masking twice at the same position changes nothing more |
| Elementwise.WordsEqual | src/layers/ops/elementwise.cpp:38-46 | buffers that agree element by element are equal |
| Elementwise.ApplyCausalMask | src/layers/ops/elementwise.cpp:27-49 | a fresh contiguous F32 tensor of the input's shape whose bytes are the input's, masked from flat index seq_pos + 1 on |
| Elementwise.CopyElements | src/layers/ops/elementwise.cpp:38-40 | the copy loop leaves the output equal to the input's numel elements |
| Elementwise.MaskTail | src/layers/ops/elementwise.cpp:43-46 | the masking loop turns the buffer into its masked form |
| Elementwise.MaskStep | src/layers/ops/elementwise.cpp:45 | one iteration extends the run of -infinity by one element |
| TextGen.Quoted | examples/text_gen.cpp:25 | the pattern is the key between two double quotes |
| TextGen.SkipBlanks | examples/text_gen.cpp:31 | the blank loop stops at the first non-blank at or after its start, or at the end |
| TextGen.RunEnd | examples/text_gen.cpp:33 | the number loop stops at the first character that is neither a digit nor '-', or at the end |
| TextGen.ParseIntField | examples/text_gen.cpp:24-36 | the scanner returns the value stoll reads from the run after the key's colon, and the fallback when the key, the colon or the run is missing or stoll throws |
| TextGen.NoKeyIffAbsent | examples/text_gen.cpp:25-27 | the scan gives up at the key exactly when the quoted key occurs nowhere |
| TextGen.AbsentKeyFallback | examples/text_gen.cpp:27 | without the quoted key the fallback is returned |
| TextGen.NoColonIffNone | examples/text_gen.cpp:28-29 | after the first occurrence of the key, the scan gives up at the colon exactly when no ':' follows |
| TextGen.ReadsAfterColon | examples/text_gen.cpp:28-33 | the run is read after the first ':' that follows the first occurrence of the key |
| TextGen.PrintedFieldReads | examples/text_gen.cpp:24-36 | a field written `"key": n`, n an int64_t in decimal, is read back as n |
| TextGen.RunAfterPrinted | examples/text_gen.cpp:30-33 | after `: ` the loops read exactly the printed integer |
| TextGen.ShiftRunAfter | examples/text_gen.cpp:30-33 | what is read after a colon depends only on the text from the colon on |
| TextGen.RunEndAt | examples/text_gen.cpp:33 | the number loop stops at the first character ending the run |
| TextGen.EscapedAppend | examples/text_gen.cpp:110-114 | escaping distributes over concatenation |
| TextGen.EscapedLength | examples/text_gen.cpp:110-114 | the output grows by one backslash per double quote |
| TextGen.UnescapeEscaped | examples/text_gen.cpp:110-114 | removing the inserted backslashes gives the input back, so escaping loses nothing |
| TextGen.EscapedQuotesPreceded | examples/text_gen.cpp:110-114 | every double quote of the output follows a backslash |
| TextGen.EscapeQuotes | examples/text_gen.cpp:110-114 | the loop produces the escaped string |
| TextGen.LowByte | examples/text_gen.cpp:105 | the cast keeps the id modulo 256, and a byte value unchanged |
| TextGen.ByteIdsAt | examples/text_gen.cpp:84-86 | the fallback encoding has one id per byte, the byte's value |
| TextGen.LowBytesAt | examples/text_gen.cpp:104-106 | the fallback decoding has one byte per id, its low byte |
| TextGen.DecodeEncode | examples/text_gen.cpp:84-106 | decoding the fallback encoding of a text gives the text |
| TextGen.EncodeDecode | examples/text_gen.cpp:84-106 | encoding the decoded ids gives them back exactly when every id is a byte value |
| TextGen.EncodeBytes | examples/text_gen.cpp:84-86 | the encode fallback loop yields the byte ids |
| TextGen.DecodeIds | examples/text_gen.cpp:104-106 | the decode fallback loop yields the low bytes |
| TextGen.GeneratedBounds | examples/text_gen.cpp:215-220 | the prompt ids are kept and at most max(max_new_tokens, 0) ids are appended |
| TextGen.GeneratedPicks | examples/text_gen.cpp:216-217 | every appended id is the greedy choice made from the ids before it |
| TextGen.GeneratedStopsAtEos | examples/text_gen.cpp:218 | no appended id before the last is eos |
| TextGen.GeneratedEndsEarlyAtEos | examples/text_gen.cpp:215-220 | a positive budget appends something, and stopping short of the budget means the last id is eos |
| TextGen.Generate | examples/text_gen.cpp:215-220 | the generation loop produces the ids Generated describes |
| FastLogits.ParseIntField | examples/fast_logits.cpp:14-26 | the scanner returns 0 when the key, the colon or the run is missing, and otherwise what stoll makes of the run, its exception included |
| FastLogits.AbsentKeyZero | examples/fast_logits.cpp:15-17 | without the quoted key the scanner returns 0 |
| FastLogits.AgreesWithTextGen | examples/fast_logits.cpp:14-26 | where this scanner returns a value, text_gen's with fallback 0 returns the same; where it throws, text_gen's returns its fallback |
| FastLogits.DashRunDiffers | examples/fast_logits.cpp:23-25 | on a run of a lone '-', text_gen's scanner falls back while this one throws invalid_argument |
| FastLogits.DashScan | examples/fast_logits.cpp:15-23 | the scan of `"k":-` reads the run "-" |
| FastLogits.DashRejected | examples/fast_logits.cpp:25 | stoll refuses a lone '-' |
| FastLogits.CheckedRowStart | examples/fast_logits.cpp:62-68 | a token id is accepted exactly in [0, vocab_size), and then its row lies inside a [vocab_size, d_model] table |
| FastLogits.MissingVocabRejectsAll | examples/fast_logits.cpp:45-65 | a config without "vocab_size" reads as vocabulary 0, so every token id is rejected |
| PyWeights.GetArr | model/weights.py:57-59 | fails with the reader's KeyError exactly when the name is absent, and otherwise returns an array of the stored shape |
| PyWeights.LayerResults | model/weights.py:73-99 | one result per iteration of range(n_layers), each the outcome of that layer's gets and checks |
| PyWeights.BindSafetensors | model/weights.py:41-114 | the binding as written, with its loop filling six dicts in place, returns what Bind describes |
| PyWeights.BindLayer | model/weights.py:74-92 | the loop body fetches the six arrays, then checks the six shapes in order, raising at the first failure |
| PyWeights.LayerResultOk | model/weights.py:74-92 | a layer binds exactly when its six tensors are present with the listed shapes, and then yields the fetched arrays |
| PyWeights.CheckLayerFits | model/weights.py:81-92 | the six checks pass exactly when the layer has the shapes the docstring lists |
| PyWeights.CollectOk | model/weights.py:73-99 | the loop completes exactly when every remaining layer binds |
| PyWeights.CollectKeys | model/weights.py:94-99 | a completed loop leaves each dict keyed by exactly 0 .. n_layers - 1 |
| PyWeights.CollectKeeps | model/weights.py:94-99 | later iterations keep the layers already stored |
| PyWeights.CollectStores | model/weights.py:94-99 | a completed loop stores under key j what iteration j produced |
| PyWeights.BindLayersFrom | model/weights.py:101-114 | the returned weights hold the dicts the loop filled |
| PyWeights.LayerResultParts | model/weights.py:74-92 | a bound layer is the fetched layer and has the listed shapes |
| PyWeights.BoundTokEmbed | model/weights.py:62-64 | a successful binding holds the fetched token embedding, of shape (vocab_size, d_model), and None in final_proj and every bias field |
| PyWeights.BoundLayers | model/weights.py:73-114 | after a successful binding each of the six dicts is keyed by exactly 0 .. n_layers - 1, and key j holds layer j's six named tensors with their expected shapes |
| PyWeights.BindOkIff | model/weights.py:41-114 | the binding succeeds exactly when every tensor it fetches is present with its expected shape |
| CxxString.Wrap | src/io/safetensors_reader.cpp:195-196 | a size_t result is below 2^64 and equals the exact value whenever that fits |
| CxxString.Succ | src/io/safetensors_reader.cpp:113 | one past a position is the next index, and npos + 1 wraps to 0 |
| CxxString.Find | src/io/safetensors_reader.cpp:110-113 | find(c, from) is npos or an index at or after from holding c |
| CxxString.FindFirst | src/io/safetensors_reader.cpp:110-113 | no index before the one find reports holds the character |
| CxxString.FindAt | src/io/safetensors_reader.cpp:110-113 | find reports the first index holding the character |
| CxxString.FindNone | src/io/safetensors_reader.cpp:110-111 | find is npos exactly when no index at or after the start holds the character |
| CxxString.FindStr | src/io/safetensors_reader.cpp:134 | find(pattern) is npos or a position where the whole pattern fits |
| CxxString.FindStrMatches | src/io/safetensors_reader.cpp:134 | the pattern occurs where find reports it |
| CxxString.FindStrFinds | src/io/safetensors_reader.cpp:134 | a pattern occurring at or after the start is found no later than that occurrence |
| CxxString.FindStrFirst | src/io/safetensors_reader.cpp:134 | find reports the first occurrence of the pattern |
| CxxString.FindStrNone | src/io/safetensors_reader.cpp:134-135 | find is npos exactly when the pattern occurs nowhere |
| CxxString.Substr | src/io/safetensors_reader.cpp:116 | substr yields at most count characters, those at pos onward |
| CxxString.TrimFront | src/io/safetensors_reader.cpp:160 | the front erase leaves no leading blank |
| CxxString.TrimFrontDrops | src/io/safetensors_reader.cpp:160 | the front erase removes a prefix of blanks and nothing else |
| CxxString.TrimBack | src/io/safetensors_reader.cpp:161 | the back erase leaves no trailing blank |
| CxxString.TrimBackDrops | src/io/safetensors_reader.cpp:161 | the back erase removes a suffix of blanks and nothing else |
| CxxString.TrimUnchanged | src/io/safetensors_reader.cpp:160-161 | an item with no blank at either end is left as it is |
| CxxString.DropSpaces | src/io/safetensors_reader.cpp:163 | stoll's leading white space is a prefix it skips |
| CxxString.DigitRun | src/io/safetensors_reader.cpp:163 | the digits read are the longest run of digits at the start |
| CxxString.Stoll | src/io/safetensors_reader.cpp:163 | stoll's value fits int64_t, and invalid_argument is thrown exactly when no digit can be read |
| CxxString.Stoull | src/io/safetensors_reader.cpp:184 | stoull's value fits 64 bits, and invalid_argument is thrown exactly when no digit can be read |
| CxxString.NumeralOfDigits | src/io/safetensors_reader.cpp:163 | a digit string is read whole |
| CxxString.NumeralOfNegative | src/io/safetensors_reader.cpp:163 | a minus sign followed by digits is read whole, as negative |
| CxxString.StollRoundTrip | src/io/safetensors_reader.cpp:163 | an int64_t printed in decimal reads back through stoll |
| CxxString.StollOf | src/io/safetensors_reader.cpp:163 | stoll returns the signed value of the digits read when it fits int64_t |
| CxxString.StoullRoundTrip | src/io/safetensors_reader.cpp:184 | a 64-bit natural number printed in decimal reads back through stoull |
| CxxString.LessIrreflexive | src/io/safetensors_reader.cpp:42 | no string orders before itself |
| CxxString.LessTransitive | src/io/safetensors_reader.cpp:42 | string order is transitive |
| CxxString.LessTotal | src/io/safetensors_reader.cpp:42 | any two different strings are ordered one way or the other |
| Decimal.DigitChar | model/weights.py:74 | a digit value is spelled by the digit character of that value |
| Decimal.NatDigits | model/weights.py:74 | the spelling of a number is a non-empty digit string that starts with '0' only for zero |
| Decimal.DigitsRoundTrip | model/weights.py:74 | reading back a printed natural number gives the number |
| Decimal.NatDigitsInjective | model/weights.py:74 | distinct layer indices print differently, so their names differ |
| Bytes.Pow256 | safetensors/reader.py:206 | every power of 256 is positive |
| Bytes.LeValueBound | safetensors/reader.py:206 | an n-byte little-endian value is below 256^n |
| Bytes.LeValueSnoc | src/io/safetensors_reader.cpp:88-90 | a more significant byte adds its value at weight 256^i |
| Bytes.PackLe | safetensors/write_min.py:80 | struct.pack of width w yields w bytes |
| Bytes.PackLeRoundTrip | safetensors/write_min.py:80 | unpacking a packed value that fits gives the value back |
| Bytes.DivBelow | safetensors/write_min.py:80 | a value below 256p splits into a low byte and a quotient below p |
| Bytes.Pow256Eight | src/io/safetensors_reader.cpp:87-90 | eight bytes span exactly the uint64_t range |
| Bytes.BytesToChars | src/io/safetensors_reader.cpp:97 | the header string has one char per byte, of that byte's value |
| ShapeMath.ProdZeroDim | safetensors/reader.py:95-99 | any zero dimension makes the product zero |
| ShapeMath.ProdNoZeroDim | safetensors/reader.py:95-99 | with no zero dimension the product is not zero |
| ShapeMath.ProdNonneg | safetensors/reader.py:95-99 | non-negative dimensions have a non-negative product |
| ShapeMath.ProdAppend | safetensors/reader.py:95-99 | splitting a dimension list splits its product |
| ShapeMath.ProdSnoc | src/io/safetensors_reader.cpp:220-223 | one more dimension multiplies the product by it |
| ShapeMath.MulLe | src/runtime/runtime_ctx.cpp:51 | multiplying by a natural number keeps order |
| KvCache.SlotInStore | src/runtime/kv_cache.cpp:32-35 | the slot of an in-range (layer, position) starts at its offset for head 0, dimension 0, and lies wholly inside the store |
| KvCache.SlotStart | src/runtime/kv_cache.cpp:67-82 | the byte range of an in-range slot lies inside the store |
| KvCache.StoreElements | src/runtime/kv_cache.cpp:9-14 | a store holds num_layers * max_seq_len * num_kv_heads * head_dim elements |
| CoreTypes.NumelPositive | include/infer_engine/core/types.hpp:30-33 | a shape whose dimensions are all positive has a positive element count |
| PyJson.HexDigitsRoundTrip | safetensors/write_min.py:75 | the hex digits of a code unit read back as the code unit |
| PyJson.EscapeCharAstral | safetensors/write_min.py:75 | a character beyond the basic plane is escaped as its UTF-16 surrogate pair |
| TextGen.EscapedHead | examples/text_gen.cpp:110-114 | an escaped string never starts with a bare double quote |

## Left out

- Memory mapping, file handles and file I/O: `open`/`fstat`/`mmap`/`munmap`, `ro_mmap`, `__enter__`/`__exit__`, and the writer's `open(path, 'wb')`. A mapped file is a byte sequence and the written file is the byte sequence the writer produces.
- `json.loads` and UTF-8 decoding are a parameter of the Python reader: a library whose behaviour is not in the repository.
- The NumPy dtype table, `np.frombuffer`, `reshape` and `tobytes`: a NumPy array is modelled by its dtype code, shape and C-order bytes. `np.ascontiguousarray` is modelled by `AsContiguous`, which keeps those except that a rank-0 array becomes shape [1]; strides, memory order and non-contiguous inputs are not modelled, since an array here is always its C-order bytes.
- The float kernels: linear, matmul, rmsnorm, activations, softmax, rope, attention, MLP and `scale`; the float pipeline of `forward_decode` after the embedding row; `astype_copy`; `argmax_id`; the logits loops and the top-5 selection in the drivers. Floating-point arithmetic is not modelled; the widening code is modelled on bit patterns only.
- The drivers' Python-subprocess tokenizer path, their file reads and their printing. Text is passed in as a value.
- `ModelCfg`'s rope fields, which the binding does not read.
- The iteration order of the per-layer dicts built by `bind_safetensors`: they are maps keyed by layer index.
- `int64_t` overflow in `numel`, in the strides and in the KV-cache offsets: these compute with unbounded integers. Only the `Allocatable` preconditions of the KV cache, `Tensors.Empty` and `Tensors.FromRaw` keep these values in range; the C++ reader's size and bounds checks are modelled in exact arithmetic, so they do not bound what the as-written `size_t` code lets through (see Findings).
- SafetensorsCxxReader.SafeTensorReader.GetTensor: decides with the exact-arithmetic `TensorChecks`, the corrected checks of the Findings row, not with `TensorChecksAsWritten`. It refuses entries that the source accepts because its `size_t` products and sums wrap, and it refuses a negative dimension, which the source casts to a huge `size_t` and usually rejects by the size comparison only.
- SafetensorsCxxReader.ExpectedElements: computes the exact product and returns None for a negative dimension. The source's loop casts each dimension to `size_t` and multiplies modulo 2^64; `TensorChecksAsWritten` models that, and `SizeCheckWraps` exhibits a wrapped product.
- Tensors.Empty: requires `Allocatable`, a non-negative element count whose byte size is below 2^64. The source also runs when `numel * dtype_bytes` wraps modulo 2^64 (shape [2^62] of F32 wraps to 0 and `new uint8_t[0]` succeeds, leaving a view larger than its buffer), and throws `std::bad_alloc` for a negative count cast to a huge size. Neither case is modelled.
- Tensors.FromRaw: the same `Allocatable` precondition as `Tensors.Empty`, for the same wrapped and negative sizes; it also requires the source pointer to cover `nbytes` bytes, which `memcpy` assumes without a check.
- RuntimeCtx.Runtime.EmbedToken: requires `Allocatable([d_model], F32)`, so a negative `d_model` (where `Tensor::empty` throws after the token check) is not modelled. It also requires `TableFits`: the source reads the row at `token_id * d_model` with no check that the bound table holds `vocab_size * d_model` elements, which is undefined behaviour when it does not.
- Elementwise.ApplyCausalMask: requires an F32 score tensor and `seq_pos >= -1`. The source reads and writes four-byte floats whatever the dtype, and writes at a negative index when `seq_pos < -1`; both are undefined behaviour in C++.
- FastLogits.ParseIntField: the run loop's digit test is modelled as '0'..'9'. This driver passes a plain, possibly negative `char` to `isdigit`, which is undefined behaviour for bytes above 127; that case is not modelled. The `text_gen` copy casts to `unsigned char` first.
- TextGen.Generate: the generation loop takes the model's next-token choice as a function parameter, and its bound `max_new_tokens` is an unbounded integer.
- FastLogits.CheckedRowStart: states the token check and the row placement. The `get_tensor` and conversion steps that run before the check in the driver are those of the reader and the converter, and are not composed into one driver-level lemma.
- The test scenario that writes a file with `write_min` and binds it with `bind_safetensors` is covered by the round trip and the binding lemmas separately, not as one composed lemma.

## Findings

| source | as written | input that shows it | evidently intended | confidence | as-written member | corrected member |
|---|---|---|---|---|---|---|
| src/io/safetensors_reader.cpp:195-196, 220-232 | `data_size = offsets[1] - offsets[0]`, the shape product and `data_offset + data_size` are all `size_t` arithmetic, so every one of them wraps modulo 2^64 | (a) data section at 80, an 80-byte file, `F32` shape [2^62 - 1], offsets [4, 0]: the size check passes and the bounds sum wraps to 80, so `get_tensor` returns a view that starts past the end of the file; (b) `I8` shape [2^32, 2^32] with offsets [0, 0]: the product wraps to 0, so a view of 2^64 elements over no bytes is returned | the checks hold in exact arithmetic: a negative dimension is refused, the element count times the item size equals the data size, and offset plus size stays within the file | not executed | SafetensorsCxxReader.TensorChecksAsWritten, SafetensorsCxxReader.BoundsCheckWraps, SafetensorsCxxReader.SizeCheckWraps | SafetensorsCxxReader.TensorChecks |

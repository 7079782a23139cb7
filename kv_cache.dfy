/**
 * The key/value cache (kv_cache.cpp): two byte stores of shape
 * [num_layers, max_seq_len, num_kv_heads, head_dim] and an append that
 * overwrites the slot of one (layer, position) pair in place.
 */
module KvCache {
  import opened Wrappers
  import opened Bytes
  import opened ShapeMath
  import opened CoreTypes
  import opened Tensors

  /** KVCacheConfig, with the single kv-head count the cache is laid out by. */
  datatype KVCacheConfig = KVCacheConfig(numLayers: int, maxSeqLen: int, numKvHeads: int, headDim: int, dtype: DType)
  {
    function StoreShape(): seq<int> { [numLayers, maxSeqLen, numKvHeads, headDim] }

    /** The dimensions are non-negative and the two stores can be allocated. */
    predicate Allocatable()
    {
      numLayers >= 0 && maxSeqLen >= 0 && numKvHeads >= 0 && headDim >= 0
      && Tensors.Allocatable(StoreShape(), dtype)
    }
  }

  /** std::out_of_range or std::invalid_argument thrown by append. */
  datatype AppendError = LayerOutOfRange | SeqPosOutOfRange | KShapeMismatch | VShapeMismatch

  /** kv_offset: the element index of (l, pos, kvh, d), computed in uint64_t. */
  function KvOffset(s: int, kvh: int, dim: int, l: int, pos: int, h: int, d: int): nat
  {
    ((((l * s + pos) * kvh + h) * dim + d) % TWO_64)
  }

  lemma MixedRadixBound(x: int, n: int, b: int, bigX: int)
    requires 0 <= x < bigX && 0 <= b < n
    ensures 0 <= x * n + b < bigX * n
  {
    assert x * n + b < (x + 1) * n;
    assert (x + 1) * n <= bigX * n;
  }

  lemma MixedRadixUnique(a: int, b: int, a': int, b': int, n: int)
    requires 0 <= a && 0 <= a' && 0 <= b < n && 0 <= b' < n
    requires a * n + b == a' * n + b'
    ensures a == a' && b == b'
  {
    if a < a' {
      MixedRadixBound(a, n, b, a');
    } else if a' < a {
      MixedRadixBound(a', n, b', a);
    }
  }

  /** An in-range index tuple for the configuration. */
  predicate InRange(cfg: KVCacheConfig, l: int, pos: int, h: int, d: int)
  {
    0 <= l < cfg.numLayers && 0 <= pos < cfg.maxSeqLen && 0 <= h < cfg.numKvHeads && 0 <= d < cfg.headDim
  }

  /** The element count of a store, as a left-nested product. */
  lemma StoreElements(cfg: KVCacheConfig)
    ensures Prod(cfg.StoreShape()) == ((cfg.numLayers * cfg.maxSeqLen) * cfg.numKvHeads) * cfg.headDim
  {
    var L, S, H, D := cfg.numLayers, cfg.maxSeqLen, cfg.numKvHeads, cfg.headDim;
    var shape := cfg.StoreShape();
    assert shape[1..] == [S, H, D] && shape[1..][1..] == [H, D] && shape[1..][1..][1..] == [D];
    assert Prod([D]) == D * Prod([]);
    assert Prod([H, D]) == H * Prod([D]);
    assert Prod([S, H, D]) == S * Prod([H, D]);
    assert Prod(shape) == L * Prod([S, H, D]);
    assert L * (S * (H * D)) == ((L * S) * H) * D;
  }

  lemma AtMostScaled(p: int, e: int)
    requires p >= 0 && e >= 1
    ensures p <= p * e
  {
  }

  /** The exact offset formula, bounded by the element count of a store. */
  lemma OffsetBound(cfg: KVCacheConfig, l: int, pos: int, h: int, d: int)
    requires InRange(cfg, l, pos, h, d)
    ensures 0 <= ((l * cfg.maxSeqLen + pos) * cfg.numKvHeads + h) * cfg.headDim + d
    ensures ((l * cfg.maxSeqLen + pos) * cfg.numKvHeads + h) * cfg.headDim + d
            < ((cfg.numLayers * cfg.maxSeqLen) * cfg.numKvHeads) * cfg.headDim
  {
    var L, S, H, D := cfg.numLayers, cfg.maxSeqLen, cfg.numKvHeads, cfg.headDim;
    MixedRadixBound(l, S, pos, L);
    var x1 := l * S + pos;
    MixedRadixBound(x1, H, h, L * S);
    var x2 := x1 * H + h;
    MixedRadixBound(x2, D, d, (L * S) * H);
  }

  /** In range, kv_offset does not wrap and stays below the element count of a store. */
  lemma KvOffsetInStore(cfg: KVCacheConfig, l: int, pos: int, h: int, d: int)
    requires cfg.Allocatable() && InRange(cfg, l, pos, h, d)
    ensures KvOffset(cfg.maxSeqLen, cfg.numKvHeads, cfg.headDim, l, pos, h, d)
            == ((l * cfg.maxSeqLen + pos) * cfg.numKvHeads + h) * cfg.headDim + d
    ensures KvOffset(cfg.maxSeqLen, cfg.numKvHeads, cfg.headDim, l, pos, h, d) < Prod(cfg.StoreShape())
  {
    var x := ((l * cfg.maxSeqLen + pos) * cfg.numKvHeads + h) * cfg.headDim + d;
    OffsetBound(cfg, l, pos, h, d);
    StoreElements(cfg);
    var p := Prod(cfg.StoreShape());
    AtMostScaled(p, DTypeBytes(cfg.dtype));
    assert 0 <= x < TWO_64;
  }

  /** Distinct in-range index tuples have distinct offsets. */
  lemma KvOffsetInjective(cfg: KVCacheConfig, l: int, pos: int, h: int, d: int, l': int, pos': int, h': int, d': int)
    requires cfg.Allocatable() && InRange(cfg, l, pos, h, d) && InRange(cfg, l', pos', h', d')
    requires KvOffset(cfg.maxSeqLen, cfg.numKvHeads, cfg.headDim, l, pos, h, d)
             == KvOffset(cfg.maxSeqLen, cfg.numKvHeads, cfg.headDim, l', pos', h', d')
    ensures l == l' && pos == pos' && h == h' && d == d'
  {
    var S, H, D := cfg.maxSeqLen, cfg.numKvHeads, cfg.headDim;
    KvOffsetInStore(cfg, l, pos, h, d);
    KvOffsetInStore(cfg, l', pos', h', d');
    var x1, y1 := l * S + pos, l' * S + pos';
    NonnegStep(l, S, pos);
    NonnegStep(l', S, pos');
    var x2, y2 := x1 * H + h, y1 * H + h';
    NonnegStep(x1, H, h);
    NonnegStep(y1, H, h');
    MixedRadixUnique(x2, d, y2, d', D);
    MixedRadixUnique(x1, h, y1, h', H);
    MixedRadixUnique(l, pos, l', pos', S);
  }

  lemma NonnegStep(a: int, n: int, b: int)
    requires a >= 0 && n >= 0 && b >= 0
    ensures a * n + b >= 0
  {
  }

  /** The order in which append checks its arguments; None when every check passes. */
  function AppendCheck(cfg: KVCacheConfig, layerIdx: int, seqPos: int, kShape: seq<int>, vShape: seq<int>): Option<AppendError>
  {
    if layerIdx < 0 || layerIdx >= cfg.numLayers then Some(LayerOutOfRange)
    else if seqPos < 0 || seqPos >= cfg.maxSeqLen then Some(SeqPosOutOfRange)
    else if kShape != [cfg.numKvHeads, cfg.headDim] then Some(KShapeMismatch)
    else if vShape != [cfg.numKvHeads, cfg.headDim] then Some(VShapeMismatch)
    else None
  }

  /** append accepts exactly in-range indices with K and V both shaped [num_kv_heads, head_dim]. */
  lemma AppendCheckAccepts(cfg: KVCacheConfig, layerIdx: int, seqPos: int, kShape: seq<int>, vShape: seq<int>)
    ensures AppendCheck(cfg, layerIdx, seqPos, kShape, vShape).None? <==>
      0 <= layerIdx < cfg.numLayers && 0 <= seqPos < cfg.maxSeqLen &&
      |kShape| == 2 && kShape[0] == cfg.numKvHeads && kShape[1] == cfg.headDim &&
      |vShape| == 2 && vShape[0] == cfg.numKvHeads && vShape[1] == cfg.headDim
  {
    if |kShape| == 2 && kShape[0] == cfg.numKvHeads && kShape[1] == cfg.headDim {
      assert kShape == [cfg.numKvHeads, cfg.headDim];
    }
    if |vShape| == 2 && vShape[0] == cfg.numKvHeads && vShape[1] == cfg.headDim {
      assert vShape == [cfg.numKvHeads, cfg.headDim];
    }
  }

  function ElemBytes(cfg: KVCacheConfig): nat { DTypeBytes(cfg.dtype) }

  /** Bytes in one (layer, position) slot: num_kv_heads rows of head_dim elements. */
  function SlotBytes(cfg: KVCacheConfig): int { cfg.numKvHeads * (cfg.headDim * ElemBytes(cfg)) }

  function StoreBytes(cfg: KVCacheConfig): int { Prod(cfg.StoreShape()) * ElemBytes(cfg) }

  /** Byte position of element (l, pos, 0, 0) in a store; the whole slot lies inside the store. */
  function SlotStart(cfg: KVCacheConfig, l: int, pos: int): (r: nat)
    requires cfg.Allocatable() && 0 <= l < cfg.numLayers && 0 <= pos < cfg.maxSeqLen
    ensures r + SlotBytes(cfg) <= StoreBytes(cfg)
  {
    SlotInStore(cfg, l, pos);
    KvOffset(cfg.maxSeqLen, cfg.numKvHeads, cfg.headDim, l, pos, 0, 0) * ElemBytes(cfg)
  }

  lemma SlotInStore(cfg: KVCacheConfig, l: int, pos: int)
    requires cfg.Allocatable() && 0 <= l < cfg.numLayers && 0 <= pos < cfg.maxSeqLen
    ensures KvOffset(cfg.maxSeqLen, cfg.numKvHeads, cfg.headDim, l, pos, 0, 0)
            == ((l * cfg.maxSeqLen + pos) * cfg.numKvHeads) * cfg.headDim
    ensures ((l * cfg.maxSeqLen + pos) * cfg.numKvHeads) * cfg.headDim * ElemBytes(cfg) + SlotBytes(cfg)
            <= StoreBytes(cfg)
  {
    var L, S, H, D, E := cfg.numLayers, cfg.maxSeqLen, cfg.numKvHeads, cfg.headDim, ElemBytes(cfg);
    var x1 := l * S + pos;
    MixedRadixBound(l, S, pos, L);
    StoreElements(cfg);
    SlotFits(x1, H, D, E, L * S);
    var y := (x1 * H) * D;
    assert ((x1 * H + 0) * D + 0) == y;
    AtMostScaled(y, E);
    assert 0 <= y < TWO_64;
  }

  lemma SlotFits(x1: int, H: int, D: int, E: int, X: int)
    requires 0 <= x1 < X && H >= 0 && D >= 0 && E >= 0
    ensures 0 <= ((x1 * H) * D) * E
    ensures ((x1 * H) * D) * E + H * (D * E) <= ((X * H) * D) * E
  {
    assert ((x1 * H) * D) * E + H * (D * E) == (x1 + 1) * (H * (D * E));
    assert ((X * H) * D) * E == X * (H * (D * E));
    assert (x1 + 1) * (H * (D * E)) <= X * (H * (D * E));
  }

  /** Row kvh of the slot of (l, pos) starts kvh rows after the slot start. */
  lemma RowPlacement(cfg: KVCacheConfig, l: int, pos: int, kvh: int)
    requires cfg.Allocatable() && 0 <= l < cfg.numLayers && 0 <= pos < cfg.maxSeqLen && 0 <= kvh < cfg.numKvHeads
    ensures KvOffset(cfg.maxSeqLen, cfg.numKvHeads, cfg.headDim, l, pos, kvh, 0) * ElemBytes(cfg)
            == SlotStart(cfg, l, pos) + kvh * (cfg.headDim * ElemBytes(cfg))
  {
    var S, H, D, E := cfg.maxSeqLen, cfg.numKvHeads, cfg.headDim, ElemBytes(cfg);
    SlotInStore(cfg, l, pos);
    if D == 0 {
      assert KvOffset(S, H, D, l, pos, kvh, 0) == 0;
    } else {
      KvOffsetInStore(cfg, l, pos, kvh, 0);
      RowShift(l * S + pos, H, kvh, D, E);
    }
  }

  lemma RowShift(x: int, H: int, h: int, D: int, E: int)
    ensures ((x * H + h) * D + 0) * E == ((x * H) * D) * E + h * (D * E)
  {
  }

  lemma ElemArith(x1: int, H: int, h: int, D: int, d: int, E: int, b: int)
    requires 0 <= x1 && 0 <= h < H && 0 <= d < D && 0 <= b < E
    ensures ((x1 * H + h) * D + d) * E + b == x1 * (H * (D * E)) + ((h * D + d) * E + b)
    ensures 0 <= (h * D + d) * E + b < H * (D * E)
  {
    Distrib((x1 * H + h) * D, d, E);
    Assoc(x1 * H + h, D, E);
    Distrib(x1 * H, h, D * E);
    Assoc(x1, H, D * E);
    Distrib(h * D, d, E);
    Assoc(h, D, E);
    MixedRadixBound(h, D, d, H);
    MixedRadixBound(h * D + d, E, b, H * D);
    Assoc(H, D, E);
  }

  /** Byte b of element (l, pos, h, d) lies (h*D + d)*E + b bytes into the slot of (l, pos). */
  lemma ElementByte(cfg: KVCacheConfig, l: int, pos: int, h: int, d: int, b: int)
    requires cfg.Allocatable() && InRange(cfg, l, pos, h, d) && 0 <= b < ElemBytes(cfg)
    ensures 0 <= (h * cfg.headDim + d) * ElemBytes(cfg) + b < SlotBytes(cfg)
    ensures 0 <= l * cfg.maxSeqLen + pos
    ensures SlotStart(cfg, l, pos) == (l * cfg.maxSeqLen + pos) * SlotBytes(cfg)
    ensures KvOffset(cfg.maxSeqLen, cfg.numKvHeads, cfg.headDim, l, pos, h, d) * ElemBytes(cfg) + b
            == SlotStart(cfg, l, pos) + ((h * cfg.headDim + d) * ElemBytes(cfg) + b)
  {
    var S, H, D, E := cfg.maxSeqLen, cfg.numKvHeads, cfg.headDim, ElemBytes(cfg);
    KvOffsetInStore(cfg, l, pos, h, d);
    SlotInStore(cfg, l, pos);
    NonnegStep(l, S, pos);
    ElemArith(l * S + pos, H, h, D, d, E, b);
  }

  lemma SlotStartIsMultiple(x: int, H: int, D: int, E: int)
    ensures ((x * H) * D) * E == x * (H * (D * E))
  {
  }

  /** Two slots never overlap: a byte of slot x1 is before or after the whole slot x2 != x1. */
  lemma SlotsDisjoint(x1: int, x2: int, P: int, w: int)
    requires 0 <= x1 && 0 <= x2 && x1 != x2 && 0 <= w < P
    ensures x1 * P + w < x2 * P || x2 * P + P <= x1 * P + w
  {
    if x1 < x2 {
      assert (x1 + 1) * P <= x2 * P;
    } else {
      assert (x2 + 1) * P <= x1 * P;
    }
  }

  /**
   * After writing `src` into the slot of (l, pos), byte b of element (l', pos', h, d)
   * is the matching byte of src when (l', pos') == (l, pos), and is unchanged otherwise.
   */
  lemma SlotWriteEffect(cfg: KVCacheConfig, l: int, pos: int, before: seq<byte>, src: seq<byte>,
                        l': int, pos': int, h: int, d: int, b: int)
    requires cfg.Allocatable() && 0 <= l < cfg.numLayers && 0 <= pos < cfg.maxSeqLen
    requires InRange(cfg, l', pos', h, d) && 0 <= b < ElemBytes(cfg)
    requires |before| == StoreBytes(cfg) && |src| == SlotBytes(cfg)
    ensures 0 <= (h * cfg.headDim + d) * ElemBytes(cfg) + b < |src|
    ensures var i := KvOffset(cfg.maxSeqLen, cfg.numKvHeads, cfg.headDim, l', pos', h, d) * ElemBytes(cfg) + b;
      var after := Splice(before, SlotStart(cfg, l, pos), src);
      0 <= i < |after| &&
      after[i] == if l' == l && pos' == pos then src[(h * cfg.headDim + d) * ElemBytes(cfg) + b] else before[i]
  {
    var S := cfg.maxSeqLen;
    var P := SlotBytes(cfg);
    var w := (h * cfg.headDim + d) * ElemBytes(cfg) + b;
    var i := KvOffset(cfg.maxSeqLen, cfg.numKvHeads, cfg.headDim, l', pos', h, d) * ElemBytes(cfg) + b;
    var at := SlotStart(cfg, l, pos);
    ElementByte(cfg, l', pos', h, d, b);
    ElementByte(cfg, l, pos, h, d, b);
    var x1, x2 := l' * S + pos', l * S + pos;
    assert i == x1 * P + w && at == x2 * P && 0 <= w < P;
    SlotInStore(cfg, l', pos');
    if l' != l || pos' != pos {
      if x1 == x2 {
        MixedRadixUnique(l', pos', l, pos, S);
      }
      SlotsDisjoint(x1, x2, P, w);
    }
    SpliceIndex(before, at, src, i);
  }

  lemma SpliceIndex(before: seq<byte>, at: nat, src: seq<byte>, i: int)
    requires at + |src| <= |before| && 0 <= i < |before|
    ensures Splice(before, at, src)[i] == if at <= i < at + |src| then src[i - at] else before[i]
  {
  }

  /** The bytes a K or V view supplies to append: one slot's worth, from a buffer that is not a store. */
  predicate Supplies(p: Ptr, n: int, k: array<byte>, v: array<byte>)
    reads if p.At? then {p.buf} else {}
  {
    p.At? && p.buf != k && p.buf != v && 0 <= n && p.off + n <= p.buf.Length
  }

  class KVCache {
    const cfg: KVCacheConfig
    var kStore: Tensor
    var vStore: Tensor

    /** Both stores are distinct, sized for the configuration and viewed as [L, S, KVH, D]. */
    ghost predicate Valid()
      reads this
    {
      && cfg.Allocatable()
      && kStore.storage != vStore.storage
      && kStore.storage.Length == StoreBytes(cfg)
      && vStore.storage.Length == StoreBytes(cfg)
      && kStore.view == TensorView(At(kStore.storage, 0), cfg.dtype, cfg.StoreShape(), RowMajorStrides(cfg.StoreShape()))
      && vStore.view == TensorView(At(vStore.storage, 0), cfg.dtype, cfg.StoreShape(), RowMajorStrides(cfg.StoreShape()))
    }

    /** Allocates zeroed k and v stores of shape [num_layers, max_seq_len, num_kv_heads, head_dim]. */
    constructor (config: KVCacheConfig)
      requires config.Allocatable()
      ensures Valid() && cfg == config
      ensures fresh(kStore.storage) && fresh(vStore.storage)
      ensures forall i :: 0 <= i < kStore.storage.Length ==> kStore.storage[i] == 0
      ensures forall i :: 0 <= i < vStore.storage.Length ==> vStore.storage[i] == 0
    {
      cfg := config;
      var k := Empty(config.StoreShape(), config.dtype);
      var v := Empty(config.StoreShape(), config.dtype);
      kStore := k;
      vStore := v;
    }

    /** k_view: the key store's view, shaped [L, S, KVH, D] and contiguous. */
    function KView(): (v: TensorView)
      reads this
      requires Valid()
      ensures v.shape == [cfg.numLayers, cfg.maxSeqLen, cfg.numKvHeads, cfg.headDim]
      ensures v.dt == cfg.dtype && v.IsContiguous() && v.Defined()
    {
      kStore.view
    }

    /** v_view: the value store's view, shaped [L, S, KVH, D] and contiguous. */
    function VView(): (v: TensorView)
      reads this
      requires Valid()
      ensures v.shape == [cfg.numLayers, cfg.maxSeqLen, cfg.numKvHeads, cfg.headDim]
      ensures v.dt == cfg.dtype && v.IsContiguous() && v.Defined()
    {
      vStore.view
    }

    /**
     * append: every check runs before the first write; on success the slot of
     * (layerIdx, seqPos) in each store holds K's (resp. V's) bytes and nothing else changes.
     */
    method Append(layerIdx: int, seqPos: int, K: TensorView, V: TensorView) returns (err: Option<AppendError>)
      requires Valid()
      requires AppendCheck(cfg, layerIdx, seqPos, K.shape, V.shape).None? ==>
        Supplies(K.data, SlotBytes(cfg), kStore.storage, vStore.storage) &&
        Supplies(V.data, SlotBytes(cfg), kStore.storage, vStore.storage)
      modifies kStore.storage, vStore.storage
      ensures Valid()
      ensures err == AppendCheck(cfg, layerIdx, seqPos, K.shape, V.shape)
      ensures err.Some? ==> kStore.storage[..] == old(kStore.storage[..]) && vStore.storage[..] == old(vStore.storage[..])
      ensures err.None? ==>
        && kStore.storage[..] == Splice(old(kStore.storage[..]), SlotStart(cfg, layerIdx, seqPos), BytesAt(K.data, SlotBytes(cfg)))
        && vStore.storage[..] == Splice(old(vStore.storage[..]), SlotStart(cfg, layerIdx, seqPos), BytesAt(V.data, SlotBytes(cfg)))
    {
      err := AppendCheck(cfg, layerIdx, seqPos, K.shape, V.shape);
      if err.Some? {
        return;
      }
      WriteSlot(cfg, layerIdx, seqPos, kStore.storage, vStore.storage, K.data, V.data);
    }
  }

  /** The copy loop of append: row kvh of K and V goes to kv_offset(l, pos, kvh, 0) of each store. */
  method WriteSlot(cfg: KVCacheConfig, l: int, pos: int, kd: array<byte>, vd: array<byte>, K: Ptr, V: Ptr)
    requires cfg.Allocatable() && 0 <= l < cfg.numLayers && 0 <= pos < cfg.maxSeqLen
    requires kd != vd && kd.Length == StoreBytes(cfg) && vd.Length == StoreBytes(cfg)
    requires Supplies(K, SlotBytes(cfg), kd, vd) && Supplies(V, SlotBytes(cfg), kd, vd)
    modifies kd, vd
    ensures kd[..] == Splice(old(kd[..]), SlotStart(cfg, l, pos), BytesAt(K, SlotBytes(cfg)))
    ensures vd[..] == Splice(old(vd[..]), SlotStart(cfg, l, pos), BytesAt(V, SlotBytes(cfg)))
  {
    var elemB := ElemBytes(cfg);
    var rowBytes := cfg.headDim * elemB;
    ghost var slot := SlotStart(cfg, l, pos);
    ghost var kSrc, vSrc := BytesAt(K, SlotBytes(cfg)), BytesAt(V, SlotBytes(cfg));
    ghost var k0, v0 := kd[..], vd[..];
    ghost var done := 0;
    SlotNonneg(cfg);
    for kvh := 0 to cfg.numKvHeads
      invariant done == Rows(kvh, rowBytes) && done <= |kSrc|
      invariant kd[..] == Splice(k0, slot, kSrc[..done])
      invariant vd[..] == Splice(v0, slot, vSrc[..done])
    {
      CopyHeadRows(cfg, l, pos, kvh, kd, vd, K, V, k0, v0, slot, kSrc, vSrc, done);
      done := done + rowBytes;
    }
    RowsProduct(cfg.numKvHeads, rowBytes);
    assert done == |kSrc| == |vSrc|;
    assert kSrc[..done] == kSrc;
    assert vSrc[..done] == vSrc;
  }

  /** The body of the copy loop: head kvh's row of K and of V, each right after the rows already copied. */
  method CopyHeadRows(cfg: KVCacheConfig, l: int, pos: int, kvh: int, kd: array<byte>, vd: array<byte>, K: Ptr, V: Ptr,
                      ghost k0: seq<byte>, ghost v0: seq<byte>, ghost slot: nat, ghost kSrc: seq<byte>, ghost vSrc: seq<byte>,
                      ghost done: nat)
    requires cfg.Allocatable() && 0 <= l < cfg.numLayers && 0 <= pos < cfg.maxSeqLen && 0 <= kvh < cfg.numKvHeads
    requires kd != vd && |k0| == kd.Length == StoreBytes(cfg) && |v0| == vd.Length == StoreBytes(cfg)
    requires Supplies(K, SlotBytes(cfg), kd, vd) && Supplies(V, SlotBytes(cfg), kd, vd)
    requires slot == SlotStart(cfg, l, pos)
    requires kSrc == BytesAt(K, SlotBytes(cfg)) && vSrc == BytesAt(V, SlotBytes(cfg))
    requires done == Rows(kvh, cfg.headDim * ElemBytes(cfg)) && done <= SlotBytes(cfg)
    requires kd[..] == Splice(k0, slot, kSrc[..done]) && vd[..] == Splice(v0, slot, vSrc[..done])
    modifies kd, vd
    ensures Supplies(K, SlotBytes(cfg), kd, vd) && Supplies(V, SlotBytes(cfg), kd, vd)
    ensures kSrc == BytesAt(K, SlotBytes(cfg)) && vSrc == BytesAt(V, SlotBytes(cfg))
    ensures done + cfg.headDim * ElemBytes(cfg) == Rows(kvh + 1, cfg.headDim * ElemBytes(cfg)) <= SlotBytes(cfg)
    ensures kd[..] == Splice(k0, slot, kSrc[..done + cfg.headDim * ElemBytes(cfg)])
    ensures vd[..] == Splice(v0, slot, vSrc[..done + cfg.headDim * ElemBytes(cfg)])
  {
    var elemB := ElemBytes(cfg);
    var rowBytes := cfg.headDim * elemB;
    var dstIndex := KvOffset(cfg.maxSeqLen, cfg.numKvHeads, cfg.headDim, l, pos, kvh, 0);
    var srcOff := kvh * rowBytes;
    RowsProduct(kvh, rowBytes);
    RowStep(cfg, l, pos, kvh, dstIndex, srcOff, done);
    ghost var vBefore := vd[..];
    CopyRow(kd, K, dstIndex * elemB, srcOff, rowBytes, k0, slot, kSrc, done);
    assert vd[..] == vBefore;
    ghost var kAfter := kd[..];
    CopyRow(vd, V, dstIndex * elemB, srcOff, rowBytes, v0, slot, vSrc, done);
    assert kd[..] == kAfter;
  }

  /** The bytes in k rows of `row` bytes each, counted row by row. */
  function Rows(k: nat, row: nat): nat
  {
    if k == 0 then 0 else Rows(k - 1, row) + row
  }

  lemma {:induction false} RowsProduct(k: nat, row: nat)
    ensures Rows(k, row) == k * row
  {
    if k > 0 {
      RowsProduct(k - 1, row);
    }
  }

  lemma SlotNonneg(cfg: KVCacheConfig)
    requires cfg.Allocatable()
    ensures 0 <= cfg.headDim * ElemBytes(cfg) && 0 <= SlotBytes(cfg)
  {
  }

  /** One memcpy of the copy loop: a row of `whole` goes right after the rows of it already in `dst`. */
  method CopyRow(dst: array<byte>, P: Ptr, dstOff: nat, srcOff: nat, rowBytes: nat,
                 ghost d0: seq<byte>, ghost slot: nat, ghost whole: seq<byte>, ghost done: nat)
    requires P.At? && P.buf != dst && P.off + |whole| <= P.buf.Length && whole == BytesAt(P, |whole|)
    requires slot + |whole| <= |d0| && done + rowBytes <= |whole|
    requires dstOff == slot + done && srcOff == done
    requires dst[..] == Splice(d0, slot, whole[..done])
    modifies dst
    ensures dst[..] == Splice(d0, slot, whole[..done + rowBytes])
  {
    ghost var prev := dst[..];
    ghost var piece := P.buf[P.off + srcOff .. P.off + srcOff + rowBytes];
    RowOfWhole(P, whole, done, rowBytes);
    assert piece == whole[done .. done + rowBytes];
    Memcpy(dst, dstOff, P.buf, P.off + srcOff, rowBytes);
    assert dst[..] == Splice(prev, dstOff, piece);
    ExtendWritten(d0, slot, whole, done, rowBytes, prev, piece, dst[..]);
  }

  /** A row of the bytes at P is the matching slice of the buffer. */
  lemma RowOfWhole(P: Ptr, whole: seq<byte>, done: nat, row: nat)
    requires P.At? && P.off + |whole| <= P.buf.Length && whole == BytesAt(P, |whole|) && done + row <= |whole|
    ensures P.buf[P.off + done .. P.off + done + row] == whole[done .. done + row]
  {
  }

  /** The offsets of row kvh, in terms of the bytes already written. */
  lemma RowStep(cfg: KVCacheConfig, l: int, pos: int, kvh: int, dstIndex: int, srcOff: int, done: int)
    requires cfg.Allocatable() && 0 <= l < cfg.numLayers && 0 <= pos < cfg.maxSeqLen && 0 <= kvh < cfg.numKvHeads
    requires dstIndex == KvOffset(cfg.maxSeqLen, cfg.numKvHeads, cfg.headDim, l, pos, kvh, 0)
    requires srcOff == kvh * (cfg.headDim * ElemBytes(cfg)) && done == srcOff
    ensures dstIndex * ElemBytes(cfg) == SlotStart(cfg, l, pos) + done
    ensures 0 <= done && done + cfg.headDim * ElemBytes(cfg) == (kvh + 1) * (cfg.headDim * ElemBytes(cfg))
    ensures done + cfg.headDim * ElemBytes(cfg) <= SlotBytes(cfg)
  {
    RowPlacement(cfg, l, pos, kvh);
    RowsFit(kvh, cfg.numKvHeads, cfg.headDim * ElemBytes(cfg));
  }

  /** Copying the next row of `whole` right after the written prefix extends that prefix by one row. */
  lemma ExtendWritten(d0: seq<byte>, at: nat, whole: seq<byte>, done: nat, row: nat,
                      cur: seq<byte>, piece: seq<byte>, next: seq<byte>)
    requires at + |whole| <= |d0| && done + row <= |whole|
    requires piece == whole[done .. done + row]
    requires cur == Splice(d0, at, whole[..done])
    requires next == Splice(cur, at + done, piece)
    ensures next == Splice(d0, at, whole[..done + row])
  {
    var b := Splice(d0, at, whole[..done + row]);
    assert |next| == |b|;
    forall i | 0 <= i < |next| ensures next[i] == b[i] {
      if at + done <= i < at + done + row {
        assert next[i] == piece[i - at - done] == whole[i - at];
      }
    }
  }

  lemma RowsFit(j: int, n: int, row: nat)
    requires 0 <= j < n
    ensures 0 <= j * row && j * row + row == (j + 1) * row <= n * row
  {
  }
}

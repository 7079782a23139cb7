/**
 * The runtime context (runtime_ctx.cpp): its key/value cache configuration,
 * and the first step of a decode call, which checks the token id and copies
 * that token's embedding row into a fresh binary32 vector, widening bf16 and
 * half-precision tables element by element.
 */
module RuntimeCtx {
  import opened Wrappers
  import opened Bytes
  import opened ShapeMath
  import opened CoreTypes
  import opened Tensors
  import opened Embedding
  import opened KvCache
  import opened ModelWeightsCxx

  /** The fields of ModelCfg the runtime context reads (all int64_t). */
  datatype ModelCfg = ModelCfg(dModel: int, nLayers: int, nHeads: int, nKvHeads: int, vocabSize: int)

  /** The sequence length used when none, or a non-positive one, is given. */
  const DEFAULT_MAX_SEQ_LEN := 2048

  /**
   * C++ integer division: the quotient truncated toward zero, so that the
   * remainder a - q * b is |a| % |b| carrying the sign of the dividend.
   */
  function TruncDiv(a: int, b: int): (q: int)
    requires b != 0
    ensures a - q * b == if a < 0 then -(Abs(a) % Abs(b)) else Abs(a) % Abs(b)
    ensures 0 <= a && 0 < b ==> q == a / b
  {
    var q0 := Abs(a) / Abs(b);
    TruncDivParts(a, b, q0);
    if (a < 0) == (b < 0) then q0 else -q0
  }

  function Abs(x: int): nat { if x < 0 then -x else x }

  lemma TruncDivParts(a: int, b: int, q0: int)
    requires b != 0 && q0 == Abs(a) / Abs(b)
    ensures Abs(a) == q0 * Abs(b) + Abs(a) % Abs(b)
    ensures (a < 0) == (b < 0) ==> a - q0 * b == if a < 0 then -(Abs(a) % Abs(b)) else Abs(a) % Abs(b)
    ensures (a < 0) != (b < 0) ==> a + q0 * b == if a < 0 then -(Abs(a) % Abs(b)) else Abs(a) % Abs(b)
  {
    var n, d := Abs(a), Abs(b);
    assert n == q0 * d + n % d;
    if b < 0 {
      assert q0 * b == -(q0 * d);
    } else {
      assert q0 * b == q0 * d;
    }
  }

  /**
   * The cache configuration init_kv builds: the model's layer and kv-head
   * counts, max_seq_len when it is positive and 2048 otherwise, head_dim
   * d_model / n_heads, and half-precision storage.
   */
  function KvConfigFor(cfg: ModelCfg, maxSeqLen: int): (k: KVCacheConfig)
    requires cfg.nHeads != 0
    ensures k.numLayers == cfg.nLayers && k.numKvHeads == cfg.nKvHeads && k.dtype == F16
    ensures k.maxSeqLen > 0
    ensures maxSeqLen > 0 ==> k.maxSeqLen == maxSeqLen
    ensures maxSeqLen <= 0 ==> k.maxSeqLen == DEFAULT_MAX_SEQ_LEN
    ensures k.headDim == TruncDiv(cfg.dModel, cfg.nHeads)
  {
    KVCacheConfig(cfg.nLayers, if maxSeqLen > 0 then maxSeqLen else DEFAULT_MAX_SEQ_LEN,
                  cfg.nKvHeads, TruncDiv(cfg.dModel, cfg.nHeads), F16)
  }

  /** init_kv: a new cache, zero-filled, configured by KvConfigFor. */
  method InitKv(cfg: ModelCfg, maxSeqLen: int) returns (kv: KVCache)
    requires cfg.nHeads != 0 && KvConfigFor(cfg, maxSeqLen).Allocatable()
    ensures fresh(kv) && fresh(kv.kStore.storage) && fresh(kv.vStore.storage)
    ensures kv.Valid() && kv.cfg == KvConfigFor(cfg, maxSeqLen)
    ensures forall i :: 0 <= i < kv.kStore.storage.Length ==> kv.kStore.storage[i] == 0
    ensures forall i :: 0 <= i < kv.vStore.storage.Length ==> kv.vStore.storage[i] == 0
  {
    kv := new KVCache(KvConfigFor(cfg, maxSeqLen));
  }

  /* ---------- the decode step's embedding lookup ---------- */

  /** The exceptions the embedding lookup of forward_decode throws. */
  datatype DecodeError =
    | InvalidToken                    // std::out_of_range
    | Weights(cause: WeightsError)    // from get_token_embeddings
    | UnsupportedEmbeddingDtype       // std::runtime_error

  /** RuntimeCtx: the model configuration, its own copy of the weights, and the cache. */
  class Runtime {
    const cfg: ModelCfg
    const weights: ModelWeights
    const kv: KVCache

    /** The two-argument constructor: init_kv with a max_seq_len of 2048. */
    constructor (cfg: ModelCfg, weights: ModelWeights)
      requires cfg.nHeads != 0 && KvConfigFor(cfg, DEFAULT_MAX_SEQ_LEN).Allocatable()
      ensures this.cfg == cfg && fresh(this.weights) && fresh(kv)
      ensures this.weights.tokenEmbeddings == weights.tokenEmbeddings && this.weights.lmHead == weights.lmHead
      ensures this.weights.finalNorm == weights.finalNorm && this.weights.layers == weights.layers
      ensures kv.Valid() && kv.cfg == KvConfigFor(cfg, DEFAULT_MAX_SEQ_LEN)
      ensures this.weights.owner == weights.owner
      ensures fresh(kv.kStore.storage) && fresh(kv.vStore.storage)
      ensures forall i :: 0 <= i < kv.kStore.storage.Length ==> kv.kStore.storage[i] == 0
      ensures forall i :: 0 <= i < kv.vStore.storage.Length ==> kv.vStore.storage[i] == 0
    {
      this.cfg := cfg;
      var copy := weights.Clone();
      this.weights := copy;
      var cache := InitKv(cfg, DEFAULT_MAX_SEQ_LEN);
      kv := cache;
    }

    /** The three-argument constructor: init_kv with the given max_seq_len. */
    constructor WithMaxSeqLen(cfg: ModelCfg, weights: ModelWeights, maxSeqLen: int)
      requires cfg.nHeads != 0 && KvConfigFor(cfg, maxSeqLen).Allocatable()
      ensures this.cfg == cfg && fresh(this.weights) && fresh(kv)
      ensures this.weights.tokenEmbeddings == weights.tokenEmbeddings && this.weights.lmHead == weights.lmHead
      ensures this.weights.finalNorm == weights.finalNorm && this.weights.layers == weights.layers
      ensures kv.Valid() && kv.cfg == KvConfigFor(cfg, maxSeqLen)
      ensures this.weights.owner == weights.owner
      ensures fresh(kv.kStore.storage) && fresh(kv.vStore.storage)
      ensures forall i :: 0 <= i < kv.kStore.storage.Length ==> kv.kStore.storage[i] == 0
      ensures forall i :: 0 <= i < kv.vStore.storage.Length ==> kv.vStore.storage[i] == 0
    {
      this.cfg := cfg;
      var copy := weights.Clone();
      this.weights := copy;
      var cache := InitKv(cfg, maxSeqLen);
      kv := cache;
    }

    /**
     * The first step of forward_decode: an out-of-range token id is refused
     * before anything else; an unbound table is refused by the getter; then
     * a fresh [d_model] F32 vector is allocated and filled from the token's
     * row by dtype, and any other dtype is refused.
     */
    method EmbedToken(tokenId: int) returns (r: Result<Tensor, DecodeError>)
      requires Allocatable([cfg.dModel], F32)
      requires TableFits(weights.tokenEmbeddings, cfg.vocabSize, cfg.dModel)
      ensures r == Err(InvalidToken) <==> !(0 <= tokenId < cfg.vocabSize)
      ensures 0 <= tokenId < cfg.vocabSize && !weights.tokenEmbeddings.Defined() ==>
        r == Err(Weights(NotBound("token embeddings not bound")))
      ensures 0 <= tokenId < cfg.vocabSize && weights.tokenEmbeddings.Defined() && !Widenable(weights.tokenEmbeddings.dt) ==>
        r == Err(UnsupportedEmbeddingDtype)
      ensures r.Ok? <==> 0 <= tokenId < cfg.vocabSize && weights.tokenEmbeddings.Defined() && Widenable(weights.tokenEmbeddings.dt)
      ensures r.Ok? ==> fresh(r.value.storage)
      ensures r.Ok? ==> r.value.view == TensorView(At(r.value.storage, 0), F32, [cfg.dModel], RowMajorStrides([cfg.dModel]))
      ensures r.Ok? ==> r.value.storage[..] == EmbeddingRow(weights.tokenEmbeddings, cfg.vocabSize, cfg.dModel, tokenId)
    {
      if tokenId < 0 || tokenId >= cfg.vocabSize {
        return Err(InvalidToken);
      }
      var got := weights.GetTokenEmbeddings();
      if got.Err? {
        return Err(Weights(got.error));
      }
      var e := got.value;
      var x := Empty([cfg.dModel], F32);
      if !Widenable(e.dt) {
        return Err(UnsupportedEmbeddingDtype);
      }
      FillRow(x.storage, e, cfg.vocabSize, cfg.dModel, tokenId);
      return Ok(x);
    }
  }
}

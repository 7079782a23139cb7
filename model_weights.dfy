/**
 * ModelWeights (weights.hpp, weights.cpp): the engine-side container of bound
 * weight views, filled by setters and read back by getters that refuse
 * unbound or out-of-range entries.
 */
module ModelWeightsCxx {
  import opened Wrappers
  import opened CoreTypes
  import opened Tensors

  /** A `TensorView*` member: None is nullptr. */
  type OptView = Option<TensorView>

  datatype AttentionWeights = AttentionWeights(
    wq: TensorView, wk: TensorView, wv: TensorView, wo: TensorView,
    bq: OptView, bk: OptView, bv: OptView, bo: OptView)

  datatype MlpWeights = MlpWeights(
    w1: TensorView, w2: TensorView, w3: TensorView,
    b1: OptView, b2: OptView, b3: OptView)

  datatype LayerWeights = LayerWeights(
    attn: AttentionWeights, mlp: MlpWeights,
    inputLayernorm: OptView, postAttentionLayernorm: OptView)

  /** A value-initialised TensorView: null data, F32, empty shape and strides. */
  const EMPTY_VIEW: TensorView := TensorView(Null, F32, [], [])

  /** LayerWeightsCXX{}: every view empty and every optional pointer null. */
  const EMPTY_LAYER: LayerWeights := LayerWeights(
    AttentionWeights(EMPTY_VIEW, EMPTY_VIEW, EMPTY_VIEW, EMPTY_VIEW, None, None, None, None),
    MlpWeights(EMPTY_VIEW, EMPTY_VIEW, EMPTY_VIEW, None, None, None),
    None, None)

  /** The exceptions the class throws. */
  datatype WeightsError =
    | NotBound(what: string)       // std::logic_error from a getter
    | LayerOutOfRange               // std::out_of_range
    | LengthError                   // std::length_error from vector::assign with a negative count

  /** A getter's answer: the view when it is bound, logic_error otherwise. */
  function BoundOr(v: TensorView, what: string): (r: Result<TensorView, WeightsError>)
    ensures r.Ok? <==> v.Defined()
    ensures r.Ok? ==> r.value == v
    ensures r.Err? ==> r.error == NotBound(what)
  {
    if v.Defined() then Ok(v) else Err(NotBound(what))
  }

  class ModelWeights {
    var tokenEmbeddings: TensorView
    var lmHead: TensorView
    var finalNorm: TensorView
    var layers: seq<LayerWeights>
    /** shared_ptr<void> keeping the mapping alive; only its identity is modelled. */
    var owner: Option<object>

    /** A default-constructed ModelWeights: nothing bound and no layers. */
    constructor ()
      ensures tokenEmbeddings == EMPTY_VIEW && lmHead == EMPTY_VIEW && finalNorm == EMPTY_VIEW
      ensures layers == [] && owner == None
    {
      tokenEmbeddings := EMPTY_VIEW;
      lmHead := EMPTY_VIEW;
      finalNorm := EMPTY_VIEW;
      layers := [];
      owner := None;
    }

    /** The implicit copy constructor: a new object with the same views, layers and owner. */
    method Clone() returns (c: ModelWeights)
      ensures fresh(c)
      ensures c.tokenEmbeddings == tokenEmbeddings && c.lmHead == lmHead && c.finalNorm == finalNorm
      ensures c.layers == layers && c.owner == owner
    {
      c := new ModelWeights();
      c.tokenEmbeddings, c.lmHead, c.finalNorm := tokenEmbeddings, lmHead, finalNorm;
      c.layers, c.owner := layers, owner;
    }

    function GetTokenEmbeddings(): (r: Result<TensorView, WeightsError>)
      reads this
      ensures r.Ok? <==> tokenEmbeddings.data != Null
      ensures r.Ok? ==> r.value == tokenEmbeddings
    {
      BoundOr(tokenEmbeddings, "token embeddings not bound")
    }

    function GetLmHead(): (r: Result<TensorView, WeightsError>)
      reads this
      ensures r.Ok? <==> lmHead.data != Null
      ensures r.Ok? ==> r.value == lmHead
    {
      BoundOr(lmHead, "lm head not bound")
    }

    function GetFinalNorm(): (r: Result<TensorView, WeightsError>)
      reads this
      ensures r.Ok? <==> finalNorm.data != Null
      ensures r.Ok? ==> r.value == finalNorm
    {
      BoundOr(finalNorm, "final norm not bound")
    }

    /** get_layer_weights: the stored layer, or out_of_range for a negative or too large index. */
    function GetLayerWeights(layerIdx: int): (r: Result<LayerWeights, WeightsError>)
      reads this
      ensures r.Ok? <==> 0 <= layerIdx < |layers|
      ensures r.Ok? ==> r.value == layers[layerIdx]
      ensures r.Err? ==> r.error == LayerOutOfRange
    {
      if layerIdx < 0 || layerIdx >= |layers| then Err(LayerOutOfRange) else Ok(layers[layerIdx])
    }

    function NumLayers(): (n: int)
      reads this
      ensures n == |layers| && n >= 0
    {
      |layers|
    }

    method SetTokenEmbeddings(emb: TensorView)
      modifies this
      ensures GetTokenEmbeddings() == BoundOr(emb, "token embeddings not bound")
      ensures tokenEmbeddings == emb
      ensures lmHead == old(lmHead) && finalNorm == old(finalNorm) && layers == old(layers) && owner == old(owner)
    {
      tokenEmbeddings := emb;
    }

    method SetLmHead(head: TensorView)
      modifies this
      ensures GetLmHead() == BoundOr(head, "lm head not bound")
      ensures lmHead == head
      ensures tokenEmbeddings == old(tokenEmbeddings) && finalNorm == old(finalNorm) && layers == old(layers) && owner == old(owner)
    {
      lmHead := head;
    }

    method SetFinalNorm(norm: TensorView)
      modifies this
      ensures GetFinalNorm() == BoundOr(norm, "final norm not bound")
      ensures finalNorm == norm
      ensures tokenEmbeddings == old(tokenEmbeddings) && lmHead == old(lmHead) && layers == old(layers) && owner == old(owner)
    {
      finalNorm := norm;
    }

    /**
     * set_num_layers: layers_.assign(n, {}). A negative n becomes a huge size_t,
     * which vector::assign refuses with length_error before changing anything.
     */
    method SetNumLayers(n: int) returns (err: Option<WeightsError>)
      modifies this
      ensures n < 0 ==> err == Some(LengthError) && layers == old(layers)
      ensures n >= 0 ==> err == None && NumLayers() == n
      ensures n >= 0 ==> forall i :: 0 <= i < n ==> GetLayerWeights(i) == Ok(EMPTY_LAYER)
      ensures tokenEmbeddings == old(tokenEmbeddings) && lmHead == old(lmHead) && finalNorm == old(finalNorm) && owner == old(owner)
    {
      if n < 0 {
        return Some(LengthError);
      }
      layers := seq(n, _ => EMPTY_LAYER);
      err := None;
    }

    /** set_layer_weights: replaces one layer; out_of_range leaves everything as it was. */
    method SetLayerWeights(layerIdx: int, lw: LayerWeights) returns (err: Option<WeightsError>)
      modifies this
      ensures err.Some? <==> !(0 <= layerIdx < old(|layers|))
      ensures err.Some? ==> err == Some(LayerOutOfRange) && layers == old(layers)
      ensures err.None? ==> GetLayerWeights(layerIdx) == Ok(lw)
      ensures err.None? ==> layers == old(layers)[layerIdx := lw]
      ensures tokenEmbeddings == old(tokenEmbeddings) && lmHead == old(lmHead) && finalNorm == old(finalNorm) && owner == old(owner)
    {
      if layerIdx < 0 || layerIdx >= |layers| {
        return Some(LayerOutOfRange);
      }
      layers := layers[layerIdx := lw];
      err := None;
    }

    method SetOwner(o: Option<object>)
      modifies this
      ensures owner == o
      ensures tokenEmbeddings == old(tokenEmbeddings) && lmHead == old(lmHead) && finalNorm == old(finalNorm) && layers == old(layers)
    {
      owner := o;
    }
  }
}

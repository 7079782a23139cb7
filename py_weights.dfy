/**
 * bind_safetensors (model/weights.py): fetches the token embedding and six
 * tensors per layer from an open SafeTensorFile, checks each shape against
 * the hyperparameters, and collects the per-layer arrays in dicts keyed by
 * layer index. A missing name surfaces as the reader's KeyError, a wrong
 * shape as a ValueError naming the tensor.
 */
module PyWeights {
  import opened Wrappers
  import opened Decimal
  import opened SafetensorsTable
  import opened SafetensorsPyReader

  /** The hyperparameters the binding reads (ModelCfg's rope fields play no part). */
  datatype ModelCfg = ModelCfg(dModel: int, nLayers: int, nHeads: int, vocabSize: int)

  /** The ModelWeights dataclass; the optional fields are None after binding. */
  datatype ModelWeights = ModelWeights(
    tokEmbed: NpArray, finalProj: Option<NpArray>,
    qkvW: map<nat, NpArray>, qkvB: Option<map<nat, NpArray>>,
    outW: map<nat, NpArray>, outB: Option<map<nat, NpArray>>,
    ln1G: map<nat, NpArray>, ln1B: Option<map<nat, NpArray>>,
    ln2G: map<nat, NpArray>, ln2B: Option<map<nat, NpArray>>,
    ffnW1: map<nat, NpArray>, ffnW2: map<nat, NpArray>)
  {
    /** The six per-layer dicts together. */
    function Layers(): LayerMaps
    {
      LayerMaps(qkvW, outW, ln1G, ln2G, ffnW1, ffnW2)
    }
  }

  /** What bind_safetensors raises: the reader's KeyError, or a ValueError about a shape. */
  datatype BindError =
    | Missing(error: ReaderError)
    | TokEmbedShape(expected: seq<int>, got: seq<nat>)
    | LayerShape(name: string, got: seq<nat>)

  const TOK_EMBED: string := "tok_embed.weight"
  const QKV: string := "attn.qkv.weight"
  const OUT: string := "attn.out.weight"
  const LN1: string := "ln1.g"
  const LN2: string := "ln2.g"
  const FFN_W1: string := "ffn.w1.weight"
  const FFN_W2: string := "ffn.w2.weight"

  /** f"layers.{i}.{part}". */
  function LayerName(i: nat, part: string): string
  {
    "layers." + NatDigits(i) + "." + part
  }

  /** get_arr(name): st.get(name) as a NumPy array, or its KeyError. */
  function GetArr(st: SafeTensorFile, name: string): (r: Result<NpArray, BindError>)
    reads st
    requires st.Valid()
    ensures r.Err? <==> name !in st.entries.values
    ensures r.Err? ==> r.error == Missing(NoSuchTensor(name))
    ensures r.Ok? ==> r.value.shape == st.entries.values[name].shape
  {
    var g := st.Get(name, true);
    if g.Err? then Err(Missing(g.error)) else Ok(g.value.0.arr)
  }

  /** One layer's six arrays, in the order they are fetched. */
  datatype Layer = Layer(qkv: NpArray, out: NpArray, g1: NpArray, g2: NpArray, w1: NpArray, w2: NpArray)
  {
    /** The shapes the docstring lists for d_model = d. */
    predicate Fits(d: int)
    {
      qkv.shape == [d, 3 * d] && out.shape == [d, d] && g1.shape == [d] && g2.shape == [d]
      && w1.shape == [d, 4 * d] && w2.shape == [4 * d, d]
    }
  }

  /** The six gets of layer i: the first missing name ends the binding. */
  function FetchLayer(st: SafeTensorFile, i: nat): Result<Layer, BindError>
    reads st
    requires st.Valid()
  {
    var qkv :- GetArr(st, LayerName(i, QKV));
    var out :- GetArr(st, LayerName(i, OUT));
    var g1 :- GetArr(st, LayerName(i, LN1));
    var g2 :- GetArr(st, LayerName(i, LN2));
    var w1 :- GetArr(st, LayerName(i, FFN_W1));
    var w2 :- GetArr(st, LayerName(i, FFN_W2));
    Ok(Layer(qkv, out, g1, g2, w1, w2))
  }

  /** The six shape checks of layer i, in order: the first mismatch names its tensor. */
  function CheckLayer(cfg: ModelCfg, i: nat, l: Layer): Option<BindError>
  {
    var d := cfg.dModel;
    if l.qkv.shape != [d, 3 * d] then Some(LayerShape(LayerName(i, QKV), l.qkv.shape))
    else if l.out.shape != [d, d] then Some(LayerShape(LayerName(i, OUT), l.out.shape))
    else if l.g1.shape != [d] then Some(LayerShape(LayerName(i, LN1), l.g1.shape))
    else if l.g2.shape != [d] then Some(LayerShape(LayerName(i, LN2), l.g2.shape))
    else if l.w1.shape != [d, 4 * d] then Some(LayerShape(LayerName(i, FFN_W1), l.w1.shape))
    else if l.w2.shape != [4 * d, d] then Some(LayerShape(LayerName(i, FFN_W2), l.w2.shape))
    else None
  }

  /** The six per-layer dicts. */
  datatype LayerMaps = LayerMaps(qkv: map<nat, NpArray>, out: map<nat, NpArray>, g1: map<nat, NpArray>,
                                 g2: map<nat, NpArray>, w1: map<nat, NpArray>, w2: map<nat, NpArray>)
  {
    /** The six insertions for layer i. */
    function Put(i: nat, l: Layer): LayerMaps
    {
      LayerMaps(qkv[i := l.qkv], out[i := l.out], g1[i := l.g1], g2[i := l.g2], w1[i := l.w1], w2[i := l.w2])
    }

    /** Each of the six dicts has the keys 0 .. n - 1 and no other. */
    ghost predicate Holds(n: nat)
    {
      forall j: nat :: (j in qkv <==> j < n) && (j in out <==> j < n) && (j in g1 <==> j < n)
        && (j in g2 <==> j < n) && (j in w1 <==> j < n) && (j in w2 <==> j < n)
    }

    /** All six dicts have key j. */
    predicate Has(j: nat)
    {
      j in qkv && j in out && j in g1 && j in g2 && j in w1 && j in w2
    }

    /** The six arrays stored for layer j. */
    function LayerAt(j: nat): Layer
      requires Has(j)
    {
      Layer(qkv[j], out[j], g1[j], g2[j], w1[j], w2[j])
    }
  }

  const NO_LAYERS: LayerMaps := LayerMaps(map[], map[], map[], map[], map[], map[])

  /** Layer i as the loop body sees it: the six gets, then the six checks. */
  function LayerResult(st: SafeTensorFile, cfg: ModelCfg, i: nat): Result<Layer, BindError>
    reads st
    requires st.Valid()
  {
    var l :- FetchLayer(st, i);
    match CheckLayer(cfg, i, l)
    case Some(e) => Err(e)
    case None => Ok(l)
  }

  /** The number of iterations of range(n_layers). */
  function LayerCount(cfg: ModelCfg): nat
  {
    if cfg.nLayers < 0 then 0 else cfg.nLayers
  }

  /** What each iteration of the layer loop would produce, layer by layer. */
  function LayerResults(st: SafeTensorFile, cfg: ModelCfg): (rs: seq<Result<Layer, BindError>>)
    reads st
    requires st.Valid()
    ensures |rs| == LayerCount(cfg)
    ensures forall i :: 0 <= i < |rs| ==> rs[i] == LayerResult(st, cfg, i)
  {
    seq(LayerCount(cfg), i requires 0 <= i && st.Valid() reads st => LayerResult(st, cfg, i))
  }

  /** The layer loop from layer i on, with the dicts filled so far: the first failing layer ends it. */
  function Collect(rs: seq<Result<Layer, BindError>>, i: nat, acc: LayerMaps): Result<LayerMaps, BindError>
    decreases |rs| - i
  {
    if i >= |rs| then Ok(acc)
    else
      match rs[i]
      case Err(e) => Err(e)
      case Ok(l) => Collect(rs, i + 1, acc.Put(i, l))
  }

  /** bind_safetensors: the token embedding first, then the layers. */
  function Bind(st: SafeTensorFile, cfg: ModelCfg): Result<ModelWeights, BindError>
    reads st
    requires st.Valid()
  {
    var tok :- GetArr(st, TOK_EMBED);
    if tok.shape != [cfg.vocabSize, cfg.dModel] then Err(TokEmbedShape([cfg.vocabSize, cfg.dModel], tok.shape))
    else
      var m :- Collect(LayerResults(st, cfg), 0, NO_LAYERS);
      Ok(ModelWeights(tok, None, m.qkv, None, m.out, None, m.g1, None, m.g2, None, m.w1, m.w2))
  }

  /** bind_safetensors as written: the layer loop fills the six dicts in place. */
  method BindSafetensors(st: SafeTensorFile, cfg: ModelCfg) returns (r: Result<ModelWeights, BindError>)
    requires st.Valid()
    ensures r == Bind(st, cfg)
  {
    var expectTok := [cfg.vocabSize, cfg.dModel];
    var tok :- GetArr(st, TOK_EMBED);
    if tok.shape != expectTok {
      return Err(TokEmbedShape(expectTok, tok.shape));
    }
    ghost var rs := LayerResults(st, cfg);
    var qkvW: map<nat, NpArray>, outW: map<nat, NpArray>, ln1G: map<nat, NpArray> := map[], map[], map[];
    var ln2G: map<nat, NpArray>, ffnW1: map<nat, NpArray>, ffnW2: map<nat, NpArray> := map[], map[], map[];
    for i := 0 to LayerCount(cfg)
      invariant Collect(rs, i, LayerMaps(qkvW, outW, ln1G, ln2G, ffnW1, ffnW2)) == Collect(rs, 0, NO_LAYERS)
    {
      var l :- BindLayer(st, cfg, i);
      qkvW := qkvW[i := l.qkv];
      outW := outW[i := l.out];
      ln1G := ln1G[i := l.g1];
      ln2G := ln2G[i := l.g2];
      ffnW1 := ffnW1[i := l.w1];
      ffnW2 := ffnW2[i := l.w2];
    }
    r := Ok(ModelWeights(tok, None, qkvW, None, outW, None, ln1G, None, ln2G, None, ffnW1, ffnW2));
  }

  /** The body of the layer loop: six gets, then six shape checks, each raising on failure. */
  method BindLayer(st: SafeTensorFile, cfg: ModelCfg, i: nat) returns (r: Result<Layer, BindError>)
    requires st.Valid()
    ensures r == LayerResult(st, cfg, i)
  {
    var d := cfg.dModel;
    var qkv :- GetArr(st, LayerName(i, QKV));
    var out :- GetArr(st, LayerName(i, OUT));
    var g1 :- GetArr(st, LayerName(i, LN1));
    var g2 :- GetArr(st, LayerName(i, LN2));
    var w1 :- GetArr(st, LayerName(i, FFN_W1));
    var w2 :- GetArr(st, LayerName(i, FFN_W2));
    if qkv.shape != [d, 3 * d] {
      return Err(LayerShape(LayerName(i, QKV), qkv.shape));
    }
    if out.shape != [d, d] {
      return Err(LayerShape(LayerName(i, OUT), out.shape));
    }
    if g1.shape != [d] {
      return Err(LayerShape(LayerName(i, LN1), g1.shape));
    }
    if g2.shape != [d] {
      return Err(LayerShape(LayerName(i, LN2), g2.shape));
    }
    if w1.shape != [d, 4 * d] {
      return Err(LayerShape(LayerName(i, FFN_W1), w1.shape));
    }
    if w2.shape != [4 * d, d] {
      return Err(LayerShape(LayerName(i, FFN_W2), w2.shape));
    }
    r := Ok(Layer(qkv, out, g1, g2, w1, w2));
  }

  // ---------------------------------------------------------------------
  // what a successful binding guarantees, and when it fails
  // ---------------------------------------------------------------------

  /** The file holds a tensor of that name with exactly that shape. */
  predicate HasShape(st: SafeTensorFile, name: string, dims: seq<int>)
    reads st
  {
    name in st.entries.values && st.entries.values[name].shape == dims
  }

  /** The six tensors of layer i are present with the shapes the hyperparameters demand. */
  predicate LayerWellShaped(st: SafeTensorFile, cfg: ModelCfg, i: nat)
    reads st
  {
    var d := cfg.dModel;
    HasShape(st, LayerName(i, QKV), [d, 3 * d]) && HasShape(st, LayerName(i, OUT), [d, d])
    && HasShape(st, LayerName(i, LN1), [d]) && HasShape(st, LayerName(i, LN2), [d])
    && HasShape(st, LayerName(i, FFN_W1), [d, 4 * d]) && HasShape(st, LayerName(i, FFN_W2), [4 * d, d])
  }

  /** Every tensor the binding fetches is present with its expected shape. */
  predicate WellShaped(st: SafeTensorFile, cfg: ModelCfg)
    reads st
  {
    HasShape(st, TOK_EMBED, [cfg.vocabSize, cfg.dModel])
    && forall i: nat :: i < LayerCount(cfg) ==> LayerWellShaped(st, cfg, i)
  }

  /** A layer binds exactly when its six tensors are present and well shaped. */
  lemma LayerResultOk(st: SafeTensorFile, cfg: ModelCfg, i: nat)
    requires st.Valid()
    ensures LayerResult(st, cfg, i).Ok? <==> LayerWellShaped(st, cfg, i)
    ensures LayerResult(st, cfg, i).Ok? ==>
      LayerResult(st, cfg, i).value ==
        Layer(GetArr(st, LayerName(i, QKV)).value, GetArr(st, LayerName(i, OUT)).value,
              GetArr(st, LayerName(i, LN1)).value, GetArr(st, LayerName(i, LN2)).value,
              GetArr(st, LayerName(i, FFN_W1)).value, GetArr(st, LayerName(i, FFN_W2)).value)
  {
  }

  /** The six checks pass exactly when the layer has the listed shapes. */
  lemma CheckLayerFits(cfg: ModelCfg, i: nat, l: Layer)
    ensures CheckLayer(cfg, i, l).None? <==> l.Fits(cfg.dModel)
  {
  }

  /** The loop succeeds exactly when every remaining layer does. */
  lemma {:induction false} CollectOk(rs: seq<Result<Layer, BindError>>, i: nat, acc: LayerMaps)
    ensures Collect(rs, i, acc).Ok? <==> forall j :: i <= j < |rs| ==> rs[j].Ok?
    decreases |rs| - i
  {
    if i < |rs| && rs[i].Ok? {
      CollectOk(rs, i + 1, acc.Put(i, rs[i].value));
    }
  }

  /** From dicts keyed by 0 .. i - 1, a successful loop leaves dicts keyed by exactly 0 .. |rs| - 1. */
  lemma {:induction false} CollectKeys(rs: seq<Result<Layer, BindError>>, i: nat, acc: LayerMaps)
    requires i <= |rs| && acc.Holds(i) && Collect(rs, i, acc).Ok?
    ensures Collect(rs, i, acc).value.Holds(|rs|)
    decreases |rs| - i
  {
    if i < |rs| {
      CollectKeys(rs, i + 1, acc.Put(i, rs[i].value));
    }
  }

  /** A successful loop keeps the layers already stored. */
  lemma {:induction false} CollectKeeps(rs: seq<Result<Layer, BindError>>, i: nat, acc: LayerMaps, j: nat)
    requires j < i && acc.Has(j) && Collect(rs, i, acc).Ok?
    ensures Collect(rs, i, acc).value.Has(j) && Collect(rs, i, acc).value.LayerAt(j) == acc.LayerAt(j)
    decreases |rs| - i
  {
    if i < |rs| {
      CollectKeeps(rs, i + 1, acc.Put(i, rs[i].value), j);
    }
  }

  /** A successful loop stores under key j what iteration j produced. */
  lemma {:induction false} CollectStores(rs: seq<Result<Layer, BindError>>, i: nat, acc: LayerMaps, j: nat)
    requires i <= j < |rs| && Collect(rs, i, acc).Ok?
    ensures rs[j].Ok? && Collect(rs, i, acc).value.Has(j) && Collect(rs, i, acc).value.LayerAt(j) == rs[j].value
    decreases |rs| - i
  {
    if i < j {
      CollectStores(rs, i + 1, acc.Put(i, rs[i].value), j);
    } else {
      CollectKeeps(rs, i + 1, acc.Put(i, rs[i].value), j);
    }
  }

  /** A successful binding keeps the dicts the layer loop filled. */
  lemma BindLayersFrom(st: SafeTensorFile, cfg: ModelCfg)
    requires st.Valid() && Bind(st, cfg).Ok?
    ensures Collect(LayerResults(st, cfg), 0, NO_LAYERS).Ok?
    ensures Bind(st, cfg).value.Layers() == Collect(LayerResults(st, cfg), 0, NO_LAYERS).value
  {
  }

  /** A successful layer result is the fetched layer, and it has the listed shapes. */
  lemma LayerResultParts(st: SafeTensorFile, cfg: ModelCfg, j: nat, l: Layer)
    requires st.Valid() && LayerResult(st, cfg, j) == Ok(l)
    ensures FetchLayer(st, j) == Ok(l) && l.Fits(cfg.dModel)
  {
    CheckLayerFits(cfg, j, l);
  }

  /**
   * A successful binding holds the token embedding fetched from the file,
   * of shape (vocab_size, d_model), and None in final_proj and every bias
   * field.
   */
  lemma BoundTokEmbed(st: SafeTensorFile, cfg: ModelCfg)
    requires st.Valid() && Bind(st, cfg).Ok?
    ensures Bind(st, cfg).value.tokEmbed == GetArr(st, TOK_EMBED).value
    ensures Bind(st, cfg).value.tokEmbed.shape == [cfg.vocabSize, cfg.dModel]
    ensures Bind(st, cfg).value.finalProj.None? && Bind(st, cfg).value.qkvB.None? && Bind(st, cfg).value.outB.None?
    ensures Bind(st, cfg).value.ln1B.None? && Bind(st, cfg).value.ln2B.None?
  {
  }

  /**
   * After a successful binding the six per-layer dicts are keyed by exactly
   * 0 .. n_layers - 1, and under each key lie the layer's six named tensors,
   * with the expected shapes.
   */
  lemma BoundLayers(st: SafeTensorFile, cfg: ModelCfg)
    requires st.Valid() && Bind(st, cfg).Ok?
    ensures Bind(st, cfg).value.Layers().Holds(LayerCount(cfg))
    ensures forall j: nat :: j < LayerCount(cfg) ==>
      Bind(st, cfg).value.Layers().Has(j) && FetchLayer(st, j) == Ok(Bind(st, cfg).value.Layers().LayerAt(j))
      && Bind(st, cfg).value.Layers().LayerAt(j).Fits(cfg.dModel)
  {
    var rs := LayerResults(st, cfg);
    BindLayersFrom(st, cfg);
    var m := Collect(rs, 0, NO_LAYERS).value;
    assert NO_LAYERS.Holds(0);
    CollectKeys(rs, 0, NO_LAYERS);
    forall j: nat | j < LayerCount(cfg)
      ensures m.Has(j) && FetchLayer(st, j) == Ok(m.LayerAt(j)) && m.LayerAt(j).Fits(cfg.dModel)
    {
      CollectStores(rs, 0, NO_LAYERS, j);
      LayerResultParts(st, cfg, j, m.LayerAt(j));
    }
  }

  /** The binding succeeds exactly when every tensor it fetches is present with its expected shape. */
  lemma BindOkIff(st: SafeTensorFile, cfg: ModelCfg)
    requires st.Valid()
    ensures Bind(st, cfg).Ok? <==> WellShaped(st, cfg)
  {
    var rs := LayerResults(st, cfg);
    CollectOk(rs, 0, NO_LAYERS);
    forall j: nat | j < LayerCount(cfg)
      ensures rs[j].Ok? <==> LayerWellShaped(st, cfg, j)
    {
      LayerResultOk(st, cfg, j);
    }
  }
}

/**
 The name tables of the five text-stack layouts, and that each is named as the audit needs.
 */
module LayoutTables {
  import opened Common
  import opened LayoutSets
  import opened LayoutAudit

  const TEXT_PREFIX := "model.language_model."
  const TEXT_LAYERS := TEXT_PREFIX + "layers."
  const MODEL_PREFIX := "model."
  const MODEL_LAYERS := MODEL_PREFIX + "layers."

  /** A layer's lines carry names below the layer's own. */
  function Below(hf: string, lines: seq<Check>): (checks: seq<Check>)
    ensures |checks| == |lines|
  {
    seq(|lines|, i requires 0 <= i < |lines| =>
      match lines[i]
      case Consume(n, shape) => Consume(hf + n, shape)
      case Present(n) => Present(hf + n)
      case Absent(n) => Absent(hf + n))
  }

  function LayerName(prefix: string, i: nat): string { prefix + ToDecimal(i) + "." }

  lemma BelowNamed(prefix: string, bound: nat, i: nat, lines: seq<Check>, c: Check)
    requires i <= bound && c in Below(LayerName(prefix, i), lines) && c.Consume?
    ensures LayerOf(prefix, bound, c.name) == i
  {
    var k :| 0 <= k < |lines| && Below(LayerName(prefix, i), lines)[k] == c;
    PrintedLayer(prefix, bound, i, lines[k].name);
  }

  lemma NotALayer(prefix: string, bound: nat, rest: string)
    requires rest != [] && rest[0] != 'l'
    ensures LayerOf(prefix + "layers.", bound, prefix + rest) == -1
  {
    assert (prefix + rest)[|prefix|] == rest[0] && (prefix + "layers.")[|prefix|] == 'l';
  }

  /** The untied head. */
  function Head(vocab: int, hidden: int): seq<Check> { [Consume("lm_head.weight", [vocab, hidden])] }

  // ---- qwen4_exp and qwen3_5_moe -------------------------------------------------------------------------------

  datatype Shape = Shape(hidden: int, layersTotal: nat, vocab: int, heads: int, kvHeads: int, headDim: int,
                         numExperts: nat, moeInter: int, sharedInter: int, hcCount: int, hcLowrank: int,
                         linearKeyHeads: int, linearValueHeads: int, linearKeyDim: int, linearValueDim: int,
                         convKernel: int, indexerHeads: int, indexerKvHeads: int, indexerHeadDim: int,
                         pleEmbedDim: int, pleConvKernel: int, pleLayers: set<nat>, fullLayers: set<nat>) {
    function StreamWidth(): int { hcCount * hidden }
    function QkvRows(): int { 2 * linearKeyHeads * linearKeyDim + linearValueHeads * linearValueDim }
  }

  /** The gated residual around the mixer and around the MoE. */
  function HyperConnection(s: Shape, block: string): seq<Check> {
    [ Consume(block + "_hyper_connection.hc_norm.weight", [s.StreamWidth()]),
      Consume(block + "_hyper_connection.input_mix_weight_down.weight", [s.hcLowrank, s.StreamWidth()]),
      Consume(block + "_hyper_connection.input_mix_weight_up.weight", [s.StreamWidth(), s.hcLowrank]),
      Consume(block + "_hyper_connection.block_inject_weight.weight", [s.hcCount, s.StreamWidth()]) ]
  }

  function FullAttention(s: Shape): seq<Check> {
    [ Absent("linear_attn.in_proj_qkv.weight"),
      Consume("self_attn.q_proj.weight", [2 * (s.heads * s.headDim), s.hidden]),
      Consume("self_attn.k_proj.weight", [s.kvHeads * s.headDim, s.hidden]),
      Consume("self_attn.v_proj.weight", [s.kvHeads * s.headDim, s.hidden]),
      Consume("self_attn.o_proj.weight", [s.hidden, s.heads * s.headDim]),
      Consume("self_attn.q_norm.weight", [s.headDim]),
      Consume("self_attn.k_norm.weight", [s.headDim]) ]
  }

  function Indexer(s: Shape): seq<Check> {
    [ Consume("self_attn.indexer.index_qk_proj.weight", [(s.indexerHeads + s.indexerKvHeads) * s.indexerHeadDim, s.hidden]),
      Consume("self_attn.indexer.q_layernorm.weight", [s.indexerHeadDim]),
      Consume("self_attn.indexer.k_layernorm.weight", [s.indexerHeadDim]) ]
  }

  function LinearAttention(s: Shape): seq<Check> {
    var z := s.linearValueHeads * s.linearValueDim;
    [ Absent("self_attn.q_proj.weight"),
      Consume("linear_attn.in_proj_qkv.weight", [s.QkvRows(), s.hidden]),
      Consume("linear_attn.in_proj_z.weight", [z, s.hidden]),
      Consume("linear_attn.in_proj_b.weight", [s.linearValueHeads, s.hidden]),
      Consume("linear_attn.in_proj_a.weight", [s.linearValueHeads, s.hidden]),
      Consume("linear_attn.conv1d.weight", [s.QkvRows(), 1, s.convKernel]),
      Consume("linear_attn.A_log", [s.linearValueHeads]),
      Consume("linear_attn.dt_bias", [s.linearValueHeads]),
      Consume("linear_attn.norm.weight", [s.linearValueDim]),
      Consume("linear_attn.out_proj.weight", [s.hidden, z]) ]
  }

  function Ple(s: Shape): seq<Check> {
    [ Consume("ple.key_proj.weight", [s.StreamWidth(), s.pleEmbedDim]),
      Consume("ple.value_proj.weight", [s.hidden, s.pleEmbedDim]),
      Consume("ple.norm_key.weight", [s.StreamWidth()]),
      Consume("ple.norm_query.weight", [s.StreamWidth()]),
      Consume("ple.norm_conv.weight", [s.StreamWidth()]),
      Consume("ple.conv1d.weight", [s.StreamWidth(), 1, s.pleConvKernel]) ]
  }

  function Shared(s: Shape): seq<Check> {
    [ Consume("mlp.gate.weight", [s.numExperts, s.hidden]),
      Consume("mlp.shared_expert.gate_proj.weight", [s.sharedInter, s.hidden]),
      Consume("mlp.shared_expert.up_proj.weight", [s.sharedInter, s.hidden]),
      Consume("mlp.shared_expert.down_proj.weight", [s.hidden, s.sharedInter]),
      Consume("mlp.shared_expert_gate.weight", [1, s.hidden]) ]
  }

  function Moe(s: Shape): seq<Check> { Shared(s) + Experts(s, s.numExperts) }

  function Experts(s: Shape, n: nat): seq<Check> {
    if n == 0 then []
    else
      var h := "mlp.experts." + ToDecimal(n - 1) + ".";
      Experts(s, n - 1)
      + [ Consume(h + "gate_proj.weight", [s.moeInter, s.hidden]),
          Consume(h + "up_proj.weight", [s.moeInter, s.hidden]),
          Consume(h + "down_proj.weight", [s.hidden, s.moeInter]) ]
  }

  function Qwen4ExpLines(s: Shape, i: nat): seq<Check> {
    HyperConnection(s, "attn") + HyperConnection(s, "mlp")
    + (if i in s.fullLayers then FullAttention(s) + Indexer(s) else LinearAttention(s))
    + (if i in s.pleLayers then Ple(s) else [])
    + Moe(s)
  }

  function Qwen4ExpGlobals(s: Shape): seq<Check> {
    [ Consume("embed_tokens.weight", [s.vocab, s.hidden]),
      Consume("hyper_connection_mixer.hc_norm.weight", [s.StreamWidth()]),
      Consume("hyper_connection_mixer.input_mix_weight_down.weight", [s.hcLowrank, s.StreamWidth()]),
      Consume("hyper_connection_mixer.input_mix_weight_up.weight", [s.StreamWidth(), s.hcLowrank]) ]
  }

  function Qwen4Exp(s: Shape): Layout {
    Layout(TEXT_LAYERS, INT_MAX, s.layersTotal, (i: nat) => Below(LayerName(TEXT_LAYERS, i), Qwen4ExpLines(s, i)),
           Below(TEXT_PREFIX, Qwen4ExpGlobals(s)) + Head(s.vocab, s.hidden))
  }

  function Qwen35MoeLines(s: Shape, i: nat): seq<Check> {
    [ Consume("input_layernorm.weight", [s.hidden]), Consume("post_attention_layernorm.weight", [s.hidden]) ]
    + (if i in s.fullLayers then FullAttention(s) else LinearAttention(s))
    + Moe(s)
  }

  function Qwen35MoeGlobals(s: Shape): seq<Check> {
    [ Consume("embed_tokens.weight", [s.vocab, s.hidden]),
      Consume("norm.weight", [s.hidden]) ]
  }

  function Qwen35Moe(s: Shape): Layout {
    Layout(TEXT_LAYERS, INT_MAX, s.layersTotal, (i: nat) => Below(LayerName(TEXT_LAYERS, i), Qwen35MoeLines(s, i)),
           Below(TEXT_PREFIX, Qwen35MoeGlobals(s)) + Head(s.vocab, s.hidden))
  }

  // ---- llama ---------------------------------------------------------------------------------------------------

  function LlamaLines(s: Shape, intermediate: int): seq<Check> {
    [ Consume("input_layernorm.weight", [s.hidden]),
      Consume("post_attention_layernorm.weight", [s.hidden]),
      Consume("self_attn.q_proj.weight", [s.heads * s.headDim, s.hidden]),
      Consume("self_attn.k_proj.weight", [s.kvHeads * s.headDim, s.hidden]),
      Consume("self_attn.v_proj.weight", [s.kvHeads * s.headDim, s.hidden]),
      Consume("self_attn.o_proj.weight", [s.hidden, s.heads * s.headDim]),
      Consume("mlp.gate_proj.weight", [intermediate, s.hidden]),
      Consume("mlp.up_proj.weight", [intermediate, s.hidden]),
      Consume("mlp.down_proj.weight", [s.hidden, intermediate]) ]
  }

  function LlamaGlobals(s: Shape): seq<Check> {
    [ Consume("embed_tokens.weight", [s.vocab, s.hidden]),
      Consume("norm.weight", [s.hidden]) ]
  }

  function Llama(s: Shape, intermediate: int): Layout {
    Layout(MODEL_LAYERS, INT64_MAX, s.layersTotal, (i: nat) => Below(LayerName(MODEL_LAYERS, i), LlamaLines(s, intermediate)),
           Below(MODEL_PREFIX, LlamaGlobals(s)) + Head(s.vocab, s.hidden))
  }

  // ---- gemma ---------------------------------------------------------------------------------------------------

  datatype GemmaShape = GemmaShape(hidden: int, layersTotal: nat, vocab: int, heads: int, kvSliding: int, kvFull: int,
                                   headDim: int, globalHeadDim: int, intermediate: int, fullLayers: set<nat>)

  function GemmaFront(s: GemmaShape, hd: int, kv: int): seq<Check> {
    [ Consume("input_layernorm.weight", [s.hidden]),
      Consume("post_attention_layernorm.weight", [s.hidden]),
      Consume("pre_feedforward_layernorm.weight", [s.hidden]),
      Consume("post_feedforward_layernorm.weight", [s.hidden]),
      Consume("self_attn.q_proj.weight", [s.heads * hd, s.hidden]),
      Consume("self_attn.k_proj.weight", [kv * hd, s.hidden]) ]
  }

  function GemmaBack(s: GemmaShape, hd: int): seq<Check> {
    [ Consume("self_attn.o_proj.weight", [s.hidden, s.heads * hd]),
      Consume("self_attn.q_norm.weight", [hd]),
      Consume("self_attn.k_norm.weight", [hd]),
      Consume("mlp.gate_proj.weight", [s.intermediate, s.hidden]),
      Consume("mlp.up_proj.weight", [s.intermediate, s.hidden]),
      Consume("mlp.down_proj.weight", [s.hidden, s.intermediate]),
      Consume("layer_scalar", [1]) ]
  }

  /** A full layer's V is its raw K projection: a v_proj there is refused, and one is required on a sliding layer. */
  function GemmaLines(s: GemmaShape, i: nat): seq<Check> {
    if i in s.fullLayers then
      [Absent("self_attn.v_proj.weight")] + GemmaFront(s, s.globalHeadDim, s.kvFull) + GemmaBack(s, s.globalHeadDim)
    else
      [Present("self_attn.v_proj.weight")] + GemmaFront(s, s.headDim, s.kvSliding)
      + [Consume("self_attn.v_proj.weight", [s.kvSliding * s.headDim, s.hidden])] + GemmaBack(s, s.headDim)
  }

  /** The globals of a layout with a tied head: embedding and final norm, then the head, which is the embedding again. */
  function TiedGlobals(vocab: int, hidden: int, norm: string): seq<Check> {
    [ Consume("embed_tokens.weight", [vocab, hidden]), Consume(norm, [hidden]), Consume("embed_tokens.weight", [vocab, hidden]) ]
  }

  function GemmaGlobals(s: GemmaShape): seq<Check> { TiedGlobals(s.vocab, s.hidden, "norm.weight") }

  function Gemma(s: GemmaShape): Layout {
    Layout(TEXT_LAYERS, INT_MAX, s.layersTotal, (i: nat) => Below(LayerName(TEXT_LAYERS, i), GemmaLines(s, i)),
           Below(TEXT_PREFIX, GemmaGlobals(s)) + [])
  }

  // ---- lfm2 ----------------------------------------------------------------------------------------------------

  datatype Lfm2Shape = Lfm2Shape(hidden: int, layersTotal: nat, vocab: int, heads: int, kvHeads: int, headDim: int,
                                 denseIntermediate: int, moeIntermediate: int, numDenseLayers: nat, numExperts: nat,
                                 convKernel: int, attnLayers: set<nat>)

  function Lfm2Experts(s: Lfm2Shape, n: nat): seq<Check> {
    if n == 0 then []
    else
      var ex := "feed_forward.experts." + ToDecimal(n - 1) + ".";
      Lfm2Experts(s, n - 1)
      + [ Consume(ex + "w1.weight", [s.moeIntermediate, s.hidden]),
          Consume(ex + "w3.weight", [s.moeIntermediate, s.hidden]),
          Consume(ex + "w2.weight", [s.hidden, s.moeIntermediate]) ]
  }

  function Lfm2Norms(s: Lfm2Shape): seq<Check> {
    [ Consume("operator_norm.weight", [s.hidden]), Consume("ffn_norm.weight", [s.hidden]) ]
  }

  function Lfm2Attention(s: Lfm2Shape): seq<Check> {
    [ Consume("self_attn.q_proj.weight", [s.heads * s.headDim, s.hidden]),
      Consume("self_attn.k_proj.weight", [s.kvHeads * s.headDim, s.hidden]),
      Consume("self_attn.v_proj.weight", [s.kvHeads * s.headDim, s.hidden]),
      Consume("self_attn.out_proj.weight", [s.hidden, s.heads * s.headDim]),
      Consume("self_attn.q_layernorm.weight", [s.headDim]),
      Consume("self_attn.k_layernorm.weight", [s.headDim]) ]
  }

  function Lfm2Conv(s: Lfm2Shape): seq<Check> {
    [ Consume("conv.in_proj.weight", [3 * s.hidden, s.hidden]),
      Consume("conv.conv.weight", [s.hidden, 1, s.convKernel]),
      Consume("conv.out_proj.weight", [s.hidden, s.hidden]) ]
  }

  function Lfm2Dense(s: Lfm2Shape): seq<Check> {
    [ Consume("feed_forward.w1.weight", [s.denseIntermediate, s.hidden]),
      Consume("feed_forward.w3.weight", [s.denseIntermediate, s.hidden]),
      Consume("feed_forward.w2.weight", [s.hidden, s.denseIntermediate]) ]
  }

  /** A checkpoint with fused experts is refused, not left to the audit. */
  function Lfm2Router(s: Lfm2Shape): seq<Check> {
    [ Absent("feed_forward.experts.gate_up_proj"),
      Absent("feed_forward.experts.down_proj"),
      Consume("feed_forward.gate.weight", [s.numExperts, s.hidden]),
      Consume("feed_forward.expert_bias", [s.numExperts]) ]
  }

  function Lfm2Lines(s: Lfm2Shape, i: nat): seq<Check> {
    Lfm2Norms(s) + (if i in s.attnLayers then Lfm2Attention(s) else Lfm2Conv(s))
    + (if i < s.numDenseLayers then Lfm2Dense(s) else Lfm2Router(s) + Lfm2Experts(s, s.numExperts))
  }

  function Lfm2Globals(s: Lfm2Shape): seq<Check> { TiedGlobals(s.vocab, s.hidden, "embedding_norm.weight") }

  function Lfm2(s: Lfm2Shape): Layout {
    Layout(MODEL_LAYERS, INT64_MAX, s.layersTotal, (i: nat) => Below(LayerName(MODEL_LAYERS, i), Lfm2Lines(s, i)),
           Below(MODEL_PREFIX, Lfm2Globals(s)) + [])
  }

  // ---- shapes -------------------------------------------------------------------------------------------------

  ghost predicate Takes(lines: seq<Check>, name: string, shape: seq<int>) { Consume(name, shape) in lines }

  lemma {:induction false} ExpertTaken(s: Shape, n: nat, e: nat)
    requires e < n
    ensures var h := "mlp.experts." + ToDecimal(e) + ".";
            && Takes(Experts(s, n), h + "gate_proj.weight", [s.moeInter, s.hidden])
            && Takes(Experts(s, n), h + "up_proj.weight", [s.moeInter, s.hidden])
            && Takes(Experts(s, n), h + "down_proj.weight", [s.hidden, s.moeInter])
  {
    if e < n - 1 {
      ExpertTaken(s, n - 1, e);
    } else {
      var lines := Experts(s, n);
      var k := |Experts(s, n - 1)|;
      assert lines[k] in lines && lines[k + 1] in lines && lines[k + 2] in lines;
    }
  }

  /** Every layer of both qwen stacks asks for the mixer its position calls for and for every expert of its MoE. */
  lemma QwenLayerTakes(s: Shape, i: nat, c: Check)
    requires c in (if i in s.fullLayers then FullAttention(s) else LinearAttention(s)) + Experts(s, s.numExperts)
    ensures c in Qwen4ExpLines(s, i) && c in Qwen35MoeLines(s, i)
  {
    hide FullAttention, LinearAttention, Experts, Shared, HyperConnection, Ple, Indexer;
  }

  // ---- gemma's other modalities --------------------------------------------------------------------------------

  datatype Modality = Vision | Audio

  /** The modality of a name that is passed through. */
  function ModalityOf(name: string): Option<Modality> {
    if "model.vision_embedder." <= name || "model.embed_vision." <= name then Some(Vision)
    else if "model.embed_audio." <= name then Some(Audio)
    else None
  }

  /** Its container name: below its modality, without the leading "model.". */
  function PassthroughName(name: string): (out: string)
    requires ModalityOf(name).Some?
  {
    (if ModalityOf(name).value.Vision? then "vision." else "audio.") + name[|MODEL_PREFIX|..]
  }

  ghost predicate IsVision(name: string) {
    exists rest: string :: name == "model.vision_embedder." + rest || name == "model.embed_vision." + rest
  }

  ghost predicate IsAudio(name: string) { exists rest: string :: name == "model.embed_audio." + rest }

  /** Which names are passed through, as which modality, and under which names. */
  lemma ModalitySpelled(name: string)
    ensures ModalityOf(name) == Some(Vision) <==> IsVision(name)
    ensures ModalityOf(name) == Some(Audio) <==> IsAudio(name)
    ensures forall rest :: name == "model." + rest && IsVision(name) ==> PassthroughName(name) == "vision." + rest
    ensures forall rest :: name == "model." + rest && IsAudio(name) ==> PassthroughName(name) == "audio." + rest
  {
    if "model.vision_embedder." <= name { assert name == "model.vision_embedder." + name[22..]; }
    if "model.embed_vision." <= name { assert name == "model.embed_vision." + name[19..]; }
    if "model.embed_audio." <= name { assert name == "model.embed_audio." + name[18..]; }
    if IsAudio(name) { assert name[6] == 'e' && name[12] == 'a'; }
  }

  /** No two tensors get one container name. */
  lemma PassthroughDistinct(a: string, b: string)
    requires ModalityOf(a).Some? && ModalityOf(b).Some? && PassthroughName(a) == PassthroughName(b)
    ensures a == b
  {
    var x, y := PassthroughName(a), PassthroughName(b);
    assert x[0] == if ModalityOf(a).value.Vision? then 'v' else 'a';
    assert y[0] == if ModalityOf(b).value.Vision? then 'v' else 'a';
    var n := if ModalityOf(a).value.Vision? then 7 else 6;
    assert x[n..] == a[|MODEL_PREFIX|..] && y[n..] == b[|MODEL_PREFIX|..];
    assert MODEL_PREFIX <= a && MODEL_PREFIX <= b;
    assert a == MODEL_PREFIX + a[|MODEL_PREFIX|..] && b == MODEL_PREFIX + b[|MODEL_PREFIX|..];
  }

  predicate Wanted(m: Option<Modality>, doVision: bool, doAudio: bool) {
    m.Some? && if m.value.Vision? then doVision else doAudio
  }

  lemma WantedMeans(name: string, doVision: bool, doAudio: bool)
    ensures Wanted(ModalityOf(name), doVision, doAudio) <==> (doVision && IsVision(name)) || (doAudio && IsAudio(name))
    ensures ModalityOf(name).Some? <==> IsVision(name) || IsAudio(name)
  {
    hide ModalityOf, IsVision, IsAudio;
    ModalitySpelled(name);
    var m := ModalityOf(name);
    if m.Some? {
      match m.value
      case Vision => assert m == Some(Vision);
      case Audio => assert m == Some(Audio);
    }
  }

  /** Adds the wanted modalities' tensors; a wanted modality without any is refused. */
  method AddModalities(names: seq<string>, doVision: bool, doAudio: bool, consumed: set<string>)
    returns (r: Option<set<string>>)
    ensures r.None? <==> (doVision && forall n :: n in names ==> !IsVision(n))
                         || (doAudio && forall n :: n in names ==> !IsAudio(n))
    ensures r.Some? ==> forall n :: n in r.value <==> n in consumed
                                                      || (n in names && ((doVision && IsVision(n)) || (doAudio && IsAudio(n))))
  {
    hide ModalityOf, IsVision, IsAudio;
    forall n ensures (ModalityOf(n) == Some(Vision) <==> IsVision(n)) && (ModalityOf(n) == Some(Audio) <==> IsAudio(n)) {
      ModalitySpelled(n);
    }
    forall n ensures Wanted(ModalityOf(n), doVision, doAudio) <==> (doVision && IsVision(n)) || (doAudio && IsAudio(n)) {
      WantedMeans(n, doVision, doAudio);
    }
    var out := consumed;
    var nVision, nAudio, i := 0, 0, 0;
    while i < |names|
      invariant 0 <= i <= |names| && nVision >= 0 && nAudio >= 0
      invariant forall n :: n in out <==> n in consumed || (n in names[..i] && Wanted(ModalityOf(n), doVision, doAudio))
      invariant doVision ==> (nVision == 0 <==> forall n :: n in names[..i] ==> ModalityOf(n) != Some(Vision))
      invariant doAudio ==> (nAudio == 0 <==> forall n :: n in names[..i] ==> ModalityOf(n) != Some(Audio))
    {
      assert names[..i + 1] == names[..i] + [names[i]];
      var m := ModalityOf(names[i]);
      if Wanted(m, doVision, doAudio) {
        out := out + {names[i]};
        if m.value.Vision? {
          nVision := nVision + 1;
        } else {
          nAudio := nAudio + 1;
        }
      }
      i := i + 1;
    }
    assert names[..|names|] == names;
    if (doVision && nVision == 0) || (doAudio && nAudio == 0) {
      return None;
    }
    return Some(out);
  }

  /** With modalities, gemma's audit reports what it would with every passed-through name skipped: a wanted one is
      consumed, an unwanted one skipped. So the depth lemmas hold for it too. */
  lemma ModalitiesNeverReported(l: Layout, consumed: set<string>, all: set<string>, names: seq<string>, doVision: bool,
                                doAudio: bool, n: int, name: string)
    requires forall x :: x in all <==> x in consumed || (x in names && Wanted(ModalityOf(x), doVision, doAudio))
    requires name in names
    ensures Reported(l, all, x => ModalityOf(x).Some? && !Wanted(ModalityOf(x), doVision, doAudio), n, name)
            <==> Reported(l, consumed, x => ModalityOf(x).Some?, n, name)
  {
    hide ModalityOf, LayerOf;
  }

  // ---- the skip rules ------------------------------------------------------------------------------------------

  const NGRAM := ".ple.ple_embedding."
  const INV_FREQ := ".self_attn.rotary_emb.inv_freq"

  predicate OccursAt(s: string, k: nat, part: string) { k + |part| <= |s| && s[k..k + |part|] == part }

  predicate Contains(s: string, part: string) { exists k: nat :: k <= |s| && OccursAt(s, k, part) }

  predicate EndsWith(s: string, suffix: string) { |s| >= |suffix| && s[|s| - |suffix|..] == suffix }

  /** qwen3_5_moe leaves out vision and the draft head; qwen4_exp also the n-gram table. */
  predicate Qwen35MoeSkips(name: string) { "model.visual." <= name || "mtp." <= name }

  predicate Qwen4ExpSkips(name: string) { Qwen35MoeSkips(name) || Contains(name, NGRAM) }

  /** The runtime computes the rope itself. */
  predicate LlamaSkips(name: string) { LayerOf(MODEL_LAYERS, INT64_MAX, name) >= 0 && EndsWith(name, INV_FREQ) }

  /** Modality tensors, wanted (then consumed beside the text stack) or not. */
  predicate GemmaSkips(name: string) { ModalityOf(name).Some? }

  predicate Lfm2Skips(name: string) { false }

  /** What each rule leaves out. */
  lemma SkippedExactly(name: string)
    ensures Qwen35MoeSkips(name) <==> exists rest: string :: name == "model.visual." + rest || name == "mtp." + rest
    ensures Qwen4ExpSkips(name) <==> Qwen35MoeSkips(name)
                                     || exists a: string, b: string :: name == a + ".ple.ple_embedding." + b
    ensures LlamaSkips(name) <==> LayerOf("model.layers.", 0x7fff_ffff_ffff_ffff, name) >= 0
                                  && exists a: string :: name == a + ".self_attn.rotary_emb.inv_freq"
    ensures GemmaSkips(name) <==> IsVision(name) || IsAudio(name)
    ensures !Lfm2Skips(name)
  {
    hide LayerOf, ModalityOf, IsVision, IsAudio;
    WantedMeans(name, true, true);
    if "model.visual." <= name { assert name == "model.visual." + name[13..]; }
    if "mtp." <= name { assert name == "mtp." + name[4..]; }
    ContainsMeans(name, NGRAM);
    EndMeans(name, INV_FREQ);
    assert MODEL_LAYERS == "model.layers.";
  }

  lemma ContainsMeans(s: string, part: string)
    ensures Contains(s, part) <==> exists a: string, b: string :: s == a + part + b
  {
    if Contains(s, part) {
      var k: nat :| k <= |s| && OccursAt(s, k, part);
      assert s == s[..k] + part + s[k + |part|..];
    }
    if a: string, b: string :| s == a + part + b {
      assert OccursAt(s, |a|, part);
    }
  }

  lemma EndMeans(s: string, suffix: string)
    ensures EndsWith(s, suffix) <==> exists a: string :: s == a + suffix
  {
    if EndsWith(s, suffix) { assert s == s[..|s| - |suffix|] + suffix; }
  }

  // ---- all are named as the audit needs ------------------------------------------------------------------------

  predicate OffLayers(lines: seq<Check>) {
    forall k :: 0 <= k < |lines| ==> lines[k].name != [] && lines[k].name[0] != 'l'
  }

  /** Names beside the layers, and the head, are of no layer. */
  lemma GlobalsAreNoLayers(prefix: string, bound: nat, lines: seq<Check>, head: seq<Check>)
    requires OffLayers(lines) && prefix != [] && prefix[0] != 'l'
    requires forall c :: c in head ==> c.name != [] && c.name[0] == 'l'
    ensures forall c :: c in Below(prefix, lines) + head ==> LayerOf(prefix + "layers.", bound, c.name) == -1
  {
    hide LayerOf;
    forall c | c in Below(prefix, lines) + head ensures LayerOf(prefix + "layers.", bound, c.name) == -1 {
      if c in head {
        OtherStart(prefix + "layers.", bound, c.name);
      } else {
        var k :| 0 <= k < |lines| && Below(prefix, lines)[k] == c;
        NotALayer(prefix, bound, lines[k].name);
      }
    }
  }

  lemma OtherStart(prefix: string, bound: nat, name: string)
    requires prefix != [] && name != [] && prefix[0] != name[0]
    ensures LayerOf(prefix, bound, name) == -1
  {
  }

  lemma Starts()
    ensures TEXT_PREFIX != [] && TEXT_PREFIX[0] != 'l' && MODEL_PREFIX != [] && MODEL_PREFIX[0] != 'l'
  {
  }

  /** So the depth and audit lemmas hold of these layouts, for every configuration of theirs. */
  lemma TablesWellNamed(s: Shape, t: Shape, intermediate: int, g: GemmaShape, f: Lfm2Shape)
    requires s.layersTotal <= INT_MAX && g.layersTotal <= INT_MAX && f.layersTotal <= INT64_MAX && t.layersTotal <= INT64_MAX
    ensures WellNamed(Qwen4Exp(s)) && WellNamed(Qwen35Moe(s)) && WellNamed(Llama(t, intermediate))
    ensures WellNamed(Gemma(g)) && WellNamed(Lfm2(f))
    ensures Qwen4Exp(s).bound == Qwen35Moe(s).bound == Gemma(g).bound == 0x7fff_ffff
    ensures Llama(t, intermediate).bound == Lfm2(f).bound == 0x7fff_ffff_ffff_ffff
  {
    hide LayerOf, Below, Qwen4ExpLines, Qwen35MoeLines, LlamaLines, GemmaLines, Lfm2Lines, WellNamed, OffLayers;
    hide Qwen4ExpGlobals, Qwen35MoeGlobals, LlamaGlobals, GemmaGlobals, Lfm2Globals;
    Starts();
    GlobalsOffLayers(s, t, g, f);
    var head := Head(s.vocab, s.hidden);
    GlobalsAreNoLayers(TEXT_PREFIX, INT_MAX, Qwen4ExpGlobals(s), head);
    Named(Qwen4Exp(s), (i: nat) => Qwen4ExpLines(s, i));
    GlobalsAreNoLayers(TEXT_PREFIX, INT_MAX, Qwen35MoeGlobals(s), head);
    Named(Qwen35Moe(s), (i: nat) => Qwen35MoeLines(s, i));
    GlobalsAreNoLayers(MODEL_PREFIX, INT64_MAX, LlamaGlobals(t), Head(t.vocab, t.hidden));
    Named(Llama(t, intermediate), (i: nat) => LlamaLines(t, intermediate));
    GlobalsAreNoLayers(TEXT_PREFIX, INT_MAX, GemmaGlobals(g), []);
    Named(Gemma(g), (i: nat) => GemmaLines(g, i));
    GlobalsAreNoLayers(MODEL_PREFIX, INT64_MAX, Lfm2Globals(f), []);
    Named(Lfm2(f), (i: nat) => Lfm2Lines(f, i));
  }

  lemma GlobalsOffLayers(s: Shape, t: Shape, g: GemmaShape, f: Lfm2Shape)
    ensures OffLayers(Qwen4ExpGlobals(s)) && OffLayers(Qwen35MoeGlobals(s)) && OffLayers(LlamaGlobals(t))
    ensures OffLayers(GemmaGlobals(g)) && OffLayers(Lfm2Globals(f))
  {
    var q := Qwen4ExpGlobals(s);
    assert q[0].name[0] == 'e' && q[1].name[0] == 'h' && q[2].name[0] == 'h' && q[3].name[0] == 'h';
  }

  /** A layout whose layers stand below their printed names and whose globals are of no layer. */
  lemma Named(l: Layout, lines: nat -> seq<Check>)
    requires l.total <= l.bound && l.bound >= 9 && forall i: nat :: l.layer(i) == Below(LayerName(l.prefix, i), lines(i))
    requires forall c :: c in l.globals ==> LayerOf(l.prefix, l.bound, c.name) == -1
    ensures WellNamed(l)
  {
    hide LayerOf, Below, LayerName;
    forall i: nat, c | i < l.total && c in l.layer(i) && c.Consume? ensures LayerOf(l.prefix, l.bound, c.name) == i {
      BelowNamed(l.prefix, l.bound, i, lines(i), c);
    }
  }
}

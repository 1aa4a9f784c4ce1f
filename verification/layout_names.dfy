/**
 What turns on the names in the layout tables: no layout consumes a tensor twice, and none consumes a tensor that its own
 skip rule leaves out.
 */
module LayoutNames {
  import opened Common
  import opened LayoutSets
  import opened LayoutAudit
  import opened LayoutTables
  import FE = FusedExperts

  // ---- one tensor, one line -------------------------------------------------------------------------------------

  /** The consumed names of these lines have rising keys in [lo, hi). */
  ghost predicate Rising(lines: seq<Check>, key: string -> int, lo: int, hi: int) {
    && (forall i :: 0 <= i < |lines| && lines[i].Consume? ==> lo <= key(lines[i].name) < hi)
    && (forall i, j :: 0 <= i < j < |lines| && lines[i].Consume? && lines[j].Consume? ==>
          key(lines[i].name) < key(lines[j].name))
  }

  lemma RisingJoin(a: seq<Check>, b: seq<Check>, key: string -> int, lo: int, mid: int, hi: int)
    requires Rising(a, key, lo, mid) && Rising(b, key, mid, hi) && lo <= mid <= hi
    ensures Rising(a + b, key, lo, hi)
  {
    var c := a + b;
    forall i, j | 0 <= i < j < |c| && c[i].Consume? && c[j].Consume? ensures key(c[i].name) < key(c[j].name) {
      if j >= |a| {
        assert c[j] == b[j - |a|];
        if i >= |a| { assert c[i] == b[i - |a|]; }
      }
    }
    forall i | 0 <= i < |c| && c[i].Consume? ensures lo <= key(c[i].name) < hi {
      if i >= |a| { assert c[i] == b[i - |a|]; }
    }
  }

  lemma RisingNone(key: string -> int, lo: int)
    ensures Rising([], key, lo, lo)
  {
  }

  lemma RisingWider(lines: seq<Check>, key: string -> int, lo: int, hi: int, lo': int, hi': int)
    requires Rising(lines, key, lo, hi) && lo' <= lo && hi <= hi'
    ensures Rising(lines, key, lo', hi')
  {
  }

  /** Lines with rising keys are distinct below any common prefix. */
  lemma RisingOnce(hf: string, lines: seq<Check>, key: string -> int, lo: int, hi: int)
    requires Rising(lines, key, lo, hi)
    ensures Once(Below(hf, lines))
  {
    var checks := Below(hf, lines);
    forall a, b | 0 <= a < b < |checks| && checks[a].Consume? && checks[b].Consume?
      ensures checks[a].name != checks[b].name {
      assert key(lines[a].name) < key(lines[b].name);
      assert checks[a].name[|hf|..] == lines[a].name && checks[b].name[|hf|..] == lines[b].name;
    }
  }

  // ---- keys ------------------------------------------------------------------------------------------------------

  /** The character at `i`, or a blank past the end. */
  function CharAt(s: string, i: int): char { if 0 <= i < |s| then s[i] else ' ' }

  // Keys of the name families of the qwen tables.

  function HyperKey(s: string, block: nat): int {
    if |s| == block + 32 then 0 else if |s| == block + 46 then 1 else if CharAt(s, block + 18) == 'i' then 2 else 3
  }

  function FullKey(s: string): int {
    if |s| == 38 then 6
    else if |s| == 36 then (if CharAt(s, 18) == 'q' then 7 else 8)
    else if CharAt(s, 12) == 'n' then (if CharAt(s, 10) == 'q' then 4 else 5)
    else if CharAt(s, 10) == 'q' then 0 else if CharAt(s, 10) == 'k' then 1 else if CharAt(s, 10) == 'v' then 2 else 3
  }

  function LinearKey(s: string): int {
    if |s| == 30 then 0
    else if |s| == 28 then (if CharAt(s, 20) == 'z' then 1 else if CharAt(s, 20) == 'b' then 2 else 3)
    else if |s| == 25 then 4 else if |s| == 17 then 5 else if |s| == 19 then 6 else if |s| == 23 then 7 else 8
  }

  function PleKey(s: string): int {
    if |s| == 19 then (if CharAt(s, 4) == 'k' then 0 else 2)
    else if |s| == 21 then (if CharAt(s, 4) == 'v' then 1 else 3)
    else if |s| == 20 then 4 else 5
  }

  function MoeKey(s: string): int {
    if |s| == 15 then 0
    else if |s| == 34 then (if CharAt(s, 18) == 'g' then 1 else 3)
    else if |s| == 32 then 2 else 4
  }

  function ExpertKey(s: string): int {
    3 * IndexOf("mlp.experts.", s)
    + (if CharAt(s, |s| - 16) == 'g' then 0 else if CharAt(s, |s| - 16) == 'd' then 2 else 1)
  }

  /** A number for each name below a layer of the qwen tables, in table order. */
  function QwenKey(s: string): int {
    var c := CharAt(s, 0);
    if c == 'a' then 10 + HyperKey(s, 4)
    else if c == 'i' then 30
    else if c == 's' then 40 + FullKey(s)
    else if c == 'l' then 50 + LinearKey(s)
    else if c == 'p' then (if CharAt(s, 1) == 'o' then 31 else 60 + PleKey(s))
    else if CharAt(s, 3) == '_' then 20 + HyperKey(s, 3)
    else if CharAt(s, 4) == 'e' then 100 + ExpertKey(s)
    else 70 + MoeKey(s)
  }

  lemma HyperKeys(block: string)
    requires block in {"attn", "mlp"}
    ensures HyperKey(block + "_hyper_connection.hc_norm.weight", |block|) == 0
    ensures HyperKey(block + "_hyper_connection.input_mix_weight_down.weight", |block|) == 1
    ensures HyperKey(block + "_hyper_connection.input_mix_weight_up.weight", |block|) == 2
    ensures HyperKey(block + "_hyper_connection.block_inject_weight.weight", |block|) == 3
  {
    assert "_hyper_connection.input_mix_weight_up.weight"[18] == 'i' && "_hyper_connection.block_inject_weight.weight"[18] == 'b';
  }

  lemma AttnHyperRises(s: Shape)
    ensures Rising(HyperConnection(s, "attn"), QwenKey, 10, 14)
  {
    hide FullKey, LinearKey, PleKey, MoeKey, ExpertKey, HyperKey;
    HyperKeys("attn");
    var h := HyperConnection(s, "attn");
    assert QwenKey(h[0].name) == 10 && QwenKey(h[1].name) == 11 && QwenKey(h[2].name) == 12 && QwenKey(h[3].name) == 13;
  }

  lemma MlpHyperRises(s: Shape)
    ensures Rising(HyperConnection(s, "mlp"), QwenKey, 20, 24)
  {
    hide FullKey, LinearKey, PleKey, MoeKey, ExpertKey, HyperKey;
    HyperKeys("mlp");
    var h := HyperConnection(s, "mlp");
    assert QwenKey(h[0].name) == 20 && QwenKey(h[1].name) == 21 && QwenKey(h[2].name) == 22 && QwenKey(h[3].name) == 23;
  }

  lemma FullKeys()
    ensures QwenKey("self_attn.q_proj.weight") == 40 && QwenKey("self_attn.k_proj.weight") == 41
    ensures QwenKey("self_attn.v_proj.weight") == 42 && QwenKey("self_attn.o_proj.weight") == 43
    ensures QwenKey("self_attn.q_norm.weight") == 44 && QwenKey("self_attn.k_norm.weight") == 45
  {
    hide LinearKey, PleKey, MoeKey, ExpertKey, HyperKey;
  }

  lemma FullRises(s: Shape)
    ensures Rising(FullAttention(s), QwenKey, 40, 46)
  {
    hide QwenKey;
    FullKeys();
  }

  lemma IndexerRises(s: Shape)
    ensures Rising(Indexer(s), QwenKey, 46, 49)
  {
    hide LinearKey, PleKey, MoeKey, ExpertKey, HyperKey;
    var h := Indexer(s);
    assert QwenKey(h[0].name) == 46 && QwenKey(h[1].name) == 47 && QwenKey(h[2].name) == 48;
  }

  lemma LinearKeys()
    ensures QwenKey("linear_attn.in_proj_qkv.weight") == 50 && QwenKey("linear_attn.in_proj_z.weight") == 51
    ensures QwenKey("linear_attn.in_proj_b.weight") == 52 && QwenKey("linear_attn.in_proj_a.weight") == 53
    ensures QwenKey("linear_attn.conv1d.weight") == 54 && QwenKey("linear_attn.A_log") == 55
    ensures QwenKey("linear_attn.dt_bias") == 56 && QwenKey("linear_attn.norm.weight") == 57
    ensures QwenKey("linear_attn.out_proj.weight") == 58
  {
    hide FullKey, PleKey, MoeKey, ExpertKey, HyperKey;
  }

  lemma LinearRises(s: Shape)
    ensures Rising(LinearAttention(s), QwenKey, 50, 59)
  {
    hide QwenKey;
    LinearKeys();
  }

  lemma PleRises(s: Shape)
    ensures Rising(Ple(s), QwenKey, 60, 66)
  {
    hide FullKey, LinearKey, MoeKey, ExpertKey, HyperKey;
    var h := Ple(s);
    assert QwenKey(h[0].name) == 60 && QwenKey(h[1].name) == 61 && QwenKey(h[2].name) == 62;
    assert QwenKey(h[3].name) == 63 && QwenKey(h[4].name) == 64 && QwenKey(h[5].name) == 65;
  }

  lemma GateKeys()
    ensures QwenKey("mlp.gate.weight") == 70 && QwenKey("mlp.shared_expert.gate_proj.weight") == 71
    ensures QwenKey("mlp.shared_expert_gate.weight") == 74
  {
    hide FullKey, LinearKey, PleKey, ExpertKey, HyperKey;
  }

  lemma SharedKeys()
    ensures QwenKey("mlp.shared_expert.up_proj.weight") == 72 && QwenKey("mlp.shared_expert.down_proj.weight") == 73
  {
    hide FullKey, LinearKey, PleKey, ExpertKey, HyperKey;
  }

  lemma ExpertKeyOf(e: nat, kind: FE.Kind)
    ensures QwenKey(FE.ViewName("mlp.experts.", e, kind))
            == 100 + 3 * e + (match kind case Gate => 0 case Up => 1 case Down => 2)
  {
    hide FullKey, LinearKey, PleKey, MoeKey, HyperKey, IndexOf;
    var s := FE.ViewName("mlp.experts.", e, kind);
    PrintedIndex("mlp.experts.", e, FE.Leaf(kind));
    FE.MarkOfName("mlp.experts.", e, kind);
    LastDigit(e);
    assert s[..12] == "mlp.experts.";
    assert s[0] == s[..12][0] && s[3] == s[..12][3] && s[4] == s[..12][4];
  }

  /** The three lines of one expert. */
  lemma ExpertRises(s: Shape, e: nat)
    ensures var h := "mlp.experts." + ToDecimal(e) + ".";
            Rising([ Consume(h + "gate_proj.weight", [s.moeInter, s.hidden]), Consume(h + "up_proj.weight", [s.moeInter, s.hidden]),
                     Consume(h + "down_proj.weight", [s.hidden, s.moeInter]) ], QwenKey, 100 + 3 * e, 103 + 3 * e)
  {
    hide QwenKey;
    ExpertKeyOf(e, FE.Gate);
    ExpertKeyOf(e, FE.Up);
    ExpertKeyOf(e, FE.Down);
  }

  lemma {:induction false} ExpertsRise(s: Shape, n: nat)
    ensures Rising(Experts(s, n), QwenKey, 100, 100 + 3 * n)
  {
    hide QwenKey;
    if n == 0 {
      RisingNone(QwenKey, 100);
    } else {
      var h := "mlp.experts." + ToDecimal(n - 1) + ".";
      var three := [ Consume(h + "gate_proj.weight", [s.moeInter, s.hidden]), Consume(h + "up_proj.weight", [s.moeInter, s.hidden]),
                     Consume(h + "down_proj.weight", [s.hidden, s.moeInter]) ];
      ExpertRises(s, n - 1);
      hide Rising;
      ExpertsRise(s, n - 1);
      RisingJoin(Experts(s, n - 1), three, QwenKey, 100, 100 + 3 * (n - 1), 100 + 3 * n);
    }
  }

  lemma SharedRises(s: Shape)
    ensures Rising(Shared(s), QwenKey, 70, 100)
  {
    hide QwenKey;
    GateKeys();
    SharedKeys();
  }

  lemma MoeRises(s: Shape)
    ensures Rising(Moe(s), QwenKey, 70, 100 + 3 * s.numExperts)
  {
    hide QwenKey, Experts, Shared, Rising;
    SharedRises(s);
    ExpertsRise(s, s.numExperts);
    RisingJoin(Shared(s), Experts(s, s.numExperts), QwenKey, 70, 100, 100 + 3 * s.numExperts);
  }

  lemma Qwen4ExpRises(s: Shape, i: nat)
    ensures Rising(Qwen4ExpLines(s, i), QwenKey, 10, 100 + 3 * s.numExperts)
  {
    hide QwenKey, Rising, HyperConnection, FullAttention, Indexer, LinearAttention, Ple, Moe;
    var hi := 100 + 3 * s.numExperts;
    AttnHyperRises(s);
    MlpHyperRises(s);
    RisingWider(HyperConnection(s, "attn"), QwenKey, 10, 14, 10, 20);
    RisingJoin(HyperConnection(s, "attn"), HyperConnection(s, "mlp"), QwenKey, 10, 20, 24);
    var mixer := if i in s.fullLayers then FullAttention(s) + Indexer(s) else LinearAttention(s);
    FullRises(s);
    IndexerRises(s);
    RisingJoin(FullAttention(s), Indexer(s), QwenKey, 40, 46, 49);
    RisingWider(FullAttention(s) + Indexer(s), QwenKey, 40, 49, 24, 60);
    LinearRises(s);
    RisingWider(LinearAttention(s), QwenKey, 50, 59, 24, 60);
    RisingJoin(HyperConnection(s, "attn") + HyperConnection(s, "mlp"), mixer, QwenKey, 10, 24, 60);
    var ple := if i in s.pleLayers then Ple(s) else [];
    PleRises(s);
    RisingNone(QwenKey, 60);
    RisingWider(ple, QwenKey, 60, if i in s.pleLayers then 66 else 60, 60, 70);
    RisingJoin(HyperConnection(s, "attn") + HyperConnection(s, "mlp") + mixer, ple, QwenKey, 10, 60, 70);
    MoeRises(s);
    RisingJoin(HyperConnection(s, "attn") + HyperConnection(s, "mlp") + mixer + ple, Moe(s), QwenKey, 10, 70, hi);
  }

  lemma NormKeys()
    ensures QwenKey("input_layernorm.weight") == 30 && QwenKey("post_attention_layernorm.weight") == 31
  {
    hide FullKey, LinearKey, PleKey, MoeKey, HyperKey, ExpertKey;
  }

  lemma Qwen35MoeRises(s: Shape, i: nat)
    ensures Rising(Qwen35MoeLines(s, i), QwenKey, 30, 100 + 3 * s.numExperts)
  {
    hide QwenKey, FullAttention, LinearAttention, Moe;
    NormKeys();
    var norms := [ Consume("input_layernorm.weight", [s.hidden]), Consume("post_attention_layernorm.weight", [s.hidden]) ];
    assert Rising(norms, QwenKey, 30, 40);
    hide Rising;
    var mixer := if i in s.fullLayers then FullAttention(s) else LinearAttention(s);
    FullRises(s);
    RisingWider(FullAttention(s), QwenKey, 40, 46, 40, 70);
    LinearRises(s);
    RisingWider(LinearAttention(s), QwenKey, 50, 59, 40, 70);
    RisingJoin(norms, mixer, QwenKey, 30, 40, 70);
    MoeRises(s);
    RisingJoin(norms + mixer, Moe(s), QwenKey, 30, 70, 100 + 3 * s.numExperts);
  }

  // Llama and gemma.

  function TextKey(s: string): int {
    var c := CharAt(s, 0);
    if c == 'i' then 0
    else if c == 'p' then (if |s| == 31 then 1 else if |s| == 32 then 2 else 3)
    else if c == 's' then 10 + FullKey(s)
    else if c == 'm' then (if |s| == 18 then 21 else if CharAt(s, 4) == 'g' then 20 else 22)
    else 30
  }

  lemma TextKeys()
    ensures TextKey("input_layernorm.weight") == 0 && TextKey("post_attention_layernorm.weight") == 1
    ensures TextKey("pre_feedforward_layernorm.weight") == 2 && TextKey("post_feedforward_layernorm.weight") == 3
    ensures TextKey("mlp.gate_proj.weight") == 20 && TextKey("mlp.up_proj.weight") == 21
    ensures TextKey("mlp.down_proj.weight") == 22 && TextKey("layer_scalar") == 30
  {
    hide FullKey;
  }

  lemma TextAttentionKeys()
    ensures TextKey("self_attn.q_proj.weight") == 10 && TextKey("self_attn.k_proj.weight") == 11
    ensures TextKey("self_attn.v_proj.weight") == 12 && TextKey("self_attn.o_proj.weight") == 13
    ensures TextKey("self_attn.q_norm.weight") == 14 && TextKey("self_attn.k_norm.weight") == 15
  {
  }

  lemma LlamaRises(s: Shape, intermediate: int)
    ensures Rising(LlamaLines(s, intermediate), TextKey, 0, 31)
  {
    hide TextKey;
    TextKeys();
    TextAttentionKeys();
  }

  lemma GemmaFrontRises(s: GemmaShape, hd: int, kv: int)
    ensures Rising(GemmaFront(s, hd, kv), TextKey, 0, 12)
  {
    hide TextKey;
    TextKeys();
    TextAttentionKeys();
  }

  lemma GemmaBackRises(s: GemmaShape, hd: int)
    ensures Rising(GemmaBack(s, hd), TextKey, 13, 31)
  {
    hide TextKey;
    TextKeys();
    TextAttentionKeys();
  }

  lemma GemmaVRises(s: GemmaShape)
    ensures Rising([Absent("self_attn.v_proj.weight")], TextKey, 0, 0)
    ensures Rising([Present("self_attn.v_proj.weight")], TextKey, 0, 0)
    ensures Rising([Consume("self_attn.v_proj.weight", [s.kvSliding * s.headDim, s.hidden])], TextKey, 12, 13)
  {
    hide TextKey;
    TextAttentionKeys();
  }

  lemma GemmaRises(s: GemmaShape, i: nat)
    ensures Rising(GemmaLines(s, i), TextKey, 0, 31)
  {
    hide TextKey, Rising, GemmaFront, GemmaBack;
    GemmaVRises(s);
    var absent, present := [Absent("self_attn.v_proj.weight")], [Present("self_attn.v_proj.weight")];
    var v := [Consume("self_attn.v_proj.weight", [s.kvSliding * s.headDim, s.hidden])];
    if i in s.fullLayers {
      var front := GemmaFront(s, s.globalHeadDim, s.kvFull);
      GemmaFrontRises(s, s.globalHeadDim, s.kvFull);
      GemmaBackRises(s, s.globalHeadDim);
      RisingJoin(absent, front, TextKey, 0, 0, 12);
      RisingWider(absent + front, TextKey, 0, 12, 0, 13);
      RisingJoin(absent + front, GemmaBack(s, s.globalHeadDim), TextKey, 0, 13, 31);
    } else {
      var front := GemmaFront(s, s.headDim, s.kvSliding);
      GemmaFrontRises(s, s.headDim, s.kvSliding);
      GemmaBackRises(s, s.headDim);
      RisingJoin(present, front, TextKey, 0, 0, 12);
      RisingJoin(present + front, v, TextKey, 0, 12, 13);
      RisingJoin(present + front + v, GemmaBack(s, s.headDim), TextKey, 0, 13, 31);
    }
  }

  // Lfm2.

  function Lfm2AttnKey(s: string): int {
    if |s| == 25 then 3
    else if |s| == 28 then (if CharAt(s, 10) == 'q' then 4 else 5)
    else if CharAt(s, 10) == 'q' then 0 else if CharAt(s, 10) == 'k' then 1 else 2
  }

  function WeightKey(c: char): int { if c == '1' then 0 else if c == '3' then 1 else 2 }

  function Lfm2Key(s: string): int {
    var c := CharAt(s, 0);
    if c == 'o' then 0
    else if c == 's' then 10 + Lfm2AttnKey(s)
    else if c == 'c' then (if |s| == 19 then 20 else if |s| == 16 then 21 else 22)
    else if CharAt(s, 1) == 'f' then 1
    else if |s| == 22 then 30 + WeightKey(CharAt(s, 14))
    else if |s| == 24 then (if CharAt(s, 13) == 'g' then 40 else 41)
    else 100 + 3 * IndexOf("feed_forward.experts.", s) + WeightKey(CharAt(s, |s| - 8))
  }

  lemma Lfm2MixerKeys()
    ensures Lfm2Key("operator_norm.weight") == 0 && Lfm2Key("ffn_norm.weight") == 1
    ensures Lfm2Key("self_attn.q_proj.weight") == 10 && Lfm2Key("self_attn.k_proj.weight") == 11
    ensures Lfm2Key("self_attn.v_proj.weight") == 12 && Lfm2Key("self_attn.out_proj.weight") == 13
    ensures Lfm2Key("self_attn.q_layernorm.weight") == 14 && Lfm2Key("self_attn.k_layernorm.weight") == 15
    ensures Lfm2Key("conv.in_proj.weight") == 20 && Lfm2Key("conv.conv.weight") == 21 && Lfm2Key("conv.out_proj.weight") == 22
  {
    hide IndexOf;
  }

  lemma Lfm2FeedKeys()
    ensures Lfm2Key("feed_forward.w1.weight") == 30 && Lfm2Key("feed_forward.w3.weight") == 31
    ensures Lfm2Key("feed_forward.w2.weight") == 32
    ensures Lfm2Key("feed_forward.gate.weight") == 40 && Lfm2Key("feed_forward.expert_bias") == 41
  {
    hide IndexOf, Lfm2AttnKey;
  }

  lemma Lfm2ExpertKeyOf(e: nat, w: string)
    requires w in {"w1.weight", "w3.weight", "w2.weight"}
    ensures Lfm2Key("feed_forward.experts." + ToDecimal(e) + "." + w) == 100 + 3 * e + WeightKey(w[1])
  {
    hide IndexOf, Lfm2AttnKey;
    DecimalDigits(e);
    var s := "feed_forward.experts." + ToDecimal(e) + "." + w;
    PrintedIndex("feed_forward.experts.", e, w);
    assert |w| == 9 && s[|s| - 9..] == w && s[|s| - 8] == w[1];
    assert s[..21] == "feed_forward.experts.";
    assert s[0] == s[..21][0] && s[1] == s[..21][1];
  }

  lemma Lfm2ExpertRises(s: Lfm2Shape, e: nat)
    ensures var ex := "feed_forward.experts." + ToDecimal(e) + ".";
            Rising([ Consume(ex + "w1.weight", [s.moeIntermediate, s.hidden]),
                     Consume(ex + "w3.weight", [s.moeIntermediate, s.hidden]),
                     Consume(ex + "w2.weight", [s.hidden, s.moeIntermediate]) ], Lfm2Key, 100 + 3 * e, 103 + 3 * e)
  {
    hide Lfm2Key;
    Lfm2ExpertKeyOf(e, "w1.weight");
    Lfm2ExpertKeyOf(e, "w3.weight");
    Lfm2ExpertKeyOf(e, "w2.weight");
  }

  lemma {:induction false} Lfm2ExpertsRise(s: Lfm2Shape, n: nat)
    ensures Rising(Lfm2Experts(s, n), Lfm2Key, 100, 100 + 3 * n)
  {
    hide Lfm2Key;
    if n == 0 {
      RisingNone(Lfm2Key, 100);
    } else {
      var ex := "feed_forward.experts." + ToDecimal(n - 1) + ".";
      var three := [ Consume(ex + "w1.weight", [s.moeIntermediate, s.hidden]),
                     Consume(ex + "w3.weight", [s.moeIntermediate, s.hidden]),
                     Consume(ex + "w2.weight", [s.hidden, s.moeIntermediate]) ];
      Lfm2ExpertRises(s, n - 1);
      hide Rising;
      Lfm2ExpertsRise(s, n - 1);
      RisingJoin(Lfm2Experts(s, n - 1), three, Lfm2Key, 100, 100 + 3 * (n - 1), 100 + 3 * n);
    }
  }

  lemma Lfm2MixerRises(s: Lfm2Shape)
    ensures Rising(Lfm2Norms(s), Lfm2Key, 0, 10)
    ensures Rising(Lfm2Attention(s), Lfm2Key, 10, 30) && Rising(Lfm2Conv(s), Lfm2Key, 10, 30)
  {
    hide Lfm2Key;
    Lfm2MixerKeys();
  }

  lemma Lfm2FeedRises(s: Lfm2Shape)
    ensures Rising(Lfm2Dense(s), Lfm2Key, 30, 100) && Rising(Lfm2Router(s), Lfm2Key, 30, 100)
  {
    hide Lfm2Key;
    Lfm2FeedKeys();
  }

  lemma Lfm2Rises(s: Lfm2Shape, i: nat)
    ensures Rising(Lfm2Lines(s, i), Lfm2Key, 0, 100 + 3 * s.numExperts)
  {
    hide Lfm2Key, Rising, Lfm2Norms, Lfm2Attention, Lfm2Conv, Lfm2Dense, Lfm2Router, Lfm2Experts;
    var hi := 100 + 3 * s.numExperts;
    Lfm2MixerRises(s);
    Lfm2FeedRises(s);
    Lfm2ExpertsRise(s, s.numExperts);
    RisingWider(Lfm2Dense(s), Lfm2Key, 30, 100, 30, hi);
    RisingJoin(Lfm2Router(s), Lfm2Experts(s, s.numExperts), Lfm2Key, 30, 100, hi);
    var mixer := if i in s.attnLayers then Lfm2Attention(s) else Lfm2Conv(s);
    RisingJoin(Lfm2Norms(s), mixer, Lfm2Key, 0, 10, 30);
    RisingJoin(Lfm2Norms(s) + mixer,
               if i < s.numDenseLayers then Lfm2Dense(s) else Lfm2Router(s) + Lfm2Experts(s, s.numExperts), Lfm2Key, 0, 30, hi);
  }

  // ---- no layout consumes a tensor twice ---------------------------------------------------------------------------

  lemma BelowHead(lines: seq<Check>, vocab: int, hidden: int, prefix: string)
    requires Once(Below(prefix, lines)) && prefix != [] && prefix[0] == 'm'
    ensures Once(Below(prefix, lines) + Head(vocab, hidden))
  {
    hide Once;
    var head := Head(vocab, hidden);
    HeadOnce(vocab, hidden);
    assert "lm_head.weight"[0] == 'l';
    forall c, d | c in Below(prefix, lines) && d in head && c.Consume? && d.Consume? ensures c.name != d.name {
      var k :| 0 <= k < |lines| && Below(prefix, lines)[k] == c;
      assert c.name[0] == prefix[0];
    }
    OnceJoin(Below(prefix, lines), head);
  }

  lemma HeadOnce(vocab: int, hidden: int)
    ensures Once(Head(vocab, hidden))
  {
  }

  /** Globals, told apart by their lengths. */
  function GlobalKey(s: string): int {
    if |s| == 19 then 0 else if |s| == 37 then 1 else if |s| == 51 then 2 else if |s| == 49 then 3 else 4
  }

  lemma GlobalKeys()
    ensures GlobalKey("embed_tokens.weight") == 0 && GlobalKey("hyper_connection_mixer.hc_norm.weight") == 1
    ensures GlobalKey("hyper_connection_mixer.input_mix_weight_down.weight") == 2
    ensures GlobalKey("hyper_connection_mixer.input_mix_weight_up.weight") == 3
    ensures GlobalKey("norm.weight") == 4 && GlobalKey("embedding_norm.weight") == 4
  {
  }

  lemma QwenGlobalsOnce(s: Shape)
    ensures Once(Below(TEXT_PREFIX, Qwen4ExpGlobals(s))) && Once(Below(TEXT_PREFIX, Qwen35MoeGlobals(s)))
    ensures Once(Below(MODEL_PREFIX, LlamaGlobals(s)))
  {
    hide GlobalKey, Once, Below;
    GlobalKeys();
    RisingOnce(TEXT_PREFIX, Qwen4ExpGlobals(s), GlobalKey, 0, 5);
    RisingOnce(TEXT_PREFIX, Qwen35MoeGlobals(s), GlobalKey, 0, 5);
    RisingOnce(MODEL_PREFIX, LlamaGlobals(s), GlobalKey, 0, 5);
  }

  lemma Prefixes()
    ensures TEXT_PREFIX != [] && TEXT_PREFIX[0] == 'm' && MODEL_PREFIX != [] && MODEL_PREFIX[0] == 'm'
  {
  }

  /** The layouts with an untied head consume every tensor at most once, at every depth. */
  lemma UntiedConsumeOnce(s: Shape, t: Shape, intermediate: int, g: GemmaShape, f: Lfm2Shape, n: nat)
    requires s.layersTotal <= INT_MAX && g.layersTotal <= INT_MAX && f.layersTotal <= INT64_MAX && t.layersTotal <= INT64_MAX
    ensures n <= s.layersTotal ==> Once(Checks(Qwen4Exp(s), n)) && Once(Checks(Qwen35Moe(s), n))
    ensures n <= t.layersTotal ==> Once(Checks(Llama(t, intermediate), n))
  {
    hide Once, Rising, WellNamed, Below, Checks, QwenKey, TextKey, LayerName;
    hide Qwen4ExpLines, Qwen35MoeLines, LlamaLines, Qwen4ExpGlobals, Qwen35MoeGlobals, LlamaGlobals, Head;
    TablesWellNamed(s, t, intermediate, g, f);
    Prefixes();
    QwenGlobalsOnce(s);
    QwenGlobalsOnce(t);
    BelowHead(Qwen4ExpGlobals(s), s.vocab, s.hidden, TEXT_PREFIX);
    BelowHead(Qwen35MoeGlobals(s), s.vocab, s.hidden, TEXT_PREFIX);
    BelowHead(LlamaGlobals(t), t.vocab, t.hidden, MODEL_PREFIX);
    forall i: nat ensures Once(Qwen4Exp(s).layer(i)) && Once(Qwen35Moe(s).layer(i)) && Once(Llama(t, intermediate).layer(i)) {
      Qwen4ExpRises(s, i);
      RisingOnce(LayerName(TEXT_LAYERS, i), Qwen4ExpLines(s, i), QwenKey, 10, 100 + 3 * s.numExperts);
      Qwen35MoeRises(s, i);
      RisingOnce(LayerName(TEXT_LAYERS, i), Qwen35MoeLines(s, i), QwenKey, 30, 100 + 3 * s.numExperts);
      LlamaRises(t, intermediate);
      RisingOnce(LayerName(MODEL_LAYERS, i), LlamaLines(t, intermediate), TextKey, 0, 31);
    }
    if n <= s.layersTotal {
      ConsumedOnce(Qwen4Exp(s), n);
      ConsumedOnce(Qwen35Moe(s), n);
    }
    if n <= t.layersTotal { ConsumedOnce(Llama(t, intermediate), n); }
  }

  /** The layouts with a tied head consume every tensor at most once but for the embedding, which is the head as well. */
  lemma TiedConsumeOnce(s: Shape, t: Shape, intermediate: int, g: GemmaShape, f: Lfm2Shape, n: nat)
    requires s.layersTotal <= INT_MAX && g.layersTotal <= INT_MAX && f.layersTotal <= INT64_MAX && t.layersTotal <= INT64_MAX
    ensures n <= g.layersTotal ==> OnceButTied(Gemma(g), n)
    ensures n <= f.layersTotal ==> OnceButTied(Lfm2(f), n)
  {
    hide Once, Rising, WellNamed, Below, Lfm2Key, TextKey, LayerName, GemmaLines, Lfm2Lines, OnceButTied, TiedGlobals;
    TablesWellNamed(s, t, intermediate, g, f);
    Prefixes();
    TiedOnce(TEXT_PREFIX, g.vocab, g.hidden, "norm.weight");
    TiedOnce(MODEL_PREFIX, f.vocab, f.hidden, "embedding_norm.weight");
    forall i: nat ensures Once(Gemma(g).layer(i)) && Once(Lfm2(f).layer(i)) {
      GemmaRises(g, i);
      RisingOnce(LayerName(TEXT_LAYERS, i), GemmaLines(g, i), TextKey, 0, 31);
      Lfm2Rises(f, i);
      RisingOnce(LayerName(MODEL_LAYERS, i), Lfm2Lines(f, i), Lfm2Key, 0, 100 + 3 * f.numExperts);
    }
    if n <= g.layersTotal { OnceTied(Gemma(g), n); }
    if n <= f.layersTotal { OnceTied(Lfm2(f), n); }
  }

  /** All lines but the last consume distinct tensors, and the last consumes the first global again. */
  ghost predicate OnceButTied(l: Layout, n: nat) {
    && |l.globals| == 3 && l.globals[2] == l.globals[0]
    && Once(Layers(l, n) + l.globals[..2])
  }

  lemma TiedRises(vocab: int, hidden: int, norm: string)
    requires norm in {"norm.weight", "embedding_norm.weight"}
    ensures Rising(TiedGlobals(vocab, hidden, norm)[..2], GlobalKey, 0, 5)
  {
    hide GlobalKey;
    GlobalKeys();
  }

  lemma TiedOnce(prefix: string, vocab: int, hidden: int, norm: string)
    requires norm in {"norm.weight", "embedding_norm.weight"}
    ensures var globals := Below(prefix, TiedGlobals(vocab, hidden, norm)) + [];
            |globals| == 3 && globals[2] == globals[0] && Once(globals[..2])
  {
    hide Once, Rising;
    TiedRises(vocab, hidden, norm);
    var own := TiedGlobals(vocab, hidden, norm)[..2];
    RisingOnce(prefix, own, GlobalKey, 0, 5);
    assert Below(prefix, own) == (Below(prefix, TiedGlobals(vocab, hidden, norm)) + [])[..2];
  }

  lemma OnceTied(l: Layout, n: nat)
    requires WellNamed(l) && n <= l.total && |l.globals| == 3 && l.globals[2] == l.globals[0] && Once(l.globals[..2])
    requires forall i: nat :: i < l.total ==> Once(l.layer(i))
    ensures OnceButTied(l, n)
  {
    hide Once;
    var own := l.(globals := l.globals[..2]);
    OwnNamed(l, own);
    ConsumedOnce(own, n);
    SameLayers(l, own, n);
  }

  lemma OwnNamed(l: Layout, own: Layout)
    requires WellNamed(l) && |l.globals| >= 2 && own == l.(globals := l.globals[..2])
    ensures WellNamed(own)
  {
    hide LayerOf;
    forall c | c in own.globals && c.Consume? ensures LayerOf(l.prefix, l.bound, c.name) == -1 { assert c in l.globals; }
  }

  lemma {:induction false} SameLayers(l: Layout, own: Layout, n: nat)
    requires own.layer == l.layer
    ensures Layers(own, n) == Layers(l, n)
  {
    if n > 0 { SameLayers(l, own, n - 1); }
  }

  // ---- nothing consumed is skipped -----------------------------------------------------------------------------

  /** Two d's in a row occur in the n-gram table's names and in no consumed one. */
  predicate DoubleD(s: string) { exists k :: 0 <= k < |s| - 1 && s[k] == 'd' && s[k + 1] == 'd' }

  lemma NgramHasDoubleD(name: string)
    requires Contains(name, NGRAM)
    ensures DoubleD(name)
  {
    var k: nat :| k <= |name| && OccursAt(name, k, NGRAM);
    assert NGRAM[13] == 'd' && NGRAM[14] == 'd';
    assert name[k + 13] == name[k..k + |NGRAM|][13] && name[k + 14] == name[k..k + |NGRAM|][14];
    var j := k + 13;
    assert name[j] == 'd' && name[j + 1] == 'd';
  }

  lemma DoubleDJoin(a: string, b: string)
    requires !DoubleD(a) && !DoubleD(b) && (a == [] || a[|a| - 1] != 'd')
    ensures !DoubleD(a + b)
  {
    var s := a + b;
    forall k | 0 <= k < |s| - 1 && s[k] == 'd' ensures s[k + 1] != 'd' {
      if k + 1 < |a| {
        assert a[k] == 'd';
      } else if k >= |a| {
        var j := k - |a|;
        assert b[j] == 'd' && b[j + 1] == s[k + 1];
      }
    }
  }

  /** No line's name has two d's in a row. */
  ghost predicate Plain(lines: seq<Check>) {
    forall k :: 0 <= k < |lines| && lines[k].Consume? ==> !DoubleD(lines[k].name)
  }

  lemma PlainJoin(a: seq<Check>, b: seq<Check>)
    requires Plain(a) && Plain(b)
    ensures Plain(a + b)
  {
    hide DoubleD;
    var c := a + b;
    forall k | 0 <= k < |c| && c[k].Consume? ensures !DoubleD(c[k].name) {
      if k >= |a| { assert c[k] == b[k - |a|]; }
    }
  }

  lemma PlainNorm()
    ensures !DoubleD("_hyper_connection.hc_norm.weight") && !DoubleD("attn") && !DoubleD("mlp")
  {
  }

  lemma PlainTails()
    ensures !DoubleD("_hyper_connection.") && !DoubleD("hyper_connection_mixer.")
    ensures !DoubleD("input_mix_weight_up.weight") && !DoubleD("block_inject_weight.weight")
  {
  }

  lemma PlainDown()
    ensures !DoubleD("input_mix_weight_down.weight")
  {
  }

  lemma PlainMixDown()
    ensures !DoubleD("_hyper_connection.input_mix_weight_down.weight")
  {
    hide DoubleD;
    PlainTails();
    PlainDown();
    DoubleDJoin("_hyper_connection.", "input_mix_weight_down.weight");
    assert "_hyper_connection.input_mix_weight_down.weight" == "_hyper_connection." + "input_mix_weight_down.weight";
  }

  lemma PlainMixUp()
    ensures !DoubleD("_hyper_connection.input_mix_weight_up.weight")
  {
    hide DoubleD;
    PlainTails();
    DoubleDJoin("_hyper_connection.", "input_mix_weight_up.weight");
    assert "_hyper_connection.input_mix_weight_up.weight" == "_hyper_connection." + "input_mix_weight_up.weight";
  }

  lemma PlainInject()
    ensures !DoubleD("_hyper_connection.block_inject_weight.weight")
  {
    hide DoubleD;
    PlainTails();
    DoubleDJoin("_hyper_connection.", "block_inject_weight.weight");
    assert "_hyper_connection.block_inject_weight.weight" == "_hyper_connection." + "block_inject_weight.weight";
  }

  lemma HyperPlain(s: Shape, block: string)
    requires !DoubleD(block) && block != [] && block[|block| - 1] != 'd'
    ensures Plain(HyperConnection(s, block))
  {
    hide DoubleD;
    PlainNorm();
    PlainMixDown();
    PlainMixUp();
    PlainInject();
    DoubleDJoin(block, "_hyper_connection.hc_norm.weight");
    DoubleDJoin(block, "_hyper_connection.input_mix_weight_down.weight");
    DoubleDJoin(block, "_hyper_connection.input_mix_weight_up.weight");
    DoubleDJoin(block, "_hyper_connection.block_inject_weight.weight");
  }

  lemma PlainProjections()
    ensures !DoubleD("self_attn.q_proj.weight") && !DoubleD("self_attn.k_proj.weight") && !DoubleD("self_attn.v_proj.weight")
  {
  }

  lemma PlainOutputAndNorms()
    ensures !DoubleD("self_attn.o_proj.weight") && !DoubleD("self_attn.q_norm.weight") && !DoubleD("self_attn.k_norm.weight")
  {
  }

  lemma PlainIndexerQk()
    ensures !DoubleD("self_attn.indexer.index_qk_proj.weight")
  {
  }

  lemma PlainIndexerNorms()
    ensures !DoubleD("self_attn.indexer.q_layernorm.weight") && !DoubleD("self_attn.indexer.k_layernorm.weight")
  {
  }

  lemma FullPlain(s: Shape)
    ensures Plain(FullAttention(s)) && Plain(Indexer(s))
  {
    hide DoubleD;
    PlainProjections();
    PlainOutputAndNorms();
    PlainIndexerQk();
    PlainIndexerNorms();
  }

  lemma PlainLinearIn()
    ensures !DoubleD("linear_attn.in_proj_qkv.weight") && !DoubleD("linear_attn.in_proj_z.weight")
  {
  }

  lemma PlainLinearBetaAlpha()
    ensures !DoubleD("linear_attn.in_proj_b.weight") && !DoubleD("linear_attn.in_proj_a.weight")
  {
  }

  lemma PlainLinearState()
    ensures !DoubleD("linear_attn.conv1d.weight") && !DoubleD("linear_attn.A_log") && !DoubleD("linear_attn.dt_bias")
  {
  }

  lemma PlainLinearOut()
    ensures !DoubleD("linear_attn.norm.weight") && !DoubleD("linear_attn.out_proj.weight")
  {
  }

  lemma LinearPlain(s: Shape)
    ensures Plain(LinearAttention(s))
  {
    hide DoubleD;
    PlainLinearIn();
    PlainLinearBetaAlpha();
    PlainLinearState();
    PlainLinearOut();
  }

  lemma PlainPleKeys()
    ensures !DoubleD("ple.key_proj.weight") && !DoubleD("ple.value_proj.weight") && !DoubleD("ple.norm_key.weight")
  {
  }

  lemma PlainPleConv()
    ensures !DoubleD("ple.norm_query.weight") && !DoubleD("ple.norm_conv.weight") && !DoubleD("ple.conv1d.weight")
  {
  }

  lemma PlePlain(s: Shape)
    ensures Plain(Ple(s))
  {
    hide DoubleD;
    PlainPleKeys();
    PlainPleConv();
  }

  lemma PlainSharedIn()
    ensures !DoubleD("mlp.gate.weight") && !DoubleD("mlp.shared_expert.gate_proj.weight")
  {
  }

  lemma PlainSharedUp()
    ensures !DoubleD("mlp.shared_expert.up_proj.weight") && !DoubleD("mlp.shared_expert_gate.weight")
  {
  }

  lemma PlainSharedDown()
    ensures !DoubleD("mlp.shared_expert.down_proj.weight")
  {
  }

  lemma SharedPlain(s: Shape)
    ensures Plain(Shared(s))
  {
    hide DoubleD;
    PlainSharedIn();
    PlainSharedUp();
    PlainSharedDown();
  }

  /** A printed index below a prefix. */
  lemma PlainIndexed(prefix: string, i: nat)
    requires !DoubleD(prefix) && prefix != [] && prefix[|prefix| - 1] != 'd'
    ensures var name := prefix + ToDecimal(i) + "."; !DoubleD(name) && name[|name| - 1] != 'd'
  {
    DecimalDigits(i);
    var d := ToDecimal(i);
    assert !DoubleD(d) && d[|d| - 1] != 'd' by {
      forall k | 0 <= k < |d| ensures d[k] != 'd' { assert IsDigit(d[k]); }
    }
    DoubleDJoin(prefix, d);
    DoubleDJoin(prefix + d, ".");
  }

  lemma PlainExpertParts()
    ensures !DoubleD("mlp.experts.") && !DoubleD("gate_proj.weight") && !DoubleD("up_proj.weight") && !DoubleD("down_proj.weight")
  {
  }

  lemma {:induction false} ExpertsPlain(s: Shape, n: nat)
    ensures Plain(Experts(s, n))
  {
    hide DoubleD;
    if n > 0 {
      ExpertsPlain(s, n - 1);
      PlainExpertParts();
      PlainIndexed("mlp.experts.", n - 1);
      var h := "mlp.experts." + ToDecimal(n - 1) + ".";
      DoubleDJoin(h, "gate_proj.weight");
      DoubleDJoin(h, "up_proj.weight");
      DoubleDJoin(h, "down_proj.weight");
      var three := [ Consume(h + "gate_proj.weight", [s.moeInter, s.hidden]), Consume(h + "up_proj.weight", [s.moeInter, s.hidden]),
                     Consume(h + "down_proj.weight", [s.hidden, s.moeInter]) ];
      PlainJoin(Experts(s, n - 1), three);
    }
  }

  lemma Qwen4ExpPlain(s: Shape, i: nat)
    ensures Plain(Qwen4ExpLines(s, i))
  {
    hide DoubleD, Plain, HyperConnection, FullAttention, Indexer, LinearAttention, Ple, Shared, Experts;
    PlainNorm();
    HyperPlain(s, "attn");
    HyperPlain(s, "mlp");
    FullPlain(s);
    LinearPlain(s);
    PlePlain(s);
    SharedPlain(s);
    ExpertsPlain(s, s.numExperts);
    ExpertsPlain(s, 0);
    NonePlain();
    var both := HyperConnection(s, "attn") + HyperConnection(s, "mlp");
    PlainJoin(HyperConnection(s, "attn"), HyperConnection(s, "mlp"));
    PlainJoin(FullAttention(s), Indexer(s));
    var mixer := if i in s.fullLayers then FullAttention(s) + Indexer(s) else LinearAttention(s);
    PlainJoin(both, mixer);
    var ple := if i in s.pleLayers then Ple(s) else [];
    PlainJoin(both + mixer, ple);
    PlainJoin(Shared(s), Experts(s, s.numExperts));
    PlainJoin(both + mixer + ple, Moe(s));
  }

  lemma NonePlain()
    ensures Plain([])
  {
  }

  lemma PlainGlobalDown()
    ensures !DoubleD("hyper_connection_mixer.input_mix_weight_down.weight")
  {
    hide DoubleD;
    PlainTails();
    PlainDown();
    DoubleDJoin("hyper_connection_mixer.", "input_mix_weight_down.weight");
    MixerDownParts();
  }

  lemma MixerDownParts()
    ensures "hyper_connection_mixer.input_mix_weight_down.weight" == "hyper_connection_mixer." + "input_mix_weight_down.weight"
  {
  }

  lemma PlainGlobalUp()
    ensures !DoubleD("hyper_connection_mixer.input_mix_weight_up.weight")
  {
    hide DoubleD;
    PlainTails();
    DoubleDJoin("hyper_connection_mixer.", "input_mix_weight_up.weight");
    assert "hyper_connection_mixer.input_mix_weight_up.weight" == "hyper_connection_mixer." + "input_mix_weight_up.weight";
  }

  lemma PlainGlobalNorm()
    ensures !DoubleD("hyper_connection_mixer.hc_norm.weight") && !DoubleD("embed_tokens.weight")
  {
  }

  lemma GlobalsPlain(s: Shape)
    ensures Plain(Qwen4ExpGlobals(s))
  {
    hide DoubleD;
    PlainGlobalDown();
    PlainGlobalUp();
    PlainGlobalNorm();
  }

  lemma PlainPrefixes()
    ensures !DoubleD(TEXT_PREFIX) && TEXT_PREFIX[|TEXT_PREFIX| - 1] != 'd'
    ensures !DoubleD(TEXT_LAYERS) && TEXT_LAYERS != [] && TEXT_LAYERS[|TEXT_LAYERS| - 1] != 'd'
    ensures !DoubleD("lm_head.weight")
  {
  }

  lemma BelowPlain(hf: string, lines: seq<Check>)
    requires Plain(lines) && !DoubleD(hf) && hf != [] && hf[|hf| - 1] != 'd'
    ensures Plain(Below(hf, lines))
  {
    hide DoubleD;
    var checks := Below(hf, lines);
    forall k | 0 <= k < |checks| && checks[k].Consume? ensures !DoubleD(checks[k].name) { DoubleDJoin(hf, lines[k].name); }
  }

  // Names of the text stack are of no modality and of no draft head.

  lemma TextNotSkipped(name: string)
    requires TEXT_PREFIX <= name
    ensures !Qwen35MoeSkips(name) && !GemmaSkips(name)
  {
    assert name[1] == TEXT_PREFIX[1] == 'o' && name[6] == TEXT_PREFIX[6] == 'l';
    assert "mtp."[1] == 't' && "model.visual."[6] == 'v';
    assert "model.vision_embedder."[6] == 'v' && "model.embed_vision."[6] == 'e' && "model.embed_audio."[6] == 'e';
  }

  lemma HeadNotSkipped()
    ensures !Qwen35MoeSkips("lm_head.weight") && !LlamaSkips("lm_head.weight")
  {
    hide IndexOf;
    OtherStart(MODEL_LAYERS, INT64_MAX, "lm_head.weight");
  }

  lemma BelowText(i: nat, lines: seq<Check>, c: Check)
    requires c in Below(LayerName(TEXT_LAYERS, i), lines) || c in Below(TEXT_PREFIX, lines)
    ensures TEXT_PREFIX <= c.name
  {
    var hf := LayerName(TEXT_LAYERS, i);
    assert TEXT_PREFIX <= TEXT_LAYERS <= hf;
    if c in Below(hf, lines) {
      var k :| 0 <= k < |lines| && Below(hf, lines)[k] == c;
      assert c.name == hf + lines[k].name;
    } else {
      var k :| 0 <= k < |lines| && Below(TEXT_PREFIX, lines)[k] == c;
    }
  }

  lemma Qwen4ExpNotSkipped(s: Shape)
    ensures SkipsNoneConsumed(Qwen4Exp(s), Qwen4ExpSkips)
  {
    hide DoubleD, Below, Contains, Qwen4ExpLines, Qwen4ExpGlobals, Qwen35MoeSkips, LayerName, SkipsNoneConsumed;
    var l := Qwen4Exp(s);
    PlainPrefixes();
    forall i: nat, c | i < l.total && c in l.layer(i) ensures c.Consume? ==> !Qwen4ExpSkips(c.name) {
      BelowText(i, Qwen4ExpLines(s, i), c);
      TextNotSkipped(c.name);
      Qwen4ExpPlain(s, i);
      if c.Consume? { LayerPlain(i, Qwen4ExpLines(s, i), c); }
      if Contains(c.name, NGRAM) { NgramHasDoubleD(c.name); }
    }
    forall c | c in l.globals ensures c.Consume? ==> !Qwen4ExpSkips(c.name) {
      if c in Below(TEXT_PREFIX, Qwen4ExpGlobals(s)) {
        BelowText(0, Qwen4ExpGlobals(s), c);
        TextNotSkipped(c.name);
        GlobalsPlain(s);
        BelowPlain(TEXT_PREFIX, Qwen4ExpGlobals(s));
      } else {
        HeadNotSkipped();
      }
      if Contains(c.name, NGRAM) { NgramHasDoubleD(c.name); }
    }
    LinesNotSkipped(l, Qwen4ExpSkips);
  }

  lemma LayerPlain(i: nat, lines: seq<Check>, c: Check)
    requires Plain(lines) && c in Below(LayerName(TEXT_LAYERS, i), lines) && c.Consume?
    ensures !DoubleD(c.name)
  {
    hide DoubleD, Below;
    PlainPrefixes();
    PlainIndexed(TEXT_LAYERS, i);
    BelowPlain(LayerName(TEXT_LAYERS, i), lines);
  }

  lemma Qwen35MoeNotSkipped(s: Shape)
    ensures SkipsNoneConsumed(Qwen35Moe(s), Qwen35MoeSkips)
  {
    hide Below, Qwen35MoeLines, Qwen35MoeGlobals, Qwen35MoeSkips, LayerName, SkipsNoneConsumed;
    var l := Qwen35Moe(s);
    forall i: nat, c | i < l.total && c in l.layer(i) ensures !Qwen35MoeSkips(c.name) {
      BelowText(i, Qwen35MoeLines(s, i), c);
      TextNotSkipped(c.name);
    }
    forall c | c in l.globals ensures !Qwen35MoeSkips(c.name) {
      if c in Below(TEXT_PREFIX, Qwen35MoeGlobals(s)) {
        BelowText(0, Qwen35MoeGlobals(s), c);
        TextNotSkipped(c.name);
      } else {
        HeadNotSkipped();
      }
    }
    LinesNotSkipped(l, Qwen35MoeSkips);
  }

  lemma GemmaNotSkipped(s: GemmaShape)
    ensures SkipsNoneConsumed(Gemma(s), GemmaSkips)
  {
    hide Below, GemmaLines, GemmaGlobals, GemmaSkips, LayerName, SkipsNoneConsumed;
    var l := Gemma(s);
    forall i: nat, c | i < l.total && c in l.layer(i) ensures !GemmaSkips(c.name) {
      BelowText(i, GemmaLines(s, i), c);
      TextNotSkipped(c.name);
    }
    forall c | c in l.globals ensures !GemmaSkips(c.name) {
      BelowText(0, GemmaGlobals(s), c);
      TextNotSkipped(c.name);
    }
    LinesNotSkipped(l, GemmaSkips);
  }

  /** Every llama line ends in a t, the skipped names in a q. */
  lemma LlamaEnds(s: Shape, intermediate: int, k: nat)
    requires k < |LlamaLines(s, intermediate)|
    ensures var name := LlamaLines(s, intermediate)[k].name; name != [] && name[|name| - 1] == 't'
  {
    assert "input_layernorm.weight"[21] == 't' && "post_attention_layernorm.weight"[30] == 't';
    assert "self_attn.q_proj.weight"[22] == 't' && "self_attn.k_proj.weight"[22] == 't';
    assert "self_attn.v_proj.weight"[22] == 't' && "self_attn.o_proj.weight"[22] == 't';
    assert "mlp.gate_proj.weight"[19] == 't' && "mlp.up_proj.weight"[17] == 't' && "mlp.down_proj.weight"[19] == 't';
  }

  lemma SkippedEnd(name: string)
    requires EndsWith(name, INV_FREQ)
    ensures name[|name| - 1] == 'q'
  {
    assert name[|name| - |INV_FREQ|..][|INV_FREQ| - 1] == INV_FREQ[29] == 'q';
  }

  lemma LlamaNotSkipped(s: Shape, intermediate: int)
    ensures SkipsNoneConsumed(Llama(s, intermediate), LlamaSkips)
  {
    hide LlamaLines, EndsWith, SkipsNoneConsumed, LayerName, LayerOf;
    var l := Llama(s, intermediate);
    forall i: nat, c | i < l.total && c in l.layer(i) ensures !LlamaSkips(c.name) {
      var lines := LlamaLines(s, intermediate);
      var hf := LayerName(MODEL_LAYERS, i);
      var k :| 0 <= k < |lines| && Below(hf, lines)[k] == c;
      LlamaEnds(s, intermediate, k);
      assert c.name == hf + lines[k].name && c.name[|c.name| - 1] == lines[k].name[|lines[k].name| - 1];
      if EndsWith(c.name, INV_FREQ) { SkippedEnd(c.name); }
    }
    forall c | c in l.globals ensures !LlamaSkips(c.name) {
      LlamaGlobalsOff(s, c);
    }
    LinesNotSkipped(l, LlamaSkips);
  }

  lemma LlamaGlobalsOff(s: Shape, c: Check)
    requires c in Llama(s, 0).globals
    ensures LayerOf(MODEL_LAYERS, INT64_MAX, c.name) == -1
  {
    hide LayerOf;
    Starts();
    assert OffLayers(LlamaGlobals(s));
    GlobalsAreNoLayers(MODEL_PREFIX, INT64_MAX, LlamaGlobals(s), Head(s.vocab, s.hidden));
  }

  /** No layout's skip rule leaves out a tensor that the layout consumes. */
  lemma SkipRulesSpareConsumed(s: Shape, t: Shape, intermediate: int, g: GemmaShape, f: Lfm2Shape)
    ensures SkipsNoneConsumed(Qwen4Exp(s), Qwen4ExpSkips) && SkipsNoneConsumed(Qwen35Moe(s), Qwen35MoeSkips)
    ensures SkipsNoneConsumed(Llama(t, intermediate), LlamaSkips)
    ensures SkipsNoneConsumed(Gemma(g), GemmaSkips) && SkipsNoneConsumed(Lfm2(f), Lfm2Skips)
  {
    hide Consumed, Qwen4ExpSkips, Qwen35MoeSkips, LlamaSkips, GemmaSkips;
    Qwen4ExpNotSkipped(s);
    Qwen35MoeNotSkipped(s);
    LlamaNotSkipped(t, intermediate);
    GemmaNotSkipped(g);
  }

  /** So at every depth of every layout each name is in exactly one class. */
  lemma EveryLayoutPartitions(s: Shape, t: Shape, intermediate: int, g: GemmaShape, f: Lfm2Shape, n: nat, name: string)
    requires s.layersTotal <= INT_MAX && g.layersTotal <= INT_MAX && f.layersTotal <= INT64_MAX && t.layersTotal <= INT64_MAX
    ensures n <= s.layersTotal ==> OneClass(Qwen4Exp(s), Qwen4ExpSkips, n, name) && OneClass(Qwen35Moe(s), Qwen35MoeSkips, n, name)
    ensures n <= t.layersTotal ==> OneClass(Llama(t, intermediate), LlamaSkips, n, name)
    ensures n <= g.layersTotal ==> OneClass(Gemma(g), GemmaSkips, n, name)
    ensures n <= f.layersTotal ==> OneClass(Lfm2(f), Lfm2Skips, n, name)
  {
    hide OneClass, SkipsNoneConsumed, WellNamed, Qwen4ExpSkips, Qwen35MoeSkips, LlamaSkips, GemmaSkips, Lfm2Skips;
    TablesWellNamed(s, t, intermediate, g, f);
    SkipRulesSpareConsumed(s, t, intermediate, g, f);
    if n <= s.layersTotal {
      OneClassAt(Qwen4Exp(s), Qwen4ExpSkips, n, name);
      OneClassAt(Qwen35Moe(s), Qwen35MoeSkips, n, name);
    }
    if n <= t.layersTotal { OneClassAt(Llama(t, intermediate), LlamaSkips, n, name); }
    if n <= g.layersTotal { OneClassAt(Gemma(g), GemmaSkips, n, name); }
    if n <= f.layersTotal { OneClassAt(Lfm2(f), Lfm2Skips, n, name); }
  }
}

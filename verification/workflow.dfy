/** The ComfyUI workflow graphs the server submits: `generateTextToImage`,
    which builds the fixed seven-node Stable Diffusion XL graph from the
    generation options, and `generateWithUpscale`, which adds an upscaling
    node in front of the save node. */
module WorkflowGenerator {
  import opened Values

  /** A node id. The graph's JSON keys are the decimal numerals of these
      numbers ("3" to "10"), and a link `["4", 1]` names node 4. */
  type NodeId = nat

  /** A node input: a literal value, or the output `slot` of another node
      (written `["4", 1]` in the graph). */
  datatype Input = Lit(value: Json) | Link(node: NodeId, slot: nat)

  /** A node: its `class_type`, its `_meta.title` and its inputs. */
  datatype Node = Node(classType: string, title: string, inputs: map<string, Input>)

  /** A workflow: node id to node. */
  type Workflow = map<NodeId, Node>

  const DefaultNegativePrompt: string :=
    "text, watermark, lowres, low quality, worst quality, deformed, glitch, low contrast, noisy, saturation, blurry"
  const DefaultModel: string := "sd_xl_base_1.0.safetensors"

  /** `Math.floor(Math.random() * 1000000000)` lies below this bound. */
  const SeedBound: nat := 1000000000

  /** The node ids of the text-to-image graph. */
  const BaseIds: set<NodeId> := {3, 4, 5, 6, 7, 8, 9}

  /** The option keys the generator reads. */
  const SettingKeys: set<string> :=
    {"negativePrompt", "width", "height", "steps", "cfg", "sampler", "scheduler", "seed", "model", "denoise"}

  /** Every link points at a node of the graph. */
  predicate Closed(w: Workflow)
  {
    forall n, i :: n in w && i in w[n].inputs && w[n].inputs[i].Link? ==> w[n].inputs[i].node in w
  }

  /** Every link points at a node of strictly lower rank, so the graph has no
      cycle and can be executed in rank order. */
  predicate RankedBy(w: Workflow, rank: map<NodeId, nat>)
  {
    forall n, i :: n in w && i in w[n].inputs && w[n].inputs[i].Link? ==>
      n in rank && w[n].inputs[i].node in rank && rank[w[n].inputs[i].node] < rank[n]
  }

  /** An execution order of both graphs: loaders first, the save node last. */
  const Rank: map<NodeId, nat> :=
    map[4 := 0, 5 := 0, 6 := 1, 7 := 1, 3 := 2, 8 := 3, 10 := 4, 9 := 5]

  /** The value of a destructured option: the supplied one when the key is
      present (even `null`), otherwise the default. */
  function Setting(options: map<string, Json>, key: string, default: Json): Json
  {
    if key in options then options[key] else default
  }

  function Text(options: map<string, Json>, key: string, default: string): Input
  {
    Lit(Setting(options, key, Str(default)))
  }

  function Number(options: map<string, Json>, key: string, default: real): Input
  {
    Lit(Setting(options, key, Num(default)))
  }

  /** Every link of `node` points into `ids`, at a node ranked below `r`. */
  predicate LinksBelow(node: Node, r: nat, ids: set<NodeId>)
  {
    forall i :: i in node.inputs && node.inputs[i].Link? ==>
      node.inputs[i].node in ids && node.inputs[i].node in Rank && Rank[node.inputs[i].node] < r
  }

  lemma GraphFromNodes(w: Workflow, ids: set<NodeId>)
    requires w.Keys == ids
    requires forall n :: n in w ==> n in Rank && LinksBelow(w[n], Rank[n], ids)
    ensures Closed(w) && RankedBy(w, Rank)
  {
  }

  function Sampler(options: map<string, Json>, randomSeed: nat): Node
  {
    Node("KSampler", "KSampler", map[
      "seed" := Number(options, "seed", randomSeed as real),
      "steps" := Number(options, "steps", 20.0),
      "cfg" := Number(options, "cfg", 7.5),
      "sampler_name" := Text(options, "sampler", "euler"),
      "scheduler" := Text(options, "scheduler", "normal"),
      "denoise" := Number(options, "denoise", 1.0),
      "model" := Link(4, 0),
      "positive" := Link(6, 0),
      "negative" := Link(7, 0),
      "latent_image" := Link(5, 0)])
  }

  function Checkpoint(options: map<string, Json>): Node
  {
    Node("CheckpointLoaderSimple", "Load Checkpoint", map[
      "ckpt_name" := Text(options, "model", DefaultModel)])
  }

  function Latent(options: map<string, Json>): Node
  {
    Node("EmptyLatentImage", "Empty Latent Image", map[
      "width" := Number(options, "width", 1024.0),
      "height" := Number(options, "height", 1024.0),
      "batch_size" := Lit(Num(1.0))])
  }

  function Encode(title: string, text: Json): Node
  {
    Node("CLIPTextEncode", title, map["text" := Lit(text), "clip" := Link(4, 1)])
  }

  const Decode: Node := Node("VAEDecode", "VAE Decode", map["samples" := Link(3, 0), "vae" := Link(4, 2)])

  function Save(images: Input): Node
  {
    Node("SaveImage", "Save Image", map["filename_prefix" := Lit(Str("ComfyUI")), "images" := images])
  }

  lemma SamplerLinks(options: map<string, Json>, randomSeed: nat)
    ensures LinksBelow(Sampler(options, randomSeed), Rank[3], BaseIds)
  {
  }

  lemma LoaderLinks(options: map<string, Json>)
    ensures LinksBelow(Checkpoint(options), Rank[4], BaseIds)
    ensures LinksBelow(Latent(options), Rank[5], BaseIds)
  {
  }

  lemma EncodeLinks(title: string, text: Json)
    ensures LinksBelow(Encode(title, text), Rank[6], BaseIds)
    ensures LinksBelow(Encode(title, text), Rank[7], BaseIds)
  {
  }

  lemma OutputLinks(images: NodeId)
    requires images in Rank && Rank[images] < Rank[9]
    ensures LinksBelow(Decode, Rank[8], BaseIds)
    ensures images in BaseIds ==> LinksBelow(Save(Link(images, 0)), Rank[9], BaseIds)
  {
  }

  /** `generateTextToImage(prompt, options)`, with the random default seed
      supplied by the caller: exactly the nodes "3" to "9". */
  function GenerateTextToImage(prompt: string, options: map<string, Json>, randomSeed: nat): (w: Workflow)
    requires randomSeed < SeedBound
    ensures w.Keys == BaseIds
  {
    map[
      3 := Sampler(options, randomSeed),
      4 := Checkpoint(options),
      5 := Latent(options),
      6 := Encode("CLIP Text Encode (Prompt)", Str(prompt)),
      7 := Encode("CLIP Text Encode (Negative)", Setting(options, "negativePrompt", Str(DefaultNegativePrompt))),
      8 := Decode,
      9 := Save(Link(8, 0))]
  }

  /** The nodes of the text-to-image graph, one by one. */
  lemma BaseNodes(prompt: string, options: map<string, Json>, randomSeed: nat)
    requires randomSeed < SeedBound
    ensures var w := GenerateTextToImage(prompt, options, randomSeed);
      && w[3] == Sampler(options, randomSeed)
      && w[4] == Checkpoint(options)
      && w[5] == Latent(options)
      && w[6] == Encode("CLIP Text Encode (Prompt)", Str(prompt))
      && w[7] == Encode("CLIP Text Encode (Negative)", Setting(options, "negativePrompt", Str(DefaultNegativePrompt)))
      && w[8] == Decode
      && w[9] == Save(Link(8, 0))
  {
  }

  lemma BaseNodeLinks(prompt: string, options: map<string, Json>, randomSeed: nat, n: NodeId)
    requires randomSeed < SeedBound
    requires n in GenerateTextToImage(prompt, options, randomSeed)
    ensures n in Rank && LinksBelow(GenerateTextToImage(prompt, options, randomSeed)[n], Rank[n], BaseIds)
  {
    BaseNodes(prompt, options, randomSeed);
    if n == 3 {
      SamplerLinks(options, randomSeed);
    } else if n == 4 || n == 5 {
      LoaderLinks(options);
    } else if n == 6 {
      EncodeLinks("CLIP Text Encode (Prompt)", Str(prompt));
    } else if n == 7 {
      EncodeLinks("CLIP Text Encode (Negative)", Setting(options, "negativePrompt", Str(DefaultNegativePrompt)));
    } else if n == 8 {
      OutputLinks(8);
    } else {
      assert n == 9;
      OutputLinks(8);
    }
  }

  /** Every node of `base` is one of the nodes 3 to 9 and links only to those
      nodes, at a lower rank: what the text-to-image graph satisfies. */
  predicate BaseLinks(base: Workflow)
  {
    && base.Keys == BaseIds
    && forall n :: n in base ==> n in Rank && LinksBelow(base[n], Rank[n], BaseIds)
  }

  lemma TextToImageLinks(prompt: string, options: map<string, Json>, randomSeed: nat)
    requires randomSeed < SeedBound
    ensures BaseLinks(GenerateTextToImage(prompt, options, randomSeed))
  {
    var w := GenerateTextToImage(prompt, options, randomSeed);
    forall n | n in w
      ensures n in Rank && LinksBelow(w[n], Rank[n], BaseIds)
    {
      BaseNodeLinks(prompt, options, randomSeed, n);
    }
  }

  /** Every reference of the text-to-image graph resolves to one of its
      nodes, and the references never form a cycle. */
  lemma TextToImageWellFormed(prompt: string, options: map<string, Json>, randomSeed: nat)
    requires randomSeed < SeedBound
    ensures Closed(GenerateTextToImage(prompt, options, randomSeed))
    ensures RankedBy(GenerateTextToImage(prompt, options, randomSeed), Rank)
  {
    TextToImageLinks(prompt, options, randomSeed);
    GraphFromNodes(GenerateTextToImage(prompt, options, randomSeed), BaseIds);
  }

  /** The ten options the generator reads, named after the input each sets. */
  datatype Param =
    | NegativeText | LatentWidth | LatentHeight | SamplerSteps | SamplerCfg
    | SamplerName | SamplerScheduler | SamplerSeed | CheckpointName | SamplerDenoise

  /** The option key of each parameter. */
  function Key(p: Param): (key: string)
    ensures key in SettingKeys
  {
    match p
    case NegativeText => "negativePrompt"
    case LatentWidth => "width"
    case LatentHeight => "height"
    case SamplerSteps => "steps"
    case SamplerCfg => "cfg"
    case SamplerName => "sampler"
    case SamplerScheduler => "scheduler"
    case SamplerSeed => "seed"
    case CheckpointName => "model"
    case SamplerDenoise => "denoise"
  }

  /** Where each option ends up: the node and the input name it sets. */
  function Slot(p: Param): (slot: (NodeId, string))
    ensures slot.0 in BaseIds
  {
    match p
    case NegativeText => (7, "text")
    case LatentWidth => (5, "width")
    case LatentHeight => (5, "height")
    case SamplerSteps => (3, "steps")
    case SamplerCfg => (3, "cfg")
    case SamplerName => (3, "sampler_name")
    case SamplerScheduler => (3, "scheduler")
    case SamplerSeed => (3, "seed")
    case CheckpointName => (4, "ckpt_name")
    case SamplerDenoise => (3, "denoise")
  }

  /** The value an option takes when it is not supplied. */
  function Default(p: Param, randomSeed: nat): Json
  {
    match p
    case NegativeText => Str(DefaultNegativePrompt)
    case LatentWidth | LatentHeight => Num(1024.0)
    case SamplerSteps => Num(20.0)
    case SamplerCfg => Num(7.5)
    case SamplerName => Str("euler")
    case SamplerScheduler => Str("normal")
    case SamplerSeed => Num(randomSeed as real)
    case CheckpointName => Str(DefaultModel)
    case SamplerDenoise => Num(1.0)
  }

  /** The input an option sets holds the option when its key is present and
      the default otherwise. */
  predicate Reaches(w: Workflow, options: map<string, Json>, randomSeed: nat, p: Param)
  {
    && Slot(p).0 in w
    && Slot(p).1 in w[Slot(p).0].inputs
    && (Key(p) in options ==> w[Slot(p).0].inputs[Slot(p).1] == Lit(options[Key(p)]))
    && (Key(p) !in options ==> w[Slot(p).0].inputs[Slot(p).1] == Lit(Default(p, randomSeed)))
  }

  lemma SamplerSetting(options: map<string, Json>, randomSeed: nat, p: Param)
    requires Slot(p).0 == 3
    ensures Reaches(map[3 := Sampler(options, randomSeed)], options, randomSeed, p)
  {
  }

  lemma LoaderSetting(options: map<string, Json>, p: Param)
    requires Slot(p).0 == 4 || Slot(p).0 == 5
    ensures Slot(p).0 == 4 ==> Reaches(map[4 := Checkpoint(options)], options, 0, p)
    ensures Slot(p).0 == 5 ==> Reaches(map[5 := Latent(options)], options, 0, p)
  {
  }

  /** Each option reaches its input: the supplied value when the key is
      present (even `null`), its default otherwise. */
  lemma OptionReachesInput(prompt: string, options: map<string, Json>, randomSeed: nat, p: Param)
    requires randomSeed < SeedBound
    ensures Reaches(GenerateTextToImage(prompt, options, randomSeed), options, randomSeed, p)
  {
    var w := GenerateTextToImage(prompt, options, randomSeed);
    BaseNodes(prompt, options, randomSeed);
    var node := Slot(p).0;
    if node == 3 {
      SamplerSetting(options, randomSeed, p);
      assert w[node] == map[3 := Sampler(options, randomSeed)][3];
    } else if node == 4 {
      LoaderSetting(options, p);
      assert w[node] == map[4 := Checkpoint(options)][4];
    } else if node == 5 {
      LoaderSetting(options, p);
      assert w[node] == map[5 := Latent(options)][5];
    } else {
      assert p == NegativeText;
    }
  }

  /** The prompt is the text of the positive encoder, node "6". */
  lemma PromptReachesEncoder(prompt: string, options: map<string, Json>, randomSeed: nat)
    requires randomSeed < SeedBound
    ensures GenerateTextToImage(prompt, options, randomSeed)[6].inputs["text"] == Lit(Str(prompt))
  {
  }

  /** Keys the generator does not read have no effect on the graph. */
  lemma OnlySettingsMatter(prompt: string, a: map<string, Json>, b: map<string, Json>, randomSeed: nat)
    requires randomSeed < SeedBound
    requires forall k :: k in SettingKeys ==> (k in a <==> k in b) && (k in a ==> a[k] == b[k])
    ensures GenerateTextToImage(prompt, a, randomSeed) == GenerateTextToImage(prompt, b, randomSeed)
  {
    assert Sampler(a, randomSeed) == Sampler(b, randomSeed) by {
      assert "seed" in SettingKeys && "steps" in SettingKeys && "cfg" in SettingKeys;
      assert "sampler" in SettingKeys && "scheduler" in SettingKeys && "denoise" in SettingKeys;
    }
    assert Checkpoint(a) == Checkpoint(b) by {
      assert "model" in SettingKeys;
    }
    assert Latent(a) == Latent(b) by {
      assert "width" in SettingKeys && "height" in SettingKeys;
    }
    assert "negativePrompt" in SettingKeys;
  }

  /** Replacing an encoder's text gives the encoder of the new text. */
  lemma Retext(title: string, old_text: Json, new_text: Json)
    ensures Encode(title, old_text).(inputs := Encode(title, old_text).inputs["text" := Lit(new_text)])
      == Encode(title, new_text)
  {
    assert Encode(title, old_text).inputs["text" := Lit(new_text)] == Encode(title, new_text).inputs;
  }

  /** Replacing the save node's image source gives the save node of the new
      source. */
  lemma Rewire(from: Input, to: Input)
    ensures Save(from).(inputs := Save(from).inputs["images" := to]) == Save(to)
  {
    assert Save(from).inputs["images" := to] == Save(to).inputs;
  }

  /** Changing the prompt changes the text of node "6" and nothing else. */
  lemma PromptOnlyInEncoder(p: string, q: string, options: map<string, Json>, randomSeed: nat)
    requires randomSeed < SeedBound
    ensures var wp := GenerateTextToImage(p, options, randomSeed);
      var wq := GenerateTextToImage(q, options, randomSeed);
      wp == wq[6 := wq[6].(inputs := wq[6].inputs["text" := Lit(Str(p))])]
  {
    var wp := GenerateTextToImage(p, options, randomSeed);
    var wq := GenerateTextToImage(q, options, randomSeed);
    BaseNodes(p, options, randomSeed);
    BaseNodes(q, options, randomSeed);
    Retext("CLIP Text Encode (Prompt)", Str(q), Str(p));
    var e := wq[6 := wq[6].(inputs := wq[6].inputs["text" := Lit(Str(p))])];
    assert wp.Keys == e.Keys;
    forall n | n in wp
      ensures wp[n] == e[n]
    {
      if n != 6 {
        assert wp[n] == wq[n];
      }
    }
  }

  /** The random seed is only a default: with a `seed` option it has no effect. */
  lemma RandomSeedOnlyDefault(prompt: string, options: map<string, Json>, s: nat, t: nat)
    requires s < SeedBound && t < SeedBound && "seed" in options
    ensures GenerateTextToImage(prompt, options, s) == GenerateTextToImage(prompt, options, t)
  {
    assert Sampler(options, s) == Sampler(options, t);
  }

  const Upscale: Node :=
    Node("ImageScale", "Upscale Image", map[
      "upscale_method" := Lit(Str("nearest-exact")),
      "scale_by" := Lit(Num(2.0)),
      "image" := Link(8, 0)])

  lemma UpscaleLinks()
    ensures LinksBelow(Upscale, Rank[10], BaseIds + {10})
    ensures LinksBelow(Save(Link(10, 0)), Rank[9], BaseIds + {10})
  {
  }

  lemma Widen(node: Node, r: nat, ids: set<NodeId>, more: set<NodeId>)
    requires LinksBelow(node, r, ids) && ids <= more
    ensures LinksBelow(node, r, more)
  {
  }

  /** Adding the scale node to a base graph and pointing the save node at it
      keeps the graph closed and ranked. */
  lemma UpscaledWellFormed(base: Workflow, w: Workflow)
    requires BaseLinks(base)
    requires w.Keys == base.Keys + {10}
    requires forall n :: n in base && n != 9 ==> w[n] == base[n]
    requires w[10] == Upscale && w[9] == Save(Link(10, 0))
    ensures Closed(w) && RankedBy(w, Rank)
  {
    forall n | n in w
      ensures n in Rank && LinksBelow(w[n], Rank[n], BaseIds + {10})
    {
      if n == 10 || n == 9 {
        UpscaleLinks();
      } else {
        assert n in base && w[n] == base[n];
        Widen(w[n], Rank[n], BaseIds, BaseIds + {10});
      }
    }
    GraphFromNodes(w, BaseIds + {10});
  }

  /** The two assignments of `generateWithUpscale`, on any graph with a node
      9 and no node 10: node 10 is added, node 9 reads node 10, the rest is
      unchanged. */
  lemma UpscaleShape(base: Workflow, w: Workflow)
    requires 9 in base && 10 !in base
    requires w == base[10 := Upscale][9 := base[9].(inputs := base[9].inputs["images" := Link(10, 0)])]
    ensures w.Keys == base.Keys + {10}
    ensures forall n :: n in base && n != 9 ==> w[n] == base[n]
    ensures w[10] == Upscale && w[10].inputs["image"] == Link(8, 0)
    ensures w[9] == base[9].(inputs := base[9].inputs["images" := Link(10, 0)])
  {
  }

  /** `generateWithUpscale(prompt, options)`: the text-to-image graph with an
      upscaling node "10" reading the decoded image, and the save node
      rewired to read the upscaled image instead. */
  method GenerateWithUpscale(prompt: string, options: map<string, Json>, randomSeed: nat) returns (w: Workflow)
    requires randomSeed < SeedBound
    ensures var base := GenerateTextToImage(prompt, options, randomSeed);
      && w.Keys == base.Keys + {10}
      && (forall n :: n in base && n != 9 ==> w[n] == base[n])
      && w[10] == Upscale && w[10].inputs["image"] == Link(8, 0)
      && w[9] == base[9].(inputs := base[9].inputs["images" := Link(10, 0)])
    ensures Closed(w) && RankedBy(w, Rank)
  {
    var base := GenerateTextToImage(prompt, options, randomSeed);
    w := base;
    w := w[10 := Upscale];
    var save := w[9];
    w := w[9 := save.(inputs := save.inputs["images" := Link(10, 0)])];
    UpscaleShape(base, w);
    BaseNodes(prompt, options, randomSeed);
    Rewire(Link(8, 0), Link(10, 0));
    TextToImageLinks(prompt, options, randomSeed);
    UpscaledWellFormed(base, w);
  }
}

/**
 The fallback with its default models in the started program (internal/provider/xiangyun/xiangyun.go
 and cmd/genpic/main.go): what the registry finds for each of them, and what a call may cost.
 */
module DefaultChain {
  import opened GoStrings
  import opened Fallback
  import opened ModelRouting
  import opened Providers
  import opened RewriteClosure

  // The models the fallback tries when none are configured.
  const DEFAULT_MODELS := ["gemini/gemini-3.1-flash-image-preview", "openai/gpt-image-2", "wan/wan2.7-image"]

  // The fallback runs in the started program: its lookups and its rewrites are those of the
  // registry and of the installed map, in whatever order the registry is visited.
  ghost predicate RunsIn(w: World, providers: map<string, seq<ModelInfo>>, m: map<string, string>) {
    && w.adapters("gemini") == Adapters.GEMINI && w.adapters("openai") == Adapters.OPENAI
    && w.adapters("wan") == Adapters.WAN
    && (forall id :: MayFind(providers, id, w.find(id)))
    && forall model, size :: w.rewrite4K(model, size) == ResolveMappedCatalogID(m, model, size)
  }

  // A Gemini model does not answer to the id of another vendor.
  lemma GeminiIsSilent(providers: map<string, seq<ModelInfo>>, m: map<string, string>, id: string)
    requires Serves(providers, m) && Trimmed4K(m) && SlashFree(m)
    requires '/' in id && !HasPrefix(id, "gemini/")
    ensures FirstMatch(providers["gemini"], id) == None
  {
    hide Matches, GeminiModel, SlashFree, Trimmed4K, WiresOf;
    forall x | x in providers["gemini"]
      ensures !Matches(x, id)
    {
      WireHasNoSlash(providers, m, x);
      OtherVendor(x, id);
    }
    NoMatch(providers["gemini"], id);
  }

  lemma OtherVendor(x: ModelInfo, id: string)
    requires NameOk(x) && '/' !in x.upstreamModel && '/' in id && !HasPrefix(id, "gemini/")
    ensures !Matches(x, id)
  {
    WireOfModel(x.upstreamModel);
  }

  // The ids of the second and third default are answered by their own vendors alone.
  lemma {:induction false} OpenAIAnswers(providers: map<string, seq<ModelInfo>>, m: map<string, string>,
                                         fallback: bool, r: Option<(string, ModelInfo)>)
    requires Serves(providers, m) && Started(providers, fallback) && Trimmed4K(m) && SlashFree(m)
    requires MayFind(providers, "openai/gpt-image-2", r)
    ensures r == Some(("openai", OPENAI[0]))
  {
    hide Serves, SlashFree, Trimmed4K;
    var id := "openai/gpt-image-2";
    assert id[6] == '/' && id[0] == 'o';
    GeminiIsSilent(providers, m, id);
    assert FirstMatch(OPENAI, id) == Some(OPENAI[0]);
    assert "openai" in providers;
    NotWan(id);
    NotXiangyun(id);
  }

  lemma {:induction false} WanAnswers(providers: map<string, seq<ModelInfo>>, m: map<string, string>,
                                      fallback: bool, r: Option<(string, ModelInfo)>)
    requires Serves(providers, m) && Started(providers, fallback) && Trimmed4K(m) && SlashFree(m)
    requires MayFind(providers, "wan/wan2.7-image", r)
    ensures r == Some(("wan", WAN[0]))
  {
    hide Serves, SlashFree, Trimmed4K;
    var id := "wan/wan2.7-image";
    assert id[3] == '/' && id[0] == 'w';
    GeminiIsSilent(providers, m, id);
    assert FirstMatch(WAN, id) == Some(WAN[0]);
    assert "wan" in providers;
    NotOpenAI(id);
    NotXiangyun(id);
  }

  lemma NotOpenAI(id: string)
    requires '/' in id && id[0] != 'o'
    ensures FirstMatch(OPENAI, id) == None
  {
    OpenAIIsForeign();
    assert OPENAI[0].id[0] == 'o';
    NoMatch(OPENAI, id);
  }

  lemma NotWan(id: string)
    requires '/' in id && id[0] != 'w'
    ensures FirstMatch(WAN, id) == None
  {
    WanIsForeign();
    assert WAN[0].id[0] == 'w' && WAN[1].id[0] == 'w';
    NoMatch(WAN, id);
  }

  lemma NotXiangyun(id: string)
    requires '/' in id && id[0] != 'x'
    ensures FirstMatch(XIANGYUN, id) == None
  {
    XiangyunIsForeign();
    assert XIANGYUN[0].id[0] == 'x';
    NoMatch(XIANGYUN, id);
  }

  // The first default is answered by Gemini, also when a 4K request rewrites it, unless it is
  // rewritten to a value that nobody answers to.
  lemma {:induction false} GeminiDefault(providers: map<string, seq<ModelInfo>>, m: map<string, string>, id: string,
                                         size: string, r: Option<(string, ModelInfo)>)
    requires Serves(providers, m) && Trimmed4K(m) && SlashFree(m)
    requires var w := "gemini-3.1-flash-image-preview";
             var alt := ResolveMappedCatalogID(m, w, size);
             id == if alt != "" then alt else "gemini/" + w
    requires MayFind(providers, id, r)
    ensures r.Some? ==> r.value.0 == "gemini"
  {
    hide GeminiModel, Trimmed, Foreign, FirstMatch, WiresOf, MapWires, GeminiModels;
    var w := "gemini-3.1-flash-image-preview";
    if ResolveMappedCatalogID(m, w, size) != "" {
      RewriteIsValue(m, w, size);
      var k :| k in m && id == m[k];
      var v :| m[k] == "gemini/" + v && '/' !in v;
      FallbackRewriteIsClosed(providers, m, k, v, r);
    } else if r.Some? && r.value.0 != "gemini" {
      OthersDoNotAnswer(providers[r.value.0], w);
    }
  }

  // What the fallback asks for, for each default.
  lemma DefaultsRouted(c: Chain)
    requires c.models == DEFAULT_MODELS
    ensures c.Routed(1) == "openai/gpt-image-2" && c.Routed(2) == "wan/wan2.7-image"
    ensures var w := "gemini-3.1-flash-image-preview";
            var alt := c.world.rewrite4K(w, c.request.imageSize);
            c.Routed(0) == if alt != "" then alt else "gemini/" + w
  {
    hide Chain.Routed;
    assert DEFAULT_MODELS[0] == "gemini/" + "gemini-3.1-flash-image-preview";
    PlainEntry(c, 1, "openai/gpt-image-2");
    PlainEntry(c, 2, "wan/wan2.7-image");
    GeminiEntry(c, 0, "gemini-3.1-flash-image-preview");
  }

  // A configured id of another vendor is asked for as it is.
  lemma PlainEntry(c: Chain, i: nat, id: string)
    requires i < |c.models| && c.models[i] == id && id != "" && 'h' <= id[0] <= 'z' && '0' <= id[|id| - 1] <= 'z'
    ensures c.Routed(i) == id
  {
    hide TrimSpace;
    TrimSpaceFixed(id);
    assert ToLower(id)[0] == id[0] && "gemini/"[0] == 'g';
  }

  lemma GeminiEntry(c: Chain, i: nat, w: string)
    requires i < |c.models| && c.models[i] == "gemini/" + w && w != "" && '0' <= w[|w| - 1] <= 'z'
    ensures var alt := c.world.rewrite4K(w, c.request.imageSize);
            c.Routed(i) == if alt != "" then alt else "gemini/" + w
  {
    hide TrimSpace;
    var id := "gemini/" + w;
    assert id[0] == 'g' && id[|id| - 1] == w[|w| - 1] && id[7..] == w;
    TrimSpaceFixed(id);
    assert ToLower(id)[..7] == "gemini/";
  }

  /** In the started program each default is found with its own provider, in every order of the registry. */
  lemma {:induction false} DefaultsAreFound(c: Chain, providers: map<string, seq<ModelInfo>>,
                                            m: map<string, string>, fallback: bool)
    requires RunsIn(c.world, providers, m) && c.models == DEFAULT_MODELS
    requires Serves(providers, m) && Started(providers, fallback) && Trimmed4K(m) && SlashFree(m)
    ensures c.Backend(0).Some? ==> c.Backend(0).value.0 == "gemini"
    ensures c.Backend(1) == Some(("openai", OPENAI[0])) && c.Backend(2) == Some(("wan", WAN[0]))
  {
    hide Serves, Started, SlashFree, Trimmed4K, MayFind, Chain.Routed, ResolveMappedCatalogID;
    DefaultsRouted(c);
    OpenAIAnswers(providers, m, fallback, c.world.find(c.Routed(1)));
    WanAnswers(providers, m, fallback, c.world.find(c.Routed(2)));
    GeminiDefault(providers, m, c.Routed(0), c.request.imageSize, c.world.find(c.Routed(0)));
  }

  /**
   In the started program the default chain makes at most 13 HTTP requests, 2 for each image with
   Gemini, 3 with OpenAI and 2 with Wan, and at most 7 for a single image.
   */
  lemma {:induction false} DefaultChainRequests(c: Chain, providers: map<string, seq<ModelInfo>>,
                                                m: map<string, string>, fallback: bool)
    requires RunsIn(c.world, providers, m) && c.models == DEFAULT_MODELS
    requires Serves(providers, m) && Started(providers, fallback) && Trimmed4K(m) && SlashFree(m)
    ensures c.Requests(3) <= 13
    ensures c.request.n == 0 || c.request.n == 1 ==> c.Requests(3) <= 7
  {
    hide Serves, Started, SlashFree, Trimmed4K, MayFind, Chain.Backend, Chain.Eligible, Chain.Requests;
    DefaultsAreFound(c, providers, m, fallback);
    RequestsWithinBudget(c, 3);
    assert c.Budget(0) == 0;
    assert c.Budget(1) <= Adapters.Budget(Adapters.GEMINI, c.request.n);
    assert c.Budget(2) <= c.Budget(1) + 3;
    assert c.Budget(3) <= c.Budget(2) + 2;
  }

  /**
   It needs values of the form gemini/w with w slash-free: a Gemini model with the wire name
   openai/gpt-image-2 answers to the second default too.
   */
  lemma {:induction false} SlashedWireAnswersToo(providers: map<string, seq<ModelInfo>>, fallback: bool)
    requires Started(providers, fallback) && GeminiModels(providers["gemini"])
    requires "openai/gpt-image-2" in WiresOf(providers["gemini"])
    ensures MayFind(providers, "openai/gpt-image-2", Some(("openai", OPENAI[0])))
    ensures exists info :: MayFind(providers, "openai/gpt-image-2", Some(("gemini", info)))
  {
    var id := "openai/gpt-image-2";
    assert FirstMatch(OPENAI, id) == Some(OPENAI[0]);
    var x :| x in providers["gemini"] && x.upstreamModel == id;
    assert FirstMatch(providers["gemini"], id).Some?;
    assert MayFind(providers, id, Some(("gemini", FirstMatch(providers["gemini"], id).value)));
  }
}

/**
 Where a 4K rewrite leads. A configuration map is normalised, installed, and its values are
 registered as Gemini models beside the other providers' (cmd/genpic/main.go); a request for a
 4K image is then rewritten to one of the values, either before the registry is asked
 (internal/api/generate.go) or inside the fallback (internal/provider/xiangyun/xiangyun.go).
 */
module RewriteClosure {
  import opened GoStrings
  import opened ModelRouting
  import opened Providers

  const OPENAI := [ModelInfo("openai/gpt-image-2", "gpt-image-2")]
  const WAN := [ModelInfo("wan/wan2.7-image", "wan2.7-image"), ModelInfo("wan/wan2.7-image-pro", "wan2.7-image-pro")]
  const XIANGYUN := [ModelInfo("xiangyun/auto", "xiangyun-auto")]

  // Every value is gemini/w for some w without a slash.
  ghost predicate SlashFree(m: map<string, string>) {
    forall k :: k in m ==> exists w :: m[k] == "gemini/" + w && '/' !in w
  }

  // The wire names of a map's values.
  ghost function MapWires(m: map<string, string>): set<string> {
    set k | k in m && WireOf(m[k]) != "" :: WireOf(m[k])
  }

  // A model of another provider: its id has a slash but is not a Gemini id, its wire name has none.
  predicate Foreign(m: ModelInfo) {
    '/' in m.id && !HasPrefix(m.id, "gemini/") && '/' !in m.upstreamModel
  }

  // The registry serves the map: Gemini has the built-in models and those of the map's values.
  ghost predicate Serves(providers: map<string, seq<ModelInfo>>, m: map<string, string>) {
    && "gemini" in providers && GeminiModels(providers["gemini"])
    && WiresOf(providers["gemini"]) == WiresOf(BUILT_IN) + MapWires(m)
    && forall name, i :: name in providers && name != "gemini" && 0 <= i < |providers[name]| ==>
              Foreign(providers[name][i])
  }

  // The providers that are registered besides Gemini.
  ghost predicate Started(providers: map<string, seq<ModelInfo>>, fallback: bool) {
    && providers.Keys == {"openai", "gemini", "wan"} + (if fallback then {"xiangyun"} else {})
    && providers["openai"] == OPENAI && providers["wan"] == WAN
    && (fallback ==> providers["xiangyun"] == XIANGYUN)
  }

  /** The start of the program: the map is normalised and installed unchanged, and the providers are registered. */
  method Start(raw: map<string, string>, fallback: bool) returns (config: GeminiConfig, registry: Registry)
    ensures fresh(config) && fresh(registry)
    ensures NormalisedMap(raw, config.m) && Trimmed4K(config.m)
    ensures Started(registry.providers, fallback)
    ensures SlashFree(config.m) ==> Serves(registry.providers, config.m)
  {
    hide GeminiModels, WiresOf, MapWires, SlashFree, Trimmed4K, Foreign, NormalisedMap, Started;
    config := Configure(raw);
    var gemini := MakeGemini(config);
    registry := RegisterAll(gemini, fallback);
    RegistryServes(registry.providers, config.m, fallback);
  }

  // The map, normalised and installed.
  method Configure(raw: map<string, string>) returns (config: GeminiConfig)
    ensures fresh(config) && NormalisedMap(raw, config.m) && Trimmed4K(config.m)
  {
    hide TrimSpace, NormalisedMap, InstalledMap, Trimmed4K;
    var normal := NormalizeImageSize4KModelMap(raw);
    config := new GeminiConfig();
    config.Install(normal);
    InstalledIsNormal(raw, normal, config.m);
    InstalledIsTrimmed(normal, config.m);
  }

  // The Gemini models for the installed map.
  method MakeGemini(config: GeminiConfig) returns (gemini: seq<ModelInfo>)
    requires Trimmed4K(config.m)
    ensures GeminiModels(gemini)
    ensures SlashFree(config.m) ==> WiresOf(gemini) == WiresOf(BUILT_IN) + MapWires(config.m)
  {
    hide TrimSpace, GeminiModels, WiresOf, WireOf, MapWires, ExtraWires, SlashFree, Trimmed4K;
    var extra := config.ExtraUpstreamWireModels();
    gemini := NewGemini(extra);
    if SlashFree(config.m) {
      ExtrasAreMapWires(config.m, extra);
    }
  }

  lemma RegistryServes(providers: map<string, seq<ModelInfo>>, m: map<string, string>, fallback: bool)
    requires Started(providers, fallback) && GeminiModels(providers["gemini"])
    ensures WiresOf(providers["gemini"]) == WiresOf(BUILT_IN) + MapWires(m) ==> Serves(providers, m)
  {
    hide GeminiModels, WiresOf, MapWires, Foreign;
    OthersAreForeign(providers, fallback);
  }

  method RegisterAll(gemini: seq<ModelInfo>, fallback: bool) returns (registry: Registry)
    ensures fresh(registry) && Started(registry.providers, fallback)
    ensures registry.providers["gemini"] == gemini
  {
    registry := new Registry();
    var ok := registry.Register("openai", OPENAI);
    ok := registry.Register("gemini", gemini);
    ok := registry.Register("wan", WAN);
    if fallback {
      ok := registry.Register("xiangyun", XIANGYUN);
    }
  }

  // Installing a normalised map changes nothing.
  lemma InstalledIsNormal(raw: map<string, string>, normal: map<string, string>, m: map<string, string>)
    requires NormalisedMap(raw, normal)
    requires InstalledMap(normal, m)
    ensures m == normal
  {
    hide TrimSpace, NormalizeCatalogID;
    forall n | n in normal
      ensures TrimSpace(n) == n && TrimSpace(normal[n]) == normal[n]
    {
      var k :| k in raw && n == NormalizeCatalogID(k) && normal[n] == NormalizeCatalogID(raw[k]);
      NormalIsTrimmed(k);
      NormalIsTrimmed(raw[k]);
    }
    assert forall k :: k in m <==> k in normal;
  }

  lemma OthersAreForeign(providers: map<string, seq<ModelInfo>>, fallback: bool)
    requires Started(providers, fallback)
    ensures forall name, i :: name in providers && name != "gemini" && 0 <= i < |providers[name]| ==>
              Foreign(providers[name][i])
  {
    hide Foreign;
    OpenAIIsForeign();
    WanIsForeign();
    XiangyunIsForeign();
  }

  // Values are trimmed and not blank.
  ghost predicate Trimmed4K(m: map<string, string>) {
    forall k :: k in m ==> TrimSpace(m[k]) == m[k] != ""
  }

  lemma InstalledIsTrimmed(mm: map<string, string>, m: map<string, string>)
    requires InstalledMap(mm, m)
    ensures Trimmed4K(m)
  {
    hide TrimSpace;
    forall k | k in m
      ensures TrimSpace(m[k]) == m[k]
    {
      var o :| o in mm && k == TrimSpace(o) && m[k] == TrimSpace(mm[o]);
      TrimSpaceTrims(mm[o]);
      TrimSpaceFixed(m[k]);
    }
  }

  lemma OpenAIIsForeign()
    ensures forall i :: 0 <= i < |OPENAI| ==> Foreign(OPENAI[i])
  {
    hide Foreign;
    OtherIsForeign(OPENAI[0], "openai/gpt-image-2", 6);
  }

  lemma WanIsForeign()
    ensures forall i :: 0 <= i < |WAN| ==> Foreign(WAN[i])
  {
    hide Foreign;
    OtherIsForeign(WAN[0], "wan/wan2.7-image", 3);
    OtherIsForeign(WAN[1], "wan/wan2.7-image-pro", 3);
  }

  lemma XiangyunIsForeign()
    ensures forall i :: 0 <= i < |XIANGYUN| ==> Foreign(XIANGYUN[i])
  {
    hide Foreign;
    OtherIsForeign(XIANGYUN[0], "xiangyun/auto", 8);
  }

  lemma OtherIsForeign(m: ModelInfo, id: string, slash: nat)
    requires m.id == id && slash < |id| && id[slash] == '/' && '/' !in m.upstreamModel && id[0] != 'g'
    ensures Foreign(m)
  {
  }

  // Without a slash a wire name is already bare, so taking it twice changes nothing.
  lemma WireOfWire(w: string)
    requires '/' !in w && TrimSpace(w) == w
    ensures WireOf(w) == w
  {
    assert !HasPrefix(w, "gemini/") by {
      if |w| >= 7 {
        assert w[6] in w;
      }
    }
  }

  lemma TrimmedPart(w: string)
    ensures forall c :: c in TrimSpace(w) ==> c in w
  {
    TrimLeftShape(w);
    TrimRightShape(TrimLeft(w));
  }

  // The wire name of gemini/w is w without the white space around it.
  lemma WireOfValue(v: string, w: string)
    requires v == "gemini/" + w && TrimSpace(v) == v
    ensures WireOf(v) == TrimSpace(w)
  {
    assert v[7..] == w;
  }

  lemma {:induction false} ExtrasAreMapWires(m: map<string, string>, extra: seq<string>)
    requires SlashFree(m) && Trimmed4K(m)
    requires forall w :: w in extra <==> w != "" && exists k :: k in m && w == WireOf(m[k])
    ensures ExtraWires(extra, |extra|) == MapWires(m)
  {
    hide TrimSpace, WireOf;
    forall i | 0 <= i < |extra|
      ensures WireOf(extra[i]) == extra[i]
    {
      assert extra[i] in extra;
      var k :| k in m && extra[i] == WireOf(m[k]);
      var w :| m[k] == "gemini/" + w && '/' !in w;
      WireOfValue(m[k], w);
      TrimmedPart(w);
      TrimSpaceTrims(w);
      TrimSpaceFixed(TrimSpace(w));
      WireOfWire(TrimSpace(w));
    }
    FixedExtras(extra, |extra|);
    assert extra[..|extra|] == extra;
    assert forall w :: w in ExtraWires(extra, |extra|) <==> w in MapWires(m);
  }

  lemma {:induction false} FixedExtras(extra: seq<string>, n: nat)
    requires n <= |extra| && forall i :: 0 <= i < |extra| ==> WireOf(extra[i]) == extra[i]
    ensures forall w :: w in ExtraWires(extra, n) <==> w != "" && w in extra[..n]
  {
    hide WireOf;
    if n > 0 {
      FixedExtras(extra, n - 1);
      assert extra[..n] == extra[..n - 1] + [extra[n - 1]];
    }
  }

  // What a rewritten id may be.
  lemma {:induction false} RewriteIsValue(m: map<string, string>, model: string, imageSize: string)
    requires Trimmed4K(m) && ResolveMappedCatalogID(m, model, imageSize) != ""
    ensures exists k :: k in m && ResolveMappedCatalogID(m, model, imageSize) == m[k]
  {
  }

  /** The model gemini/w is registered exactly when w is trimmed and not empty. */
  lemma RegisteredExactly(providers: map<string, seq<ModelInfo>>, m: map<string, string>, k: string, w: string)
    requires Serves(providers, m) && Trimmed4K(m) && k in m && m[k] == "gemini/" + w && '/' !in w
    ensures GeminiModel(w) in providers["gemini"] <==> w != "" && Trimmed(w)
  {
    hide Trimmed, GeminiModel, WireOf, TrimSpace;
    var models := providers["gemini"];
    if w != "" && Trimmed(w) {
      WireOfValue(m[k], w);
      TrimSpaceFixed(w);
      assert w in MapWires(m) && w in WiresOf(models);
      var x :| x in models && x.upstreamModel == w;
      assert NameOk(x);
    }
    if GeminiModel(w) in models {
      assert NameOk(GeminiModel(w));
      WireOfModel(w);
    }
  }

  lemma WireOfModel(w: string)
    ensures GeminiModel(w).upstreamModel == w && HasPrefix(GeminiModel(w).id, "gemini/")
    ensures GeminiModel(w).id == "gemini/" + w
  {
  }

  lemma OnlyMatch(models: seq<ModelInfo>, id: string, m: ModelInfo)
    requires m in models && Matches(m, id) && forall x :: x in models && Matches(x, id) ==> x == m
    ensures FirstMatch(models, id) == Some(m)
  {
  }

  lemma NoMatch(models: seq<ModelInfo>, id: string)
    requires forall x :: x in models ==> !Matches(x, id)
    ensures FirstMatch(models, id) == None
  {
  }

  // No registered wire name has a slash.
  lemma WireHasNoSlash(providers: map<string, seq<ModelInfo>>, m: map<string, string>, x: ModelInfo)
    requires Serves(providers, m) && Trimmed4K(m) && SlashFree(m) && x in providers["gemini"]
    ensures '/' !in x.upstreamModel
  {
    hide TrimSpace, WireOf, NameOk, GeminiModels;
    assert x.upstreamModel in WiresOf(providers["gemini"]);
    if x.upstreamModel in MapWires(m) {
      var k :| k in m && x.upstreamModel == WireOf(m[k]);
      var w :| m[k] == "gemini/" + w && '/' !in w;
      WireOfValue(m[k], w);
      TrimmedPart(w);
    } else {
      BuiltInHasNoSlash(x.upstreamModel);
    }
  }

  lemma BuiltInHasNoSlash(w: string)
    requires w in WiresOf(BUILT_IN)
    ensures '/' !in w
  {
    hide GeminiModel;
    var x :| x in BUILT_IN && x.upstreamModel == w;
    assert x == BUILT_IN[0] || x == BUILT_IN[1] || x == BUILT_IN[2];
    PlainName("gemini-2.5-flash-image");
    PlainName("gemini-3.1-flash-image-preview");
    PlainName("gemini-3-pro-image-preview");
  }

  lemma PlainName(w: string)
    requires forall i :: 0 <= i < |w| ==> w[i] != '/'
    ensures '/' !in GeminiModel(w).upstreamModel
  {
  }

  // A Gemini model answers to gemini/w, or to w, only if it is the model of w.
  lemma GeminiMatch(x: ModelInfo, w: string)
    requires NameOk(x) && '/' !in x.upstreamModel && '/' !in w
    ensures Matches(x, "gemini/" + w) <==> x == GeminiModel(w)
    ensures Matches(x, w) <==> x == GeminiModel(w)
  {
    assert x.id[6] == '/' && x.id[6] in x.id;
    assert ("gemini/" + x.upstreamModel)[7..] == x.upstreamModel && ("gemini/" + w)[7..] == w;
    assert ("gemini/" + w)[6] == '/' && ("gemini/" + w)[6] in "gemini/" + w;
  }

  lemma {:induction false} GeminiAnswers(providers: map<string, seq<ModelInfo>>, m: map<string, string>, w: string)
    requires Serves(providers, m) && Trimmed4K(m) && SlashFree(m) && '/' !in w
    ensures FirstMatch(providers["gemini"], "gemini/" + w)
         == if GeminiModel(w) in providers["gemini"] then Some(GeminiModel(w)) else None
    ensures FirstMatch(providers["gemini"], w)
         == if GeminiModel(w) in providers["gemini"] then Some(GeminiModel(w)) else None
  {
    hide Matches, GeminiModel;
    var models := providers["gemini"];
    forall x | x in models
      ensures Matches(x, "gemini/" + w) <==> x == GeminiModel(w)
      ensures Matches(x, w) <==> x == GeminiModel(w)
    {
      WireHasNoSlash(providers, m, x);
      GeminiMatch(x, w);
    }
    if GeminiModel(w) in models {
      OnlyMatch(models, "gemini/" + w, GeminiModel(w));
      OnlyMatch(models, w, GeminiModel(w));
    } else {
      NoMatch(models, "gemini/" + w);
      NoMatch(models, w);
    }
  }

  // No other provider answers to a Gemini id.
  lemma OthersDoNotAnswer(models: seq<ModelInfo>, w: string)
    requires forall i :: 0 <= i < |models| ==> Foreign(models[i])
    ensures FirstMatch(models, "gemini/" + w) == None
  {
    var id := "gemini/" + w;
    assert id[6] == '/' && id[6] in id && HasPrefix(id, "gemini/");
    NoMatch(models, id);
  }

  /**
   Inside the fallback a rewrite to gemini/w reaches the Gemini model with wire name w, in every
   order of the registry, exactly when w is trimmed and not empty; otherwise nothing is found.
   */
  lemma FallbackRewriteIsClosed(providers: map<string, seq<ModelInfo>>, m: map<string, string>, k: string,
                                w: string, r: Option<(string, ModelInfo)>)
    requires Serves(providers, m) && Trimmed4K(m) && SlashFree(m) && k in m && m[k] == "gemini/" + w && '/' !in w
    requires MayFind(providers, m[k], r)
    ensures r == if w != "" && Trimmed(w) then Some(("gemini", GeminiModel(w))) else None
  {
    hide GeminiModel, Trimmed, Foreign;
    RegisteredExactly(providers, m, k, w);
    GeminiAnswers(providers, m, w);
    if r.Some? && r.value.0 != "gemini" {
      OthersDoNotAnswer(providers[r.value.0], w);
    }
    forall name | name in providers && name != "gemini"
      ensures FirstMatch(providers[name], m[k]) == None
    {
      OthersDoNotAnswer(providers[name], w);
    }
  }

  // A request's model that is a map value is normalised to the wire name.
  lemma NormalizedValue(v: string, w: string)
    requires v == "gemini/" + w && TrimSpace(v) == v
    ensures NormalizeModelID(v) == w
  {
    hide TrimSpace;
    assert VENDORS[0] == "gemini/" && HasPrefix(v, VENDORS[0]) && v[7..] == w;
  }

  // The registry may answer the bare w with nothing but the Gemini model of w.
  ghost predicate ClosedDirectly(providers: map<string, seq<ModelInfo>>, w: string) {
    forall r :: MayFind(providers, w, r) ==> r == Some(("gemini", GeminiModel(w)))
  }

  /**
   Before the fallback the rewrite asks the registry for the bare w. It reaches the Gemini model
   of w in every order of the registry exactly when w is trimmed and not empty and no other
   provider has a wire name w.
   */
  lemma {:induction false} DirectRewriteIsClosed(providers: map<string, seq<ModelInfo>>, m: map<string, string>,
                                                 k: string, w: string)
    requires Serves(providers, m) && Trimmed4K(m) && SlashFree(m) && k in m && m[k] == "gemini/" + w && '/' !in w
    ensures NormalizeModelID(m[k]) == w
    ensures ClosedDirectly(providers, w) <==>
              && w != "" && Trimmed(w)
              && forall name :: name in providers && name != "gemini" ==> w !in WiresOf(providers[name])
  {
    hide GeminiModel, Trimmed, NormalizeModelID, TrimSpace, WiresOf;
    NormalizedValue(m[k], w);
    RegisteredExactly(providers, m, k, w);
    GeminiAnswers(providers, m, w);
    forall name | name in providers && name != "gemini"
      ensures FirstMatch(providers[name], w).Some? <==> w in WiresOf(providers[name])
    {
      ForeignMatch(providers[name], w);
    }
    if name :| name in providers && name != "gemini" && w in WiresOf(providers[name]) {
      assert MayFind(providers, w, Some((name, FirstMatch(providers[name], w).value)));
    } else if GeminiModel(w) !in providers["gemini"] {
      assert MayFind(providers, w, None);
    }
  }

  lemma ForeignMatch(models: seq<ModelInfo>, w: string)
    requires '/' !in w && forall i :: 0 <= i < |models| ==> Foreign(models[i])
    ensures FirstMatch(models, w).Some? <==> w in WiresOf(models)
  {
    if FirstMatch(models, w).Some? {
      var x := FirstMatch(models, w).value;
      assert x in models && Foreign(x);
    }
  }

  // The wire names of the registered providers other than Gemini.
  function OtherWires(fallback: bool): set<string> {
    {"gpt-image-2", "wan2.7-image", "wan2.7-image-pro"} + if fallback then {"xiangyun-auto"} else {}
  }

  lemma {:induction false} OtherWiresAre(providers: map<string, seq<ModelInfo>>, fallback: bool, w: string)
    requires Started(providers, fallback)
    ensures (forall name :: name in providers && name != "gemini" ==> w !in WiresOf(providers[name]))
       <==> w !in OtherWires(fallback)
  {
    assert WiresOf(OPENAI) == {"gpt-image-2"} by { assert OPENAI[0] in OPENAI; }
    assert WiresOf(WAN) == {"wan2.7-image", "wan2.7-image-pro"} by { assert WAN[0] in WAN && WAN[1] in WAN; }
    assert WiresOf(XIANGYUN) == {"xiangyun-auto"} by { assert XIANGYUN[0] in XIANGYUN; }
    hide WiresOf;
    assert "openai" in providers && "wan" in providers && (fallback ==> "xiangyun" in providers);
  }

  /**
   In the started program: whatever a 4K request is rewritten to is gemini/w for a value of the
   map. Inside the fallback it reaches the Gemini model of w exactly when w is trimmed and not
   empty; before it, when w is besides not one of the other providers' wire names.
   */
  lemma {:induction false} RewriteIsClosed(providers: map<string, seq<ModelInfo>>, m: map<string, string>,
                                           fallback: bool, model: string, imageSize: string)
    returns (w: string)
    requires Serves(providers, m) && Started(providers, fallback) && Trimmed4K(m) && SlashFree(m)
    requires ResolveMappedCatalogID(m, model, imageSize) != ""
    ensures ResolveMappedCatalogID(m, model, imageSize) == "gemini/" + w && '/' !in w
    ensures forall r :: MayFind(providers, "gemini/" + w, r) ==>
              r == if w != "" && Trimmed(w) then Some(("gemini", GeminiModel(w))) else None
    ensures NormalizeModelID("gemini/" + w) == w
    ensures ClosedDirectly(providers, w) <==> w != "" && Trimmed(w) && w !in OtherWires(fallback)
  {
    hide ResolveMappedCatalogID, Started, Serves, Trimmed4K, MayFind, NormalizeModelID, WiresOf, OtherWires;
    hide ClosedDirectly, Trimmed;
    hide GeminiModel;
    RewriteIsValue(m, model, imageSize);
    var k :| k in m && ResolveMappedCatalogID(m, model, imageSize) == m[k];
    w :| m[k] == "gemini/" + w && '/' !in w;
    forall r | MayFind(providers, m[k], r)
      ensures r == if w != "" && Trimmed(w) then Some(("gemini", GeminiModel(w))) else None
    {
      FallbackRewriteIsClosed(providers, m, k, w, r);
    }
    DirectRewriteIsClosed(providers, m, k, w);
    OtherWiresAre(providers, fallback, w);
  }

  /**
   The value gemini/gpt-image-2 stays as it is, and a direct request for it may be answered by
   OpenAI or by Gemini.
   */
  lemma {:induction false} SharedWireIsAmbiguous(providers: map<string, seq<ModelInfo>>, m: map<string, string>,
                                                 fallback: bool, k: string)
    requires Serves(providers, m) && Started(providers, fallback) && Trimmed4K(m) && SlashFree(m)
    requires k in m && m[k] == "gemini/" + "gpt-image-2"
    ensures NormalizeCatalogID("gemini/" + "gpt-image-2") == "gemini/" + "gpt-image-2"
    ensures MayFind(providers, NormalizeModelID(m[k]), Some(("openai", OPENAI[0])))
    ensures MayFind(providers, NormalizeModelID(m[k]), Some(("gemini", GeminiModel("gpt-image-2"))))
  {
    hide TrimSpace, NormalizeModelID, GeminiModel, Trimmed, SlashFree;
    var w := "gpt-image-2";
    PlainWire(w);
    var v := "gemini/" + w;
    assert v[6] == '/' && v[6] in v;
    NormalizedValue(m[k], w);
    RegisteredExactly(providers, m, k, w);
    GeminiAnswers(providers, m, w);
    assert FirstMatch(OPENAI, w) == Some(OPENAI[0]);
  }

  lemma {:induction false} PlainWire(w: string)
    requires w != "" && 'a' <= w[0] <= 'z' && '0' <= w[|w| - 1] <= 'z' && forall i :: 0 <= i < |w| ==> w[i] != '/'
    ensures Trimmed(w) && '/' !in w
  {
  }

  /** The value with a space before its wire name stays as it is, and a request rewritten to it finds nothing at all. */
  lemma {:induction false} SpacedWireIsLost(providers: map<string, seq<ModelInfo>>, m: map<string, string>,
                                            fallback: bool, k: string, r: Option<(string, ModelInfo)>)
    requires Serves(providers, m) && Started(providers, fallback) && Trimmed4K(m) && SlashFree(m)
    requires k in m && m[k] == "gemini/" + " x"
    ensures NormalizeCatalogID("gemini/" + " x") == "gemini/" + " x"
    ensures MayFind(providers, m[k], r) || MayFind(providers, NormalizeModelID(m[k]), r) ==> r == None
  {
    hide TrimSpace, NormalizeModelID, GeminiModel, WiresOf, Trimmed, NormalizeCatalogID, Started, Serves;
    var w := " x";
    SpacedWire(w);
    SlashedValue(w);
    NormalizedValue(m[k], w);
    NothingFound(providers, m, fallback, k, w);
    if MayFind(providers, m[k], r) {
      FallbackRewriteIsClosed(providers, m, k, w, r);
    }
  }

  lemma SpacedWire(w: string)
    requires w != "" && IsSpace(w[0]) && forall i :: 0 <= i < |w| ==> w[i] != '/'
    ensures !Trimmed(w) && '/' !in w
  {
  }

  // A trimmed value of this form is its own normal form.
  lemma SlashedValue(w: string)
    requires w != "" && !IsSpace(w[|w| - 1])
    ensures NormalizeCatalogID("gemini/" + w) == "gemini/" + w
  {
    var v := "gemini/" + w;
    assert v[6] == '/' && v[6] in v;
    assert v[0] == 'g' && v[|v| - 1] == w[|w| - 1];
    TrimSpaceFixed(v);
  }

  lemma NothingFound(providers: map<string, seq<ModelInfo>>, m: map<string, string>, fallback: bool, k: string,
                     w: string)
    requires Serves(providers, m) && Started(providers, fallback) && Trimmed4K(m) && SlashFree(m)
    requires k in m && m[k] == "gemini/" + w && '/' !in w && !Trimmed(w)
    ensures MayFind(providers, "gemini/" + w, None)
    ensures w !in OtherWires(fallback) ==> forall name :: name in providers ==> FirstMatch(providers[name], w) == None
  {
    hide GeminiModel, Trimmed, TrimSpace, WiresOf, OtherWires;
    RegisteredExactly(providers, m, k, w);
    GeminiAnswers(providers, m, w);
    OtherWiresAre(providers, fallback, w);
    forall name | name in providers && name != "gemini"
      ensures FirstMatch(providers[name], "gemini/" + w) == None
      ensures FirstMatch(providers[name], w).Some? <==> w in WiresOf(providers[name])
    {
      OthersDoNotAnswer(providers[name], w);
      ForeignMatch(providers[name], w);
    }
  }
}

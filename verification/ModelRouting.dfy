/**
 Model routing: the provider registry (pkg/provider/provider.go), the 4K rewrite map
 (internal/geminiconfig/geminiconfig.go, pkg/mvpconfig/config.go), the models the Gemini
 adapter registers (internal/provider/gemini/gemini.go) and the id a request is normalised to
 (internal/api/generate.go). Go's maps are visited in no particular order.
 */
module ModelRouting {
  import opened GoStrings
  import opened Providers

  predicate Matches(m: ModelInfo, id: string) {
    m.id == id || m.upstreamModel == id
  }

  // The first model of a list that answers to an id.
  function FirstMatch(models: seq<ModelInfo>, id: string): (r: Option<ModelInfo>)
    ensures r.Some? ==> r.value in models && Matches(r.value, id)
    ensures r.None? ==> forall m :: m in models ==> !Matches(m, id)
  {
    if models == [] then None
    else if Matches(models[0], id) then Some(models[0])
    else FirstMatch(models[1..], id)
  }

  // An answer the registry may give: some provider's first match, or nothing when there is none.
  ghost predicate MayFind(providers: map<string, seq<ModelInfo>>, id: string, r: Option<(string, ModelInfo)>) {
    match r
    case Some((name, info)) => name in providers && FirstMatch(providers[name], id) == Some(info)
    case None => forall name :: name in providers ==> FirstMatch(providers[name], id) == None
  }

  class Registry {
    var providers: map<string, seq<ModelInfo>>

    constructor ()
      ensures providers == map[]
    {
      providers := map[];
    }

    // Refuses a name that is taken; the source panics.
    method Register(name: string, models: seq<ModelInfo>) returns (ok: bool)
      modifies this
      ensures ok <==> name !in old(providers)
      ensures providers == if ok then old(providers)[name := models] else old(providers)
    {
      if name in providers {
        return false;
      }
      providers := providers[name := models];
      return true;
    }

    method ProviderForModel(id: string) returns (r: Option<(string, ModelInfo)>)
      ensures MayFind(providers, id, r)
    {
      var left := providers.Keys;
      while left != {}
        invariant left <= providers.Keys
        invariant forall name :: name in providers && name !in left ==> FirstMatch(providers[name], id) == None
        decreases |left|
      {
        var name :| name in left;
        var models := providers[name];
        for i := 0 to |models|
          invariant FirstMatch(models, id) == FirstMatch(models[i..], id)
        {
          if models[i].id == id || models[i].upstreamModel == id {
            return Some((name, models[i]));
          }
          assert models[i..][1..] == models[i + 1..];
        }
        left := left - {name};
      }
      return None;
    }

    // Every model id that is registered, once.
    method AllModels() returns (out: seq<ModelInfo>)
      ensures DistinctModelIds(out)
      ensures forall id :: id in IdsOf(out) <==> exists name :: name in providers && id in IdsOf(providers[name])
    {
      out := [];
      var seen: set<string> := {};
      var left := providers.Keys;
      while left != {}
        invariant left <= providers.Keys && DistinctModelIds(out) && seen == IdsOf(out)
        invariant forall id :: id in seen <==>
                    exists name :: name in providers && name !in left && id in IdsOf(providers[name])
        decreases |left|
      {
        var name :| name in left;
        out, seen := AddModels(out, seen, providers[name]);
        left := left - {name};
      }
    }
  }

  function IdsOf(models: seq<ModelInfo>): set<string> {
    set m | m in models :: m.id
  }

  function WiresOf(models: seq<ModelInfo>): set<string> {
    set m | m in models :: m.upstreamModel
  }

  ghost predicate DistinctModelIds(models: seq<ModelInfo>) {
    forall i, j :: 0 <= i < j < |models| ==> models[i].id != models[j].id
  }

  method AddModels(before: seq<ModelInfo>, known: set<string>, models: seq<ModelInfo>)
    returns (out: seq<ModelInfo>, seen: set<string>)
    requires DistinctModelIds(before) && known == IdsOf(before)
    ensures DistinctModelIds(out) && seen == IdsOf(out) == known + IdsOf(models)
  {
    out, seen := before, known;
    for i := 0 to |models|
      invariant DistinctModelIds(out) && seen == IdsOf(out) == known + IdsOf(models[..i])
    {
      assert models[..i + 1] == models[..i] + [models[i]];
      assert IdsOf(models[..i + 1]) == IdsOf(models[..i]) + {models[i].id};
      if models[i].id in seen {
        continue;
      }
      seen := seen + {models[i].id};
      assert IdsOf(out + [models[i]]) == IdsOf(out) + {models[i].id};
      out := out + [models[i]];
    }
    assert models[..|models|] == models;
  }

  function NormalizeCatalogID(s: string): string {
    var t := TrimSpace(s);
    if t == "" then "" else if '/' in t then t else "gemini/" + t
  }

  // out is some normal form of raw: when two keys become one, either value may stay.
  ghost predicate NormalisedMap(raw: map<string, string>, out: map<string, string>) {
    && (forall k :: k in raw && NormalizeCatalogID(k) != "" && NormalizeCatalogID(raw[k]) != "" ==>
          NormalizeCatalogID(k) in out)
    && forall n :: n in out ==>
         && n != "" && out[n] != ""
         && exists k :: k in raw && n == NormalizeCatalogID(k) && out[n] == NormalizeCatalogID(raw[k])
  }

  method NormalizeImageSize4KModelMap(raw: map<string, string>) returns (out: map<string, string>)
    ensures NormalisedMap(raw, out)
  {
    hide NormalizeCatalogID;
    out := map[];
    var left := raw.Keys;
    while left != {}
      invariant left <= raw.Keys
      invariant forall k ::
                  k in raw && k !in left && NormalizeCatalogID(k) != "" && NormalizeCatalogID(raw[k]) != "" ==>
                  NormalizeCatalogID(k) in out
      invariant forall n :: n in out ==>
                  && n != "" && out[n] != ""
                  && exists k :: k in raw && n == NormalizeCatalogID(k) && out[n] == NormalizeCatalogID(raw[k])
      decreases |left|
    {
      var k :| k in left;
      left := left - {k};
      var nk, nv := NormalizeCatalogID(k), NormalizeCatalogID(raw[k]);
      if nk == "" || nv == "" {
        continue;
      }
      out := out[nk := nv];
    }
  }

  // Trimming again changes nothing: what Install does to a normalised map.
  lemma NormalIsTrimmed(s: string)
    ensures TrimSpace(NormalizeCatalogID(s)) == NormalizeCatalogID(s)
  {
    var t := TrimSpace(s);
    TrimSpaceTrims(s);
    if t != "" && '/' !in t {
      var n := "gemini/" + t;
      assert n[|n| - 1] == t[|t| - 1];
      TrimSpaceFixed(n);
    } else {
      TrimSpaceFixed(t);
    }
  }

  // The wire name of a map value.
  function WireOf(value: string): string {
    TrimSpace(TrimPrefix(TrimSpace(value), "gemini/"))
  }

  // m holds the trimmed entries of mm that are not blank; when two keys become one, either value may stay.
  ghost predicate InstalledMap(mm: map<string, string>, m: map<string, string>) {
    && (forall k :: k in m ==>
          && k != "" && m[k] != ""
          && exists o :: o in mm && k == TrimSpace(o) && m[k] == TrimSpace(mm[o]))
    && forall o :: o in mm && TrimSpace(o) != "" && TrimSpace(mm[o]) != "" ==> TrimSpace(o) in m
  }

  class GeminiConfig {
    var m: map<string, string>

    constructor ()
      ensures m == map[]
    {
      m := map[];
    }

    // Replaces the map by the trimmed entries that are not blank.
    method Install(mm: map<string, string>)
      modifies this
      ensures InstalledMap(mm, m)
    {
      hide TrimSpace;
      var c: map<string, string> := map[];
      var left := mm.Keys;
      while left != {}
        invariant left <= mm.Keys
        invariant forall k :: k in c ==>
                    && k != "" && c[k] != ""
                    && exists o :: o in mm && k == TrimSpace(o) && c[k] == TrimSpace(mm[o])
        invariant forall o :: o in mm && o !in left && TrimSpace(o) != "" && TrimSpace(mm[o]) != "" ==>
                  TrimSpace(o) in c
        decreases |left|
      {
        var o :| o in left;
        left := left - {o};
        var k, v := TrimSpace(o), TrimSpace(mm[o]);
        if k == "" || v == "" {
          continue;
        }
        c := c[k := v];
      }
      m := c;
    }

    // The wire names of the values, once each.
    method ExtraUpstreamWireModels() returns (out: seq<string>)
      ensures forall w :: w in out <==> w != "" && exists k :: k in m && w == WireOf(m[k])
      ensures forall i, j :: 0 <= i < j < |out| ==> out[i] != out[j]
    {
      hide TrimSpace;
      out := [];
      var left := m.Keys;
      while left != {}
        invariant left <= m.Keys
        invariant forall w :: w in out <==> w != "" && exists k :: k in m && k !in left && w == WireOf(m[k])
        invariant forall i, j :: 0 <= i < j < |out| ==> out[i] != out[j]
        decreases |left|
      {
        var k :| k in left;
        left := left - {k};
        var w := TrimSpace(m[k]);
        BlankWire(m[k]);
        if w == "" {
          continue;
        }
        w := TrimSpace(TrimPrefix(w, "gemini/"));
        if w == "" || w in out {
          continue;
        }
        out := out + [w];
      }
    }
  }

  lemma BlankWire(value: string)
    ensures TrimSpace(value) == "" ==> WireOf(value) == ""
  {
  }

  // The catalog id a 4K request is rewritten to; empty when it is not.
  function ResolveMappedCatalogID(m: map<string, string>, model: string, imageSize: string): string {
    var w := TrimSpace(model);
    if TrimSpace(imageSize) != "4K" || w == "" then ""
    else if ("gemini/" + w) in m && TrimSpace(m["gemini/" + w]) != "" then TrimSpace(m["gemini/" + w])
    else if w in m && TrimSpace(m[w]) != "" then TrimSpace(m[w])
    else ""
  }

  function GeminiModel(wire: string): ModelInfo {
    ModelInfo("gemini/" + wire, wire)
  }

  const BUILT_IN := [
    GeminiModel("gemini-2.5-flash-image"),
    GeminiModel("gemini-3.1-flash-image-preview"),
    GeminiModel("gemini-3-pro-image-preview")
  ]

  predicate NameOk(m: ModelInfo) {
    m == GeminiModel(m.upstreamModel) && m.upstreamModel != "" && Trimmed(m.upstreamModel)
  }

  // A list of Gemini models: each id is the prefixed wire name, and no two wire names agree.
  ghost predicate GeminiModels(models: seq<ModelInfo>) {
    && (forall m :: m in models ==> NameOk(m))
    && forall i, j :: 0 <= i < j < |models| ==> models[i].upstreamModel != models[j].upstreamModel
  }

  lemma BuiltInModels()
    ensures GeminiModels(BUILT_IN)
  {
    hide GeminiModel;
    assert forall m :: m in BUILT_IN ==> m == BUILT_IN[0] || m == BUILT_IN[1] || m == BUILT_IN[2];
    BuiltIn("gemini-2.5-flash-image");
    BuiltIn("gemini-3.1-flash-image-preview");
    BuiltIn("gemini-3-pro-image-preview");
  }

  lemma BuiltIn(wire: string)
    requires wire != "" && wire[0] == 'g' && 'a' <= wire[|wire| - 1] <= 'z'
    ensures GeminiModel(wire).upstreamModel == wire && NameOk(GeminiModel(wire))
  {
  }

  // The wire names of the first n extra names.
  function ExtraWires(extra: seq<string>, n: nat): set<string>
    requires n <= |extra|
  {
    if n == 0 then {} else ExtraWires(extra, n - 1) + if WireOf(extra[n - 1]) != "" then {WireOf(extra[n - 1])} else {}
  }

  // The models of the Gemini adapter: the built-in ones, then each new extra wire name.
  method NewGemini(extra: seq<string>) returns (models: seq<ModelInfo>)
    ensures GeminiModels(models)
    ensures WiresOf(models) == WiresOf(BUILT_IN) + ExtraWires(extra, |extra|)
  {
    hide TrimSpace, GeminiModels, WiresOf;
    models := BUILT_IN;
    BuiltInModels();
    var seen := WiresOf(models);
    for i := 0 to |extra|
      invariant GeminiModels(models) && seen == WiresOf(models)
      invariant seen == WiresOf(BUILT_IN) + ExtraWires(extra, i)
    {
      var wire := TrimSpace(extra[i]);
      BlankWire(extra[i]);
      if wire == "" {
        continue;
      }
      wire := TrimSpace(TrimPrefix(wire, "gemini/"));
      if wire == "" {
        continue;
      }
      if wire in seen {
        continue;
      }
      TrimSpaceTrims(TrimPrefix(TrimSpace(extra[i]), "gemini/"));
      OneMoreModel(models, wire);
      seen := seen + {wire};
      models := models + [ModelInfo("gemini/" + wire, wire)];
    }
  }

  lemma OneMoreModel(models: seq<ModelInfo>, wire: string)
    requires GeminiModels(models) && wire !in WiresOf(models) && wire != "" && Trimmed(wire)
    ensures GeminiModels(models + [GeminiModel(wire)])
    ensures WiresOf(models + [GeminiModel(wire)]) == WiresOf(models) + {wire}
  {
    hide Trimmed;
    var m := GeminiModel(wire);
    assert forall x :: x in models + [m] <==> x in models || x == m;
    forall i | 0 <= i < |models|
      ensures models[i].upstreamModel != wire
    {
      assert models[i] in models;
    }
  }

  /** Registered Gemini ids and wire names are each pairwise distinct, whatever the extra names are. */
  lemma GeminiNamesAreDistinct(models: seq<ModelInfo>, i: nat, j: nat)
    requires GeminiModels(models) && i < j < |models|
    ensures models[i].id != models[j].id && models[i].upstreamModel != models[j].upstreamModel
  {
    assert models[i] in models && models[j] in models;
    assert models[i].id[7..] == models[i].upstreamModel && models[j].id[7..] == models[j].upstreamModel;
  }
}

/**
 * The Bedrock model catalog (`ModelManager`): a fixed, insertion-ordered
 * mapping from model id to its description and prices, with the queries the
 * tool makes of it.  Prices are in dollars per thousand tokens and are exact
 * reals.  The queries take the catalog as a parameter; `Catalog` is the one
 * `_initialize_models` builds.
 */
module Models {
  import opened Wrappers
  import opened OrderedMap
  import opened Exceptions
  import Sorting

  datatype ModelInfo = ModelInfo(
    modelId: string,
    provider: string,
    name: string,
    description: string,
    maxTokens: int,
    inputCostPer1k: real,
    outputCostPer1k: real,
    contextWindow: int,
    supportsSystemPrompt: bool,
    recommendedForCode: bool)

  type Models = Dict<string, ModelInfo>

  const Anthropic := "anthropic"
  const Meta := "meta"
  const Cohere := "cohere"
  const Ai21 := "ai21"
  const Amazon := "amazon"

  const ClaudeSonnet35 := "anthropic.claude-3-5-sonnet-20241022-v2:0"
  const ClaudeHaiku3 := "anthropic.claude-3-haiku-20240307-v1:0"
  const ClaudeSonnet3 := "anthropic.claude-3-sonnet-20240229-v1:0"
  const Llama70b := "meta.llama3-70b-instruct-v1:0"
  const Llama8b := "meta.llama3-8b-instruct-v1:0"
  const CommandRPlus := "cohere.command-r-plus-v1:0"
  const CommandR := "cohere.command-r-v1:0"
  const Jamba := "ai21.jamba-instruct-v1:0"

  /** The catalog `_initialize_models` builds, in insertion order. */
  const Catalog: Models := [
    (ClaudeSonnet35, ModelInfo(ClaudeSonnet35, Anthropic, "Claude 3.5 Sonnet",
      "Most capable model for complex reasoning and code analysis", 8192, 0.003, 0.015, 200000, true, true)),
    (ClaudeHaiku3, ModelInfo(ClaudeHaiku3, Anthropic, "Claude 3 Haiku",
      "Fastest and most cost-effective model for simple tasks", 4096, 0.00025, 0.00125, 200000, true, true)),
    (ClaudeSonnet3, ModelInfo(ClaudeSonnet3, Anthropic, "Claude 3 Sonnet",
      "Balanced model for most use cases", 4096, 0.003, 0.015, 200000, true, true)),
    (Llama70b, ModelInfo(Llama70b, Meta, "Llama 3 70B Instruct",
      "Large language model good for complex reasoning", 2048, 0.00265, 0.0035, 8192, true, true)),
    (Llama8b, ModelInfo(Llama8b, Meta, "Llama 3 8B Instruct",
      "Smaller, faster model for basic tasks", 2048, 0.0003, 0.0006, 8192, true, true)),
    (CommandRPlus, ModelInfo(CommandRPlus, Cohere, "Command R+",
      "Advanced model for complex tasks and reasoning", 4000, 0.003, 0.015, 128000, true, true)),
    (CommandR, ModelInfo(CommandR, Cohere, "Command R",
      "Balanced model for general use cases", 4000, 0.0005, 0.0015, 128000, true, true)),
    (Jamba, ModelInfo(Jamba, Ai21, "Jamba Instruct",
      "Hybrid architecture model with long context", 4096, 0.0005, 0.0007, 256000, true, true))
  ]

  /** Each catalog entry is filed under its own model id, once. */
  predicate WellFiled(m: Models) {
    UniqueKeys(m) && forall i :: 0 <= i < |m| ==> m[i].0 == m[i].1.modelId
  }

  lemma CatalogWellFiled()
    ensures WellFiled(Catalog)
  {
  }

  // ---------------------------------------------------------------------
  // Lookups
  // ---------------------------------------------------------------------

  /** `is_model_supported` */
  predicate IsModelSupported(m: Models, modelId: string) {
    HasKey(m, modelId)
  }

  /** `get_model_info`: the registered record, or `ValueError` for an unknown id. */
  function GetModelInfo(m: Models, modelId: string): (r: Result<ModelInfo, Error>)
    ensures r.Ok? <==> IsModelSupported(m, modelId)
    ensures r.Ok? ==> (modelId, r.value) in m
    ensures r.Err? ==> r.error == BuiltinError("ValueError", "Unsupported model: " + modelId)
  {
    match Get(m, modelId)
    case Some(info) => Ok(info)
    case None => Err(BuiltinError("ValueError", "Unsupported model: " + modelId))
  }

  /** `list_models` */
  function ListModels(m: Models): (r: seq<string>)
    ensures forall x :: x in r <==> IsModelSupported(m, x)
  {
    Keys(m)
  }

  /** `list_models_by_provider`: the ids of the provider's models, in catalog order. */
  function ListModelsByProvider(m: Models, provider: string): (r: seq<string>)
    ensures forall x :: x in r <==> exists i :: 0 <= i < |m| && m[i].0 == x && m[i].1.provider == provider
    ensures |r| <= |m|
  {
    if m == [] then []
    else
      var n := |m| - 1;
      var init := m[..n];
      assert forall i :: 0 <= i < n ==> init[i] == m[i];
      ListModelsByProvider(init, provider) + (if m[n].1.provider == provider then [m[n].0] else [])
  }

  /** `get_recommended_models`: fixed lists per use case, the general list otherwise. */
  function RecommendedModels(useCase: string): seq<string> {
    if useCase == "code_review" then [ClaudeSonnet35, ClaudeSonnet3, Llama70b, CommandRPlus]
    else if useCase == "cost_optimized" then [ClaudeHaiku3, Llama8b, CommandR]
    else if useCase == "performance" then [ClaudeHaiku3, Llama8b]
    else if useCase == "long_context" then [Jamba, ClaudeSonnet35, CommandRPlus]
    else [ClaudeSonnet35, ClaudeSonnet3, Llama70b]
  }

  /** The catalog's ids, in insertion order. */
  lemma CatalogKeys()
    ensures Keys(Catalog) == [ClaudeSonnet35, ClaudeHaiku3, ClaudeSonnet3, Llama70b, Llama8b, CommandRPlus, CommandR, Jamba]
  {
  }

  /** Every recommendation, whatever the use case, is a model of the catalog. */
  lemma RecommendedAreSupported(useCase: string)
    ensures forall i :: 0 <= i < |RecommendedModels(useCase)| ==> IsModelSupported(Catalog, RecommendedModels(useCase)[i])
  {
    CatalogKeys();
  }

  // ---------------------------------------------------------------------
  // Cost
  // ---------------------------------------------------------------------

  /** `get_cost_estimate`: tokens over a thousand times the price, input plus output; 0 for an unknown id. */
  function CostEstimate(m: Models, modelId: string, inputTokens: int, outputTokens: int): (r: real)
    ensures !IsModelSupported(m, modelId) ==> r == 0.0
  {
    match Get(m, modelId)
    case None => 0.0
    case Some(info) =>
      (inputTokens as real / 1000.0) * info.inputCostPer1k + (outputTokens as real / 1000.0) * info.outputCostPer1k
  }

  /** For a fixed model the estimate is additive in the token counts. */
  lemma CostAdditive(m: Models, modelId: string, in1: int, out1: int, in2: int, out2: int)
    ensures CostEstimate(m, modelId, in1 + in2, out1 + out2)
            == CostEstimate(m, modelId, in1, out1) + CostEstimate(m, modelId, in2, out2)
  {
    if IsModelSupported(m, modelId) {
      var info := Get(m, modelId).value;
      calc {
        ((in1 + in2) as real / 1000.0) * info.inputCostPer1k;
        (in1 as real / 1000.0) * info.inputCostPer1k + (in2 as real / 1000.0) * info.inputCostPer1k;
      }
      calc {
        ((out1 + out2) as real / 1000.0) * info.outputCostPer1k;
        (out1 as real / 1000.0) * info.outputCostPer1k + (out2 as real / 1000.0) * info.outputCostPer1k;
      }
    }
  }

  /** A model's estimate grows with the number of tokens when its prices are not negative. */
  lemma CostMonotone(m: Models, modelId: string, in1: int, out1: int, in2: int, out2: int)
    requires in1 <= in2 && out1 <= out2
    requires forall i :: 0 <= i < |m| ==> m[i].1.inputCostPer1k >= 0.0 && m[i].1.outputCostPer1k >= 0.0
    ensures CostEstimate(m, modelId, in1, out1) <= CostEstimate(m, modelId, in2, out2)
  {
    CostAdditive(m, modelId, in1, out1, in2 - in1, out2 - out1);
    if IsModelSupported(m, modelId) {
      var info := Get(m, modelId).value;
      assert ((in2 - in1) as real / 1000.0) * info.inputCostPer1k >= 0.0;
      assert ((out2 - out1) as real / 1000.0) * info.outputCostPer1k >= 0.0;
    }
  }

  // ---------------------------------------------------------------------
  // Comparison
  // ---------------------------------------------------------------------

  /** One row of `compare_models`. */
  datatype Comparison = Comparison(
    name: string,
    provider: string,
    maxTokens: int,
    contextWindow: int,
    inputCostPer1k: real,
    outputCostPer1k: real,
    recommendedForCode: bool,
    costPerReviewEstimate: real)

  /** The token counts of a typical review. */
  const ReviewInputTokens := 2000
  const ReviewOutputTokens := 500

  function CompareRow(m: Models, modelId: string, info: ModelInfo): Comparison {
    Comparison(info.name, info.provider, info.maxTokens, info.contextWindow, info.inputCostPer1k,
               info.outputCostPer1k, info.recommendedForCode, CostEstimate(m, modelId, ReviewInputTokens, ReviewOutputTokens))
  }

  /** `compare_models`: a row per supported id, in the order given; unknown ids are skipped. */
  function Comparisons(m: Models, ids: seq<string>): Dict<string, Comparison> {
    if ids == [] then []
    else
      var n := |ids| - 1;
      var acc := Comparisons(m, ids[..n]);
      match Get(m, ids[n])
      case None => acc
      case Some(info) => Put(acc, ids[n], CompareRow(m, ids[n], info))
  }

  /** An id has a row exactly when it was asked for and is supported; the row describes its record. */
  lemma {:induction false} ComparisonsGet(m: Models, ids: seq<string>, x: string)
    ensures Get(Comparisons(m, ids), x).Some? <==> x in ids && IsModelSupported(m, x)
    ensures Get(Comparisons(m, ids), x).Some? ==>
              var info := Get(m, x).value;
              var row := Get(Comparisons(m, ids), x).value;
              row.name == info.name && row.provider == info.provider && row.maxTokens == info.maxTokens
              && row.contextWindow == info.contextWindow && row.outputCostPer1k == info.outputCostPer1k
              && row.inputCostPer1k == info.inputCostPer1k && row.recommendedForCode == info.recommendedForCode
              && row.costPerReviewEstimate == CostEstimate(m, x, 2000, 500)
  {
    if ids != [] {
      var n := |ids| - 1;
      ComparisonsGet(m, ids[..n], x);
      assert ids == ids[..n] + [ids[n]];
      var acc := Comparisons(m, ids[..n]);
      match Get(m, ids[n])
      case None =>
      case Some(info) => PutGet(acc, ids[n], CompareRow(m, ids[n], info), x);
    }
  }

  /** The loop of `compare_models`. */
  method CompareModels(m: Models, ids: seq<string>) returns (comparison: Dict<string, Comparison>)
    ensures comparison == Comparisons(m, ids)
  {
    comparison := [];
    var i := 0;
    while i < |ids|
      invariant 0 <= i <= |ids|
      invariant comparison == Comparisons(m, ids[..i])
    {
      assert ids[..i + 1][..i] == ids[..i];
      var modelId := ids[i];
      if IsModelSupported(m, modelId) {
        var info := GetModelInfo(m, modelId).value;
        comparison := Put(comparison, modelId, CompareRow(m, modelId, info));
      }
      i := i + 1;
    }
    assert ids[..i] == ids;
  }

  // ---------------------------------------------------------------------
  // Search by criteria
  // ---------------------------------------------------------------------

  /** The filters of `get_model_by_criteria`; a bound of `None` or 0 and an empty provider mean no filter. */
  datatype Criteria = Criteria(maxCostPer1k: Option<real>, minContextWindow: Option<int>, provider: Option<string>, codeOptimized: bool)

  predicate Satisfies(info: ModelInfo, c: Criteria) {
    && (c.codeOptimized ==> info.recommendedForCode)
    && (c.provider.Some? && c.provider.value != "" ==> info.provider == c.provider.value)
    && (c.maxCostPer1k.Some? && c.maxCostPer1k.value != 0.0 ==> info.outputCostPer1k <= c.maxCostPer1k.value)
    && (c.minContextWindow.Some? && c.minContextWindow.value != 0 ==> info.contextWindow >= c.minContextWindow.value)
  }

  /** The ids of the models meeting the criteria, in catalog order. */
  function Matching(m: Models, c: Criteria): (r: seq<string>)
    ensures forall x :: x in r <==> exists i :: 0 <= i < |m| && m[i].0 == x && Satisfies(m[i].1, c)
  {
    if m == [] then []
    else
      var n := |m| - 1;
      var init := m[..n];
      assert forall i :: 0 <= i < n ==> init[i] == m[i];
      Matching(init, c) + (if Satisfies(m[n].1, c) then [m[n].0] else [])
  }

  /** The sort key: a model's output price. */
  function OutputCost(m: Models): string -> real {
    modelId => match Get(m, modelId) case Some(info) => info.outputCostPer1k case None => 0.0
  }

  /** `get_model_by_criteria`: the matching ids, cheapest output price first, ties in catalog order. */
  function ModelsByCriteria(m: Models, c: Criteria): seq<string> {
    Sorting.SortBy(Matching(m, c), OutputCost(m))
  }

  /** Exactly the models meeting the criteria are returned, each once, by ascending output price. */
  lemma ModelsByCriteriaSpec(m: Models, c: Criteria)
    requires UniqueKeys(m)
    ensures var r := ModelsByCriteria(m, c);
            && (forall x :: x in r <==> IsModelSupported(m, x) && Satisfies(Get(m, x).value, c))
            && multiset(r) == multiset(Matching(m, c))
            && (forall i, j :: 0 <= i < j < |r| ==> OutputCost(m)(r[i]) <= OutputCost(m)(r[j]))
  {
    var r := ModelsByCriteria(m, c);
    Sorting.SortPermutes(Matching(m, c), OutputCost(m));
    Sorting.SortSorted(Matching(m, c), OutputCost(m));
    forall x ensures x in r <==> IsModelSupported(m, x) && Satisfies(Get(m, x).value, c) {
      assert x in r <==> x in multiset(r);
      assert x in Matching(m, c) <==> x in multiset(Matching(m, c));
      if x in Matching(m, c) {
        var i :| 0 <= i < |m| && m[i].0 == x && Satisfies(m[i].1, c);
        GetMember(m, i);
      }
      if IsModelSupported(m, x) {
        var i :| 0 <= i < |m| && m[i] == (x, Get(m, x).value);
      }
    }
  }

  /** Models of equal output price keep their catalog order. */
  lemma ModelsByCriteriaStable(m: Models, c: Criteria, price: real)
    ensures Sorting.WithKey(ModelsByCriteria(m, c), OutputCost(m), price) == Sorting.WithKey(Matching(m, c), OutputCost(m), price)
  {
    Sorting.SortStable(Matching(m, c), OutputCost(m), price);
  }

  /** The loop of `get_model_by_criteria`, then the sort. */
  method GetModelByCriteria(m: Models, c: Criteria) returns (matchingModels: seq<string>)
    ensures matchingModels == ModelsByCriteria(m, c)
  {
    matchingModels := [];
    var i := 0;
    while i < |m|
      invariant 0 <= i <= |m|
      invariant matchingModels == Matching(m[..i], c)
    {
      assert m[..i + 1][..i] == m[..i];
      var modelId := m[i].0;
      var info := m[i].1;
      if c.codeOptimized && !info.recommendedForCode {
      } else if c.provider.Some? && c.provider.value != "" && info.provider != c.provider.value {
      } else if c.maxCostPer1k.Some? && c.maxCostPer1k.value != 0.0 && info.outputCostPer1k > c.maxCostPer1k.value {
      } else if c.minContextWindow.Some? && c.minContextWindow.value != 0 && info.contextWindow < c.minContextWindow.value {
      } else {
        matchingModels := matchingModels + [modelId];
      }
      i := i + 1;
    }
    assert m[..i] == m;
    matchingModels := Sorting.SortBy(matchingModels, OutputCost(m));
  }

  // ---------------------------------------------------------------------
  // Provider summary
  // ---------------------------------------------------------------------

  /** `float('inf')` or a price. */
  datatype Bound = Infinity | Finite(value: real)

  /** `min(bound, price)` */
  function MinBound(b: Bound, price: real): Bound {
    match b
    case Infinity => Finite(price)
    case Finite(v) => Finite(if v <= price then v else price)
  }

  /** The per-provider entry of `get_provider_info`. */
  datatype ProviderSummary = ProviderSummary(models: seq<string>, minCost: Bound, maxContext: int, supportsCode: bool)

  const NewProvider := ProviderSummary([], Infinity, 0, false)

  /** The entry after one more model of the provider. */
  function Absorb(s: ProviderSummary, info: ModelInfo): ProviderSummary {
    ProviderSummary(
      s.models + [info.modelId],
      MinBound(s.minCost, info.outputCostPer1k),
      if s.maxContext >= info.contextWindow then s.maxContext else info.contextWindow,
      s.supportsCode || info.recommendedForCode)
  }

  /** `get_provider_info`: providers in order of first appearance, each entry updated per model. */
  function ProviderInfos(m: Models): Dict<string, ProviderSummary> {
    if m == [] then []
    else
      var n := |m| - 1;
      var acc := ProviderInfos(m[..n]);
      var info := m[n].1;
      Put(acc, info.provider, Absorb(GetOr(acc, info.provider, NewProvider), info))
  }

  /** One provider's entry computed from its own models only. */
  function Summary(m: Models, provider: string): ProviderSummary {
    if m == [] then NewProvider
    else
      var n := |m| - 1;
      var s := Summary(m[..n], provider);
      if m[n].1.provider == provider then Absorb(s, m[n].1) else s
  }

  /** Some model of the catalog belongs to the provider. */
  predicate HasProvider(m: Models, provider: string) {
    exists i :: 0 <= i < |m| && m[i].1.provider == provider
  }

  /** The mixed per-model updates leave each provider with the summary of its own models. */
  lemma {:induction false} ProviderInfosGet(m: Models, provider: string)
    ensures Get(ProviderInfos(m), provider) == if HasProvider(m, provider) then Some(Summary(m, provider)) else None
  {
    if m != [] {
      var n := |m| - 1;
      var init := m[..n];
      ProviderInfosGet(init, provider);
      HasProviderSnoc(m, provider);
      var acc := ProviderInfos(init);
      var info := m[n].1;
      var entry := Absorb(GetOr(acc, info.provider, NewProvider), info);
      assert ProviderInfos(m) == Put(acc, info.provider, entry);
      PutGet(acc, info.provider, entry, provider);
      if info.provider == provider {
        if !HasProvider(init, provider) {
          NoModelsSummary(init, provider);
        }
        assert GetOr(acc, provider, NewProvider) == Summary(init, provider);
        assert Summary(m, provider) == Absorb(Summary(init, provider), info);
      } else {
        assert Summary(m, provider) == Summary(init, provider);
      }
    }
  }

  lemma HasProviderSnoc(m: Models, provider: string)
    requires m != []
    ensures HasProvider(m, provider) <==> HasProvider(m[..|m| - 1], provider) || m[|m| - 1].1.provider == provider
  {
    assert forall i :: 0 <= i < |m| - 1 ==> m[..|m| - 1][i] == m[i];
  }

  lemma {:induction false} NoModelsSummary(m: Models, provider: string)
    requires !HasProvider(m, provider)
    ensures Summary(m, provider) == NewProvider
  {
    if m != [] {
      var n := |m| - 1;
      assert forall i :: 0 <= i < n ==> m[..n][i] == m[i];
      NoModelsSummary(m[..n], provider);
    }
  }

  /** A provider's entry lists the ids of exactly its models, in catalog order. */
  lemma {:induction false} SummaryModels(m: Models, provider: string)
    requires forall i :: 0 <= i < |m| ==> m[i].0 == m[i].1.modelId
    ensures Summary(m, provider).models == ListModelsByProvider(m, provider)
  {
    if m != [] {
      var n := |m| - 1;
      assert forall i :: 0 <= i < n ==> m[..n][i] == m[i];
      SummaryModels(m[..n], provider);
    }
  }

  /** `min_cost` is the lowest output price among the provider's models. */
  lemma {:induction false} SummaryMinCost(m: Models, provider: string)
    ensures Summary(m, provider).minCost.Finite? <==> HasProvider(m, provider)
    ensures forall i :: 0 <= i < |m| && m[i].1.provider == provider ==>
              Summary(m, provider).minCost.value <= m[i].1.outputCostPer1k
    ensures Summary(m, provider).minCost.Finite? ==>
              exists i :: 0 <= i < |m| && m[i].1.provider == provider && m[i].1.outputCostPer1k == Summary(m, provider).minCost.value
  {
    if m != [] {
      var n := |m| - 1;
      var init := m[..n];
      assert forall i :: 0 <= i < n ==> init[i] == m[i];
      SummaryMinCost(init, provider);
    }
  }

  /** `max_context` is the largest context window among the provider's models (and never below 0). */
  lemma {:induction false} SummaryMaxContext(m: Models, provider: string)
    ensures forall i :: 0 <= i < |m| && m[i].1.provider == provider ==>
              m[i].1.contextWindow <= Summary(m, provider).maxContext
    ensures Summary(m, provider).maxContext == 0
            || exists i :: 0 <= i < |m| && m[i].1.provider == provider && m[i].1.contextWindow == Summary(m, provider).maxContext
    ensures Summary(m, provider).maxContext >= 0
  {
    if m != [] {
      var n := |m| - 1;
      var init := m[..n];
      assert forall i :: 0 <= i < n ==> init[i] == m[i];
      SummaryMaxContext(init, provider);
    }
  }

  /** `supports_code` holds exactly when one of the provider's models is recommended for code. */
  lemma {:induction false} SummarySupportsCode(m: Models, provider: string)
    ensures Summary(m, provider).supportsCode <==>
              exists i :: 0 <= i < |m| && m[i].1.provider == provider && m[i].1.recommendedForCode
  {
    if m != [] {
      var n := |m| - 1;
      var init := m[..n];
      assert forall i :: 0 <= i < n ==> init[i] == m[i];
      SummarySupportsCode(init, provider);
    }
  }

  /** The loop of `get_provider_info`, updating one field of the provider's entry at a time. */
  method GetProviderInfo(m: Models) returns (providers: Dict<string, ProviderSummary>)
    ensures providers == ProviderInfos(m)
  {
    providers := [];
    var i := 0;
    while i < |m|
      invariant 0 <= i <= |m|
      invariant providers == ProviderInfos(m[..i])
    {
      assert m[..i + 1][..i] == m[..i];
      var info := m[i].1;
      var provider := info.provider;
      ghost var before := providers;
      if !HasKey(providers, provider) {
        providers := Put(providers, provider, NewProvider);
      }
      PutGet(before, provider, NewProvider, provider);
      var entry := Get(providers, provider).value;
      assert entry == GetOr(before, provider, NewProvider);
      entry := entry.(models := entry.models + [info.modelId]);
      entry := entry.(minCost := MinBound(entry.minCost, info.outputCostPer1k));
      entry := entry.(maxContext := if entry.maxContext >= info.contextWindow then entry.maxContext else info.contextWindow);
      if info.recommendedForCode {
        entry := entry.(supportsCode := true);
      }
      PutTwice(before, provider, NewProvider, entry);
      providers := Put(providers, provider, entry);
      i := i + 1;
    }
    assert m[..i] == m;
  }
}

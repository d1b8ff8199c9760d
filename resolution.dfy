/**
 * Model selection shared by the one-shot search route (src/routes/search.ts)
 * and the WebSocket setup (src/websocket/connectionManager.ts): the requested
 * provider or else the catalog's first provider key, then the requested model
 * or else that provider's first model key, then the catalog lookup
 * `catalog[provider] && catalog[provider][model]`.
 */
module Resolution {
  import opened Wrappers
  import opened Assoc
  import opened Providers

  /** The provider/model pair a route settles on; either may be `undefined`. */
  datatype Selection = Selection(provider: Option<string>, model: Option<string>)

  /** `catalog[provider]`, where an `undefined` provider names no provider. */
  function ProviderModels(catalog: Catalog, provider: Option<string>): (r: Option<ModelMap>)
    ensures r.Some? <==> provider.Some? && provider.value in Keys(catalog)
  {
    if provider.None? then None else Get(catalog, provider.value)
  }

  /**
   * `provider = requested || Object.keys(catalog)[0]` and
   * `model = requestedModel || Object.keys(catalog[provider])[0]`. `None`
   * is the `TypeError` that `Object.keys(undefined)` throws when the model
   * must be defaulted under a provider the catalog does not have.
   */
  function Select(requestedProvider: Option<string>, requestedModel: Option<string>, catalog: Catalog): (r: Option<Selection>)
    ensures r.None? <==> !Truthy(requestedModel) && ProviderModels(catalog, Or(requestedProvider, FirstKey(catalog))).None?
    ensures r.Some? ==> r.value.provider == Or(requestedProvider, FirstKey(catalog))
    ensures r.Some? && Truthy(requestedModel) ==> r.value.model == requestedModel
    ensures r.Some? && !Truthy(requestedModel) ==>
      && ProviderModels(catalog, r.value.provider).Some?
      && r.value.model == FirstKey(ProviderModels(catalog, r.value.provider).value)
  {
    var provider := Or(requestedProvider, FirstKey(catalog));
    if Truthy(requestedModel) then Some(Selection(provider, requestedModel))
    else match ProviderModels(catalog, provider)
      case None => None
      case Some(models) => Some(Selection(provider, FirstKey(models)))
  }

  /** `catalog[provider] && catalog[provider][model]`: the entry, if both keys are present. */
  function Entry(catalog: Catalog, selection: Selection): (r: Option<Descriptor>)
    ensures r.Some? ==> selection.provider.Some? && selection.model.Some?
  {
    match ProviderModels(catalog, selection.provider)
    case None => None
    case Some(models) => if selection.model.None? then None else Get(models, selection.model.value)
  }

  /** A non-empty requested value is kept as it is. */
  lemma RequestedKept(requestedProvider: Option<string>, requestedModel: Option<string>, catalog: Catalog)
    requires Truthy(requestedProvider) && Truthy(requestedModel)
    ensures Select(requestedProvider, requestedModel, catalog) == Some(Selection(requestedProvider, requestedModel))
  {
  }

  /**
   * An omitted (or empty) provider is the catalog's first provider key and an
   * omitted model is the first model key under it.
   */
  lemma DefaultSelection(requestedProvider: Option<string>, requestedModel: Option<string>, catalog: Catalog)
    requires !Truthy(requestedProvider) && !Truthy(requestedModel) && |catalog| > 0
    ensures Select(requestedProvider, requestedModel, catalog) == Some(Selection(Some(catalog[0].0), FirstKey(catalog[0].1)))
  {
    assert catalog[0].0 in Keys(catalog);
    assert Get(catalog, catalog[0].0) == Some(catalog[0].1);
  }

  /** The model is defaulted under the requested provider, not under the first one. */
  lemma DefaultModelUnderRequestedProvider(provider: string, requestedModel: Option<string>, catalog: Catalog, models: ModelMap)
    requires provider != "" && !Truthy(requestedModel) && Get(catalog, provider) == Some(models)
    ensures Select(Some(provider), requestedModel, catalog) == Some(Selection(Some(provider), FirstKey(models)))
  {
  }

  /**
   * Selection throws exactly when the model must be defaulted and the chosen
   * provider is not in the catalog.
   */
  lemma SelectThrows(requestedProvider: Option<string>, requestedModel: Option<string>, catalog: Catalog)
    ensures Select(requestedProvider, requestedModel, catalog).None? <==>
      !Truthy(requestedModel) && ProviderModels(catalog, Or(requestedProvider, FirstKey(catalog))).None?
  {
  }

  /** Any catalog the chat listing returns defaults to the `openai` provider. */
  lemma DefaultChatProviderIsOpenAI(requestedProvider: Option<string>, catalog: Catalog)
    requires !Truthy(requestedProvider) && Keys(catalog) == ChatProviderKeys
    ensures Or(requestedProvider, FirstKey(catalog)) == Some("openai")
  {
  }

  /** Any catalog the embedding listing returns also defaults to `openai`. */
  lemma DefaultEmbeddingProviderIsOpenAI(requestedProvider: Option<string>, catalog: Catalog)
    requires !Truthy(requestedProvider) && Keys(catalog) == EmbeddingProviderKeys
    ensures Or(requestedProvider, FirstKey(catalog)) == Some("openai")
  {
  }

  /**
   * In a well-formed catalog the lookup returns exactly the stored entry at
   * `[provider][model]`.
   */
  lemma EntryExact(catalog: Catalog, p: nat, m: nat)
    requires UniqueKeys(catalog) && p < |catalog| && UniqueKeys(catalog[p].1) && m < |catalog[p].1|
    ensures Entry(catalog, Selection(Some(catalog[p].0), Some(catalog[p].1[m].0))) == Some(catalog[p].1[m].1)
  {
    GetAtUniqueKey(catalog, p);
    GetAtUniqueKey(catalog[p].1, m);
  }

  /** The lookup fails exactly when the provider or the model key is absent. */
  lemma EntryAbsent(catalog: Catalog, selection: Selection)
    ensures Entry(catalog, selection).None? <==>
      || selection.provider.None? || selection.model.None?
      || selection.provider.value !in Keys(catalog)
      || selection.model.value !in Keys(Get(catalog, selection.provider.value).value)
  {
  }
}

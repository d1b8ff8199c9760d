/**
 * The configuration route (src/routes/config.ts): GET projects both catalogs
 * onto `{name, displayName}` lists and adds the four stored settings; POST
 * maps a settings body onto the nested shape the config file uses.
 */
module ConfigRoute {
  import opened Wrappers
  import opened Assoc
  import opened Http
  import opened Providers

  /** `{name, displayName}` of one model. */
  datatype ModelInfo = ModelInfo(name: string, displayName: string)

  /** A provider-to-models record of the `Config` shape. */
  type Projection = Assoc<seq<ModelInfo>>

  /** The `Config` interface of src/types.ts. */
  datatype Config = Config(
    chatModelProviders: Projection,
    embeddingModelProviders: Projection,
    openaiApiKey: string,
    ollamaApiUrl: string,
    anthropicApiKey: string,
    groqApiKey: string)

  /** What the four config getters return. */
  datatype StoredSettings = StoredSettings(openaiApiKey: string, ollamaApiUrl: string, anthropicApiKey: string, groqApiKey: string)

  datatype ConfigBody = ConfigReply(config: Config) | Message(message: string)

  /** `Object.keys(models).map((model) => ({name: model, displayName: models[model].displayName}))`. */
  function Describe(models: ModelMap): (r: seq<ModelInfo>)
    ensures |r| == |models|
    ensures forall i :: 0 <= i < |models| ==> r[i].name == models[i].0
  {
    seq(|models|, i requires 0 <= i < |models| => ModelInfo(models[i].0, Get(models, models[i].0).value.displayName))
  }

  /** In a JavaScript object every name reads back its own entry's display name. */
  lemma DescribeExact(models: ModelMap, i: nat)
    requires UniqueKeys(models) && i < |models|
    ensures Describe(models)[i] == ModelInfo(models[i].0, models[i].1.displayName)
  {
    GetAtUniqueKey(models, i);
  }

  /** The record the `for ... in` loop builds: one entry per provider, in catalog order. */
  function Projected(catalog: Catalog): (r: Projection)
    ensures Keys(r) == Keys(catalog)
  {
    seq(|catalog|, i requires 0 <= i < |catalog| => (catalog[i].0, Describe(catalog[i].1)))
  }

  /**
   * The loop `for (const provider in catalog) config[...][provider] = ...`
   * over a fresh `{}`. Since a JavaScript object has distinct keys, each write
   * appends a new property.
   */
  method ProjectCatalog(catalog: Catalog) returns (r: Projection)
    requires UniqueKeys(catalog)
    ensures r == Projected(catalog)
  {
    r := [];
    for i := 0 to |catalog|
      invariant r == Projected(catalog[..i])
    {
      var provider := catalog[i].0;
      assert provider !in Keys(r) by {
        assert forall j :: 0 <= j < i ==> r[j].0 == catalog[j].0 != provider;
      }
      r := Put(r, provider, Describe(catalog[i].1));
      assert catalog[..i + 1][..i] == catalog[..i];
    }
    assert catalog[..|catalog|] == catalog;
  }

  /**
   * The projection has one key per provider in catalog order, each list is as
   * long as that provider's model map (`[]` for no models), lists the model
   * keys in order, and carries each model's display name.
   */
  lemma ProjectionShape(catalog: Catalog, p: nat)
    requires UniqueKeys(catalog) && p < |catalog| && UniqueKeys(catalog[p].1)
    ensures Keys(Projected(catalog)) == Keys(catalog)
    ensures Get(Projected(catalog), catalog[p].0) == Some(Describe(catalog[p].1))
    ensures |Describe(catalog[p].1)| == |catalog[p].1|
    ensures forall m :: 0 <= m < |catalog[p].1| ==>
      Describe(catalog[p].1)[m] == ModelInfo(catalog[p].1[m].0, catalog[p].1[m].1.displayName)
  {
    var r := Projected(catalog);
    assert UniqueKeys(r) by {
      assert forall i :: 0 <= i < |r| ==> r[i].0 == catalog[i].0;
    }
    GetAtUniqueKey(r, p);
    forall m | 0 <= m < |catalog[p].1|
      ensures Describe(catalog[p].1)[m] == ModelInfo(catalog[p].1[m].0, catalog[p].1[m].1.displayName)
    {
      DescribeExact(catalog[p].1, m);
    }
  }

  /** A catalog with the keys of a fixed list of distinct names is a well-formed object. */
  lemma DistinctKeysUnique(catalog: Catalog, keys: seq<string>)
    requires Keys(catalog) == keys && Distinct(keys)
    ensures UniqueKeys(catalog)
  {
    forall i, j | 0 <= i < j < |catalog| ensures catalog[i].0 != catalog[j].0 {
      assert keys[i] == catalog[i].0 && keys[j] == catalog[j].0;
    }
  }

  /** The GET reply: both projections and the four settings, or the catch-all 500. */
  function ConfigReplyFor(chatResults: seq<LoaderResult>, embeddingResults: seq<LoaderResult>, settings: StoredSettings): Reply<ConfigBody>
    requires |chatResults| == |ChatLoaders| && |embeddingResults| == |EmbeddingLoaders|
  {
    match (ChatCatalog(chatResults), EmbeddingCatalog(embeddingResults))
    case (Some(chat), Some(embedding)) =>
      Reply(200, ConfigReply(Config(Projected(chat), Projected(embedding),
        settings.openaiApiKey, settings.ollamaApiUrl, settings.anthropicApiKey, settings.groqApiKey)))
    case _ => Reply(500, Message(InternalError))
  }

  /** `GET /config`. */
  method GetConfig(chatResults: seq<LoaderResult>, embeddingResults: seq<LoaderResult>, settings: StoredSettings)
    returns (reply: Reply<ConfigBody>)
    requires |chatResults| == |ChatLoaders| && |embeddingResults| == |EmbeddingLoaders|
    ensures reply == ConfigReplyFor(chatResults, embeddingResults, settings)
  {
    var chat := GetAvailableChatModelProviders(chatResults);
    var embedding := GetAvailableEmbeddingModelProviders(embeddingResults);
    if chat.None? || embedding.None? {
      return Reply(500, Message(InternalError));
    }
    ChatCatalogShape(chatResults);
    EmbeddingCatalogShape(embeddingResults);
    RegistriesSeeded();
    DistinctKeysUnique(chat.value, ChatProviderKeys);
    DistinctKeysUnique(embedding.value, EmbeddingProviderKeys);
    var chatModelProviders := ProjectCatalog(chat.value);
    var embeddingModelProviders := ProjectCatalog(embedding.value);
    var config := Config(chatModelProviders, embeddingModelProviders,
      settings.openaiApiKey, settings.ollamaApiUrl, settings.anthropicApiKey, settings.groqApiKey);
    return Reply(200, ConfigReply(config));
  }

  /**
   * On success the projection lists the five chat providers and the three
   * embedding providers in their seeded order, and the settings are copied
   * verbatim; a rejected loader gives 500.
   */
  lemma ConfigReplyShape(chatResults: seq<LoaderResult>, embeddingResults: seq<LoaderResult>, settings: StoredSettings)
    requires |chatResults| == |ChatLoaders| && |embeddingResults| == |EmbeddingLoaders|
    ensures var reply := ConfigReplyFor(chatResults, embeddingResults, settings);
      && (reply.status == 200 <==> ChatCatalog(chatResults).Some? && EmbeddingCatalog(embeddingResults).Some?)
      && (reply.status != 200 ==> reply == Reply(500, Message(InternalError)))
      && (reply.status == 200 ==>
            && reply.body.ConfigReply?
            && Keys(reply.body.config.chatModelProviders) == ChatProviderKeys
            && Keys(reply.body.config.embeddingModelProviders) == EmbeddingProviderKeys
            && Get(reply.body.config.chatModelProviders, CustomOpenAI) == Some([])
            && reply.body.config.openaiApiKey == settings.openaiApiKey
            && reply.body.config.ollamaApiUrl == settings.ollamaApiUrl
            && reply.body.config.anthropicApiKey == settings.anthropicApiKey
            && reply.body.config.groqApiKey == settings.groqApiKey)
  {
    ChatCatalogShape(chatResults);
    EmbeddingCatalogShape(embeddingResults);
    if ChatCatalog(chatResults).Some? && EmbeddingCatalog(embeddingResults).Some? {
      var chat := ChatCatalog(chatResults).value;
      RegistriesSeeded();
      DistinctKeysUnique(chat, ChatProviderKeys);
      assert chat[4].0 == CustomOpenAI;
      GetAtUniqueKey(chat, 4);
      ProjectionShape(chat, 4);
    }
  }

  // ---------------------------------------------------------------------- POST

  /** The settings body the client sends; every field may be missing. */
  datatype SettingsBody = SettingsBody(
    openaiApiKey: Option<string>,
    groqApiKey: Option<string>,
    anthropicApiKey: Option<string>,
    ollamaApiUrl: Option<string>)

  datatype ApiKeys = ApiKeys(openai: Option<string>, groq: Option<string>, anthropic: Option<string>)
  datatype ApiEndpoints = ApiEndpoints(ollama: Option<string>)

  /** `updatedConfig`: the nested shape handed to `updateConfig`. */
  datatype UpdatedConfig = UpdatedConfig(apiKeys: ApiKeys, apiEndpoints: ApiEndpoints)

  function ToUpdatedConfig(body: SettingsBody): UpdatedConfig {
    UpdatedConfig(
      ApiKeys(body.openaiApiKey, body.groqApiKey, body.anthropicApiKey),
      ApiEndpoints(body.ollamaApiUrl))
  }

  /** Reading the settings back out of the nested shape. */
  function ToSettingsBody(update: UpdatedConfig): SettingsBody {
    SettingsBody(update.apiKeys.openai, update.apiKeys.groq, update.apiKeys.anthropic, update.apiEndpoints.ollama)
  }

  /** The mapping loses nothing and invents nothing: it is a bijection onto the nested shape. */
  lemma UpdatedConfigRoundTrip(body: SettingsBody, update: UpdatedConfig)
    ensures ToSettingsBody(ToUpdatedConfig(body)) == body
    ensures ToUpdatedConfig(ToSettingsBody(update)) == update
  {
  }

  /** `POST /config`: the update passed to `updateConfig`, and the reply, which is always 200. */
  method PostConfig(body: SettingsBody) returns (update: UpdatedConfig, reply: Reply<ConfigBody>)
    ensures update.apiKeys == ApiKeys(body.openaiApiKey, body.groqApiKey, body.anthropicApiKey)
    ensures update.apiEndpoints == ApiEndpoints(body.ollamaApiUrl)
    ensures reply == Reply(200, Message("Config updated"))
  {
    update := ToUpdatedConfig(body);
    reply := Reply(200, Message("Config updated"));
  }
}

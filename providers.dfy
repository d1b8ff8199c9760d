/**
 * Model catalogs and their assembly (src/lib/providers/index.ts).
 *
 * A catalog maps a provider key to that provider's models, and each model key
 * to a descriptor with a display name and a ready-to-invoke handle. The
 * provider loaders are foreign calls: each appears here only as the value its
 * promise settled with.
 */
module Providers {
  import opened Wrappers
  import opened Assoc

  /**
   * An opaque LangChain model handle: one a loader produced, or one built on
   * the spot for an OpenAI-compatible endpoint.
   */
  datatype Handle =
    | Provided(id: string)
    | Custom(modelName: Option<string>, apiKey: Option<string>, baseURL: Option<string>, temperature: real)

  /** A catalog entry; `model` is absent once the models route has deleted it. */
  datatype Descriptor = Descriptor(displayName: string, model: Option<Handle>)

  type ModelMap = Assoc<Descriptor>
  type Catalog = Assoc<ModelMap>

  /** How one loader's promise settled. */
  datatype LoaderResult = Resolved(models: ModelMap) | Rejected

  const CustomOpenAI := "custom_openai"

  /** The chat loader registry, in its declaration (and calling) order. */
  const ChatLoaders: seq<string> := ["openai", "groq", "ollama", "anthropic"]
  /** The keys of the pre-seeded chat record, in their literal order. */
  const ChatProviderKeys: seq<string> := ["openai", "groq", "ollama", "anthropic", CustomOpenAI]

  /** The embedding loader registry: `local` is called before `ollama`. */
  const EmbeddingLoaders: seq<string> := ["openai", "local", "ollama"]
  /** The keys of the pre-seeded embedding record, which is not the calling order. */
  const EmbeddingProviderKeys: seq<string> := ["openai", "ollama", "local"]

  /** No key is listed twice. */
  predicate Distinct(keys: seq<string>) {
    forall a, b :: 0 <= a < |keys| && 0 <= b < |keys| && a != b ==> keys[a] != keys[b]
  }

  /** A record with the given keys, each holding `{}`. */
  function Seed(keys: seq<string>): (m: Catalog)
    ensures Keys(m) == keys
    ensures forall p :: 0 <= p < |m| ==> m[p].1 == []
    ensures Distinct(keys) ==> UniqueKeys(m)
  {
    seq(|keys|, p requires 0 <= p < |keys| => (keys[p], []))
  }

  /** Every registered loader has a seeded key, and no loader is registered twice. */
  predicate Registry(seed: Catalog, loaders: seq<string>) {
    && UniqueKeys(seed)
    && Distinct(loaders)
    && forall j :: 0 <= j < |loaders| ==> loaders[j] in Keys(seed)
  }

  lemma RegistriesSeeded()
    ensures Registry(Seed(ChatProviderKeys), ChatLoaders)
    ensures Registry(Seed(EmbeddingProviderKeys), EmbeddingLoaders)
  {
    assert "openai"[1] != "ollama"[1];
    assert Distinct(ChatProviderKeys) && Distinct(EmbeddingProviderKeys);
  }

  /** No loader among the first `n` rejected. */
  predicate ResolvedUpTo(results: seq<LoaderResult>, n: nat) {
    n <= |results| && forall j :: 0 <= j < n ==> results[j].Resolved?
  }

  /** The record after the first `n` turns of the loop: each non-empty result written under its key. */
  function StoredUpTo(seed: Catalog, loaders: seq<string>, results: seq<LoaderResult>, n: nat): Catalog
    requires |results| == |loaders| && ResolvedUpTo(results, n)
  {
    if n == 0 then seed
    else
      var prev := StoredUpTo(seed, loaders, results, n - 1);
      var providerModels := results[n - 1].models;
      if |providerModels| > 0 then Put(prev, loaders[n - 1], providerModels) else prev
  }

  /**
   * The `for` loop shared by both assemblies: await each loader in registry
   * order and store a non-empty result under its key; the first rejection
   * escapes.
   */
  method StoreLoaded(seed: Catalog, loaders: seq<string>, results: seq<LoaderResult>) returns (r: Option<Catalog>)
    requires |results| == |loaders|
    ensures r.None? <==> !ResolvedUpTo(results, |results|)
    ensures r.Some? ==> ResolvedUpTo(results, |results|) && r.value == StoredUpTo(seed, loaders, results, |results|)
  {
    var models := seed;
    for i := 0 to |loaders|
      invariant ResolvedUpTo(results, i)
      invariant models == StoredUpTo(seed, loaders, results, i)
    {
      var loaded := results[i];
      if loaded.Rejected? {
        return None;
      }
      if |loaded.models| > 0 {
        models := Put(models, loaders[i], loaded.models);
      }
    }
    return Some(models);
  }

  /** The loop keeps the seeded keys, in their seeded order. */
  lemma {:induction false} StoredKeys(seed: Catalog, loaders: seq<string>, results: seq<LoaderResult>, n: nat)
    requires |results| == |loaders| && ResolvedUpTo(results, n)
    requires forall j :: 0 <= j < |loaders| ==> loaders[j] in Keys(seed)
    ensures Keys(StoredUpTo(seed, loaders, results, n)) == Keys(seed)
  {
    if n > 0 {
      StoredKeys(seed, loaders, results, n - 1);
    }
  }

  /**
   * What the loop leaves under a loader's key whose seeded value is `{}`: that
   * loader's result once its turn has come (an empty result leaves the seeded
   * `{}`, the same value), and `{}` before.
   */
  lemma {:induction false} StoredGet(seed: Catalog, loaders: seq<string>, results: seq<LoaderResult>, n: nat, j: nat)
    requires Distinct(loaders) && |results| == |loaders| && ResolvedUpTo(results, n) && j < |loaders|
    requires Get(seed, loaders[j]) == Some([])
    ensures Get(StoredUpTo(seed, loaders, results, n), loaders[j]) == if j < n then Some(results[j].models) else Some([])
  {
    if n > 0 {
      StoredGet(seed, loaders, results, n - 1, j);
      StoredGetStep(seed, loaders, results, n, j);
    }
  }

  /** One turn of the loop, read back at a loader's key. */
  lemma StoredGetStep(seed: Catalog, loaders: seq<string>, results: seq<LoaderResult>, n: nat, j: nat)
    requires Distinct(loaders) && |results| == |loaders| && ResolvedUpTo(results, n) && 0 < n && j < |loaders|
    requires Get(StoredUpTo(seed, loaders, results, n - 1), loaders[j]) == if j < n - 1 then Some(results[j].models) else Some([])
    ensures Get(StoredUpTo(seed, loaders, results, n), loaders[j]) == if j < n then Some(results[j].models) else Some([])
  {
    var prev := StoredUpTo(seed, loaders, results, n - 1);
    var k, providerModels := loaders[n - 1], results[n - 1].models;
    assert StoredUpTo(seed, loaders, results, n) == if |providerModels| > 0 then Put(prev, k, providerModels) else prev;
    StoreIfNonEmpty(prev, k, providerModels, loaders[j]);
    if j != n - 1 {
      assert loaders[j] != k;
    }
  }

  /** One turn of the loop, read back at any key. */
  lemma StoreIfNonEmpty(prev: Catalog, k: string, providerModels: ModelMap, k': string)
    ensures Get(if |providerModels| > 0 then Put(prev, k, providerModels) else prev, k') ==
      if |providerModels| > 0 && k' == k then Some(providerModels) else Get(prev, k')
  {
    if |providerModels| > 0 {
      GetAfterPut(prev, k, providerModels, k');
    }
  }

  /** After the whole loop, a loader's key holds exactly what that loader returned. */
  lemma StoredAt(seed: Catalog, loaders: seq<string>, results: seq<LoaderResult>, j: nat)
    requires Registry(seed, loaders) && |results| == |loaders| && ResolvedUpTo(results, |results|) && j < |loaders|
    requires forall p :: 0 <= p < |seed| ==> seed[p].1 == []
    ensures Get(StoredUpTo(seed, loaders, results, |results|), loaders[j]) == Some(results[j].models)
  {
    assert Get(seed, loaders[j]) == Some([]);
    StoredGet(seed, loaders, results, |results|, j);
  }

  /** The whole loop keeps the seeded keys and fills each loader's key with its result. */
  lemma StoredAll(seed: Catalog, loaders: seq<string>, results: seq<LoaderResult>)
    requires Registry(seed, loaders) && |results| == |loaders| && ResolvedUpTo(results, |results|)
    requires forall p :: 0 <= p < |seed| ==> seed[p].1 == []
    ensures Keys(StoredUpTo(seed, loaders, results, |results|)) == Keys(seed)
    ensures forall j :: 0 <= j < |loaders| ==>
      Get(StoredUpTo(seed, loaders, results, |results|), loaders[j]) == Some(results[j].models)
  {
    StoredKeys(seed, loaders, results, |results|);
    forall j | 0 <= j < |loaders| {
      StoredAt(seed, loaders, results, j);
    }
  }

  /**
   * What `getAvailableChatModelProviders` settles with: the loop's record with
   * `custom_openai` forced back to `{}`, or `None` for the rejection of the first
   * loader that rejects (nothing catches it).
   */
  function ChatCatalog(results: seq<LoaderResult>): Option<Catalog>
    requires |results| == |ChatLoaders|
  {
    if ResolvedUpTo(results, |results|) then
      Some(Put(StoredUpTo(Seed(ChatProviderKeys), ChatLoaders, results, |results|), CustomOpenAI, []))
    else None
  }

  /** What `getAvailableEmbeddingModelProviders` settles with. */
  function EmbeddingCatalog(results: seq<LoaderResult>): Option<Catalog>
    requires |results| == |EmbeddingLoaders|
  {
    if ResolvedUpTo(results, |results|) then
      Some(StoredUpTo(Seed(EmbeddingProviderKeys), EmbeddingLoaders, results, |results|))
    else None
  }

  /**
   * The chat catalog always has the five seeded keys in their literal order,
   * `custom_openai` is always `{}`, and every other provider holds exactly what
   * its loader returned (an empty result leaves the seeded `{}`, which is the
   * same value). A rejection leaves no catalog at all.
   */
  lemma ChatCatalogShape(results: seq<LoaderResult>)
    requires |results| == |ChatLoaders|
    ensures ChatCatalog(results).None? <==> exists i :: 0 <= i < |results| && results[i].Rejected?
    ensures ChatCatalog(results).Some? ==>
      && Keys(ChatCatalog(results).value) == ChatProviderKeys
      && Get(ChatCatalog(results).value, CustomOpenAI) == Some([])
      && forall i :: 0 <= i < |ChatLoaders| ==> Get(ChatCatalog(results).value, ChatLoaders[i]) == Some(results[i].models)
  {
    if ResolvedUpTo(results, |results|) {
      RegistriesSeeded();
      var seed := Seed(ChatProviderKeys);
      var stored := StoredUpTo(seed, ChatLoaders, results, |results|);
      StoredAll(seed, ChatLoaders, results);
      assert CustomOpenAI == ChatProviderKeys[4];
      GetAfterPut(stored, CustomOpenAI, [], CustomOpenAI);
      forall i | 0 <= i < |ChatLoaders|
        ensures Get(Put(stored, CustomOpenAI, []), ChatLoaders[i]) == Some(results[i].models)
      {
        assert ChatLoaders[i] == ChatProviderKeys[i];
        GetAfterPut(stored, CustomOpenAI, [], ChatLoaders[i]);
      }
    }
  }

  /**
   * The embedding catalog keeps its seeded order `openai, ollama, local`
   * although the loaders run as `openai, local, ollama`, and each provider
   * holds exactly what its loader returned.
   */
  lemma EmbeddingCatalogShape(results: seq<LoaderResult>)
    requires |results| == |EmbeddingLoaders|
    ensures EmbeddingCatalog(results).None? <==> exists i :: 0 <= i < |results| && results[i].Rejected?
    ensures EmbeddingCatalog(results).Some? ==>
      && Keys(EmbeddingCatalog(results).value) == EmbeddingProviderKeys
      && forall i :: 0 <= i < |EmbeddingLoaders| ==> Get(EmbeddingCatalog(results).value, EmbeddingLoaders[i]) == Some(results[i].models)
  {
    if ResolvedUpTo(results, |results|) {
      RegistriesSeeded();
      StoredAll(Seed(EmbeddingProviderKeys), EmbeddingLoaders, results);
    }
  }

  /** A loader that returns `{}` leaves its provider at the seeded `{}`; anything else is stored unchanged. */
  lemma ReplaceOnlyIfNonEmpty(results: seq<LoaderResult>, i: nat)
    requires |results| == |ChatLoaders| && i < |results| && ResolvedUpTo(results, |results|)
    ensures |results[i].models| == 0 ==> Get(ChatCatalog(results).value, ChatLoaders[i]) == Some([])
    ensures |results[i].models| > 0 ==> Get(ChatCatalog(results).value, ChatLoaders[i]) == Some(results[i].models)
  {
    ChatCatalogShape(results);
  }

  /** `getAvailableChatModelProviders`, run against the loaders' settled values. */
  method GetAvailableChatModelProviders(results: seq<LoaderResult>) returns (r: Option<Catalog>)
    requires |results| == |ChatLoaders|
    ensures r == ChatCatalog(results)
  {
    var stored := StoreLoaded(Seed(ChatProviderKeys), ChatLoaders, results);
    if stored.None? {
      return None;
    }
    var models := stored.value;
    models := Put(models, CustomOpenAI, []);
    return Some(models);
  }

  /** `getAvailableEmbeddingModelProviders`, run against the loaders' settled values. */
  method GetAvailableEmbeddingModelProviders(results: seq<LoaderResult>) returns (r: Option<Catalog>)
    requires |results| == |EmbeddingLoaders|
    ensures r == EmbeddingCatalog(results)
  {
    r := StoreLoaded(Seed(EmbeddingProviderKeys), EmbeddingLoaders, results);
  }
}

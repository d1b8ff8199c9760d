/**
 * The models route (src/routes/models.ts): both catalogs are listed and every
 * entry's `model` handle is deleted in place before the catalogs are sent.
 */
module ModelsRoute {
  import opened Wrappers
  import opened Assoc
  import opened Http
  import opened Providers

  datatype ModelsBody = Catalogs(chatModelProviders: Catalog, embeddingModelProviders: Catalog) | Message(message: string)

  /** `delete entry.model`. */
  function Strip(d: Descriptor): (r: Descriptor)
    ensures r.model.None? && r.displayName == d.displayName
  {
    d.(model := None)
  }

  /** A provider's models with every handle deleted. */
  function StrippedModels(models: ModelMap): ModelMap {
    seq(|models|, j requires 0 <= j < |models| => (models[j].0, Strip(models[j].1)))
  }

  /** A catalog with every handle deleted. */
  function Stripped(catalog: Catalog): Catalog {
    seq(|catalog|, i requires 0 <= i < |catalog| => (catalog[i].0, StrippedModels(catalog[i].1)))
  }

  /** The inner `forEach`: delete `model` from each entry of one provider. */
  method StripProvider(models: ModelMap) returns (r: ModelMap)
    ensures r == StrippedModels(models)
  {
    r := models;
    for j := 0 to |r|
      invariant |r| == |models|
      invariant forall k :: 0 <= k < j ==> r[k] == (models[k].0, Strip(models[k].1))
      invariant forall k :: j <= k < |r| ==> r[k] == models[k]
    {
      r := r[j := (r[j].0, Strip(r[j].1))];
    }
  }

  /** The outer `forEach` over the providers of one catalog. */
  method StripCatalog(catalog: Catalog) returns (r: Catalog)
    ensures r == Stripped(catalog)
  {
    r := catalog;
    for i := 0 to |r|
      invariant |r| == |catalog|
      invariant forall k :: 0 <= k < i ==> r[k] == (catalog[k].0, StrippedModels(catalog[k].1))
      invariant forall k :: i <= k < |r| ==> r[k] == catalog[k]
    {
      var models := StripProvider(r[i].1);
      r := r[i := (r[i].0, models)];
    }
  }

  /**
   * Stripping removes every handle, and keeps the provider keys, the model keys
   * under each provider, their order and every display name.
   */
  lemma StrippedShape(catalog: Catalog)
    ensures Keys(Stripped(catalog)) == Keys(catalog)
    ensures forall i :: 0 <= i < |catalog| ==> Keys(Stripped(catalog)[i].1) == Keys(catalog[i].1)
    ensures forall i, j :: 0 <= i < |catalog| && 0 <= j < |catalog[i].1| ==>
      Stripped(catalog)[i].1[j].1 == Descriptor(catalog[i].1[j].1.displayName, None)
  {
  }

  /** Reading a stripped catalog at `[provider][model]` finds the same entry without its handle. */
  lemma {:induction false} StrippedGet(models: ModelMap, k: string)
    ensures Get(StrippedModels(models), k) == if Get(models, k).None? then None else Some(Strip(Get(models, k).value))
  {
    StrippedIndex(models, k);
  }

  lemma {:induction false} StrippedIndex(models: ModelMap, k: string)
    ensures IndexOf(StrippedModels(models), k) == IndexOf(models, k)
  {
    if models != [] {
      assert StrippedModels(models)[1..] == StrippedModels(models[1..]);
      StrippedIndex(models[1..], k);
    }
  }

  /** Stripping is idempotent. */
  lemma StripIdempotent(catalog: Catalog)
    ensures Stripped(Stripped(catalog)) == Stripped(catalog)
  {
    forall i | 0 <= i < |catalog| ensures StrippedModels(Stripped(catalog)[i].1) == Stripped(catalog)[i].1 {
      assert StrippedModels(StrippedModels(catalog[i].1)) == StrippedModels(catalog[i].1);
    }
  }

  /** The reply: both stripped catalogs, or the catch-all 500. */
  function ModelsReply(chatResults: seq<LoaderResult>, embeddingResults: seq<LoaderResult>): Reply<ModelsBody>
    requires |chatResults| == |ChatLoaders| && |embeddingResults| == |EmbeddingLoaders|
  {
    match (ChatCatalog(chatResults), EmbeddingCatalog(embeddingResults))
    case (Some(chat), Some(embedding)) => Reply(200, Catalogs(Stripped(chat), Stripped(embedding)))
    case _ => Reply(500, Message(InternalError))
  }

  /** `GET /models`. */
  method GetModels(chatResults: seq<LoaderResult>, embeddingResults: seq<LoaderResult>) returns (reply: Reply<ModelsBody>)
    requires |chatResults| == |ChatLoaders| && |embeddingResults| == |EmbeddingLoaders|
    ensures reply == ModelsReply(chatResults, embeddingResults)
  {
    var chat := GetAvailableChatModelProviders(chatResults);
    var embedding := GetAvailableEmbeddingModelProviders(embeddingResults);
    if chat.None? || embedding.None? {
      return Reply(500, Message(InternalError));
    }
    var chatModelProviders := StripCatalog(chat.value);
    var embeddingModelProviders := StripCatalog(embedding.value);
    return Reply(200, Catalogs(chatModelProviders, embeddingModelProviders));
  }

  /**
   * The reply is 200 exactly when both listings succeed, and then it carries
   * both catalogs stripped (which `StrippedShape` shows hold no handle).
   */
  lemma ModelsReplyShape(chatResults: seq<LoaderResult>, embeddingResults: seq<LoaderResult>)
    requires |chatResults| == |ChatLoaders| && |embeddingResults| == |EmbeddingLoaders|
    ensures ModelsReply(chatResults, embeddingResults).status == 200 <==>
      (forall i :: 0 <= i < |chatResults| ==> chatResults[i].Resolved?) &&
      (forall i :: 0 <= i < |embeddingResults| ==> embeddingResults[i].Resolved?)
    ensures ModelsReply(chatResults, embeddingResults).status != 200 ==>
      ModelsReply(chatResults, embeddingResults) == Reply(500, Message(InternalError))
    ensures ModelsReply(chatResults, embeddingResults).status == 200 ==>
      && ChatCatalog(chatResults).Some? && EmbeddingCatalog(embeddingResults).Some?
      && ModelsReply(chatResults, embeddingResults).body
         == Catalogs(Stripped(ChatCatalog(chatResults).value), Stripped(EmbeddingCatalog(embeddingResults).value))
  {
    ChatCatalogShape(chatResults);
    EmbeddingCatalogShape(embeddingResults);
  }
}

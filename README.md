# Perplexica request core, modelled in Dafny

This project models the deterministic core of Perplexica's server: how a
request picks its chat and embedding models, how the provider catalogs are
assembled and projected, and how search events become replies. It states the
behaviour as Dafny functions, methods and classes and proves properties of
them. The core covers:

- the one-shot search route `POST /` (`src/routes/search.ts`):
  - validation;
  - chat-history conversion;
  - model defaults and resolution;
  - the focus-mode lookup;
  - the fold of the handler's `data`/`end`/`error` events into one reply.
- WebSocket connection setup (`src/websocket/connectionManager.ts`):
  - the search-parameter defaults;
  - handle resolution;
  - the error frames and `close()` calls on each failure path;
  - the heartbeat that announces `signal: open` once;
  - the listener that forwards each inbound message.
- catalog assembly (`src/lib/providers/index.ts`): a pre-seeded, ordered record that is overwritten only by non-empty loader results. `custom_openai` is forced back to `{}`.
- the configuration route (`src/routes/config.ts`):
  - GET projects both catalogs onto `{name, displayName}` lists and adds the four stored settings;
  - POST maps the settings body onto the nested `updatedConfig` shape.
- the models route (`src/routes/models.ts`): deletes every entry's `model` handle before replying.
- the SearXNG client (`src/lib/searxng.ts`):
  - query-parameter order and form encoding;
  - the fallback to empty results.

Modules and files:

| file | module | source |
|---|---|---|
| `wrappers.dfy` | `Wrappers` | JavaScript `undefined` (`Option`), string truthiness, `a \|\| b` |
| `assoc.dfy` | `Assoc` | JavaScript objects as ordered association lists (`Object.keys` order, `m[k]`, `m[k] = v`) |
| `http.dfy` | `Http` | an Express reply `res.status(s).json(b)` as the value `Reply(s, b)` |
| `providers.dfy` | `Providers` | `src/lib/providers/index.ts` |
| `resolution.dfy` | `Resolution` | the provider/model defaulting and lookup common to both routes |
| `search.dfy` | `SearchRoute` | `src/routes/search.ts` |
| `session.dfy` | `ConnectionManager` | `src/websocket/connectionManager.ts` |
| `config_route.dfy` | `ConfigRoute` | `src/routes/config.ts` |
| `models_route.dfy` | `ModelsRoute` | `src/routes/models.ts` |
| `searxng.dfy` | `Searxng` | `src/lib/searxng.ts` |

Foreign calls become inputs of the operations that make them:

- The provider loaders become `LoaderResult`s, one per registry entry: a model map, or `Rejected`.
- The search handler becomes the finite sequence of events it emits.
- The handler table becomes the set of its focus-mode keys.
- The config getters become a `StoredSettings` value.
- The `axios.get` outcome becomes an `HttpOutcome`.
- The upgrade request becomes its URL and its parsed query pairs.

LangChain models are opaque handles. A stored one is `Provided(id)`. One built
on the spot is `Custom(modelName, apiKey, baseURL, temperature)`.

Outside the WebSocket connection, each operation that loops is a method
proved equal to a specification function, as are the listings and route
handlers in this table:

| method | specification function |
|---|---|
| `StoreLoaded` | `StoredUpTo` |
| `GetAvailableChatModelProviders` | `ChatCatalog` |
| `GetAvailableEmbeddingModelProviders` | `EmbeddingCatalog` |
| `CollectReply` | `OneShotReply` |
| `Establish` | `SessionSetup` |
| `ProjectCatalog` | `Projected` |
| `StripProvider` | `StrippedModels` |
| `StripCatalog` | `Stripped` |
| `GetModels` | `ModelsReply` |
| `GetConfig` | `ConfigReplyFor` |
| `BuildParams` | `SearchParams` |

The properties the source promises are lemmas about those functions.

The WebSocket side is the exception. The socket (`Socket`) and the connection
(`Connection`) are classes. The `ensures` of their constructors and of `Send`,
`Close`, `Become`, `Poll` and `OnMessage` state each new state directly, in
terms of the old one, and say what stays the same. Those `ensures` are the
properties. The heartbeat loop `Heartbeat` has no specification function: its
loop invariants are proved against the `ensures` of `Become` and `Poll`.

Behaviour of the code worth noting:

- A rejected provider loader is not caught. It fails the whole listing, and the route replies 500 or the socket gets an internal-error frame. It does not degrade to an empty provider.
- A WebSocket setup failure on the invalid-model path sends two error frames and calls `close()` twice. The first frame is `INVALID_MODEL_SELECTED`. The second is `INTERNAL_SERVER_ERROR`, sent because the thrown error reaches the catch block.
- The WebSocket route builds a `custom_openai` handle without checking for a key or base URL.
- On the one-shot route, missing custom credentials do not always give 400. If an unknown embedding provider arrives with an omitted model, the defaulting `TypeError` gives 500 first.
- Inbound WebSocket messages are forwarded as they arrive. Nothing queues or serialises them.
- The heartbeat interval is cleared only when a tick finds the socket OPEN. A socket that closes before any tick sees it OPEN keeps the 5 ms timer running for good; `Heartbeat` shows `heartbeatActive` staying true when OPEN never occurs.

## Model

| member | source | states |
|---|---|---|
| Wrappers.Or | src/routes/search.ts:78-83 | `a \|\| b` on optional strings is `a` exactly when `a` is truthy (present and non-empty), otherwise `b` |
| Assoc.Keys | src/routes/models.ts:17-19 | `Object.keys` lists one key per property, position by position, in insertion order, as JavaScript lists string keys; `IndexOf`, `Get`, `Put` and `FirstKey` state lookup, assignment and the first key in its terms |
| Assoc.IndexOf | src/routes/search.ts:124-125 | property lookup finds the first position holding the key, and none when no position holds it |
| Assoc.Get | src/routes/search.ts:124-128 | `m[k]` is defined exactly when `k` is among `Object.keys(m)` |
| Assoc.FirstKey | src/routes/search.ts:78-83 | `Object.keys(m)[0]` is defined exactly for a non-empty object and is then its first key |
| Assoc.Put | src/lib/providers/index.ts:38 | assigning an existing property keeps the key order; assigning a new one appends it |
| Assoc.GetAfterPut | src/lib/providers/index.ts:38 | after `m[k] = v`, `m[k]` reads `v` and every other key reads as before |
| Assoc.GetAtUniqueKey | src/routes/config.ts:33-39 | in an object with distinct keys, the key at position `i` reads back the value at position `i` |
| Providers.Seed | src/lib/providers/index.ts:27-33 | the pre-seeded record has exactly the given keys in order, each holding `{}` |
| Providers.RegistriesSeeded | src/lib/providers/index.ts:10-33 | both registries have distinct loader keys, and every loader has a seeded key |
| Providers.StoredUpTo | src/lib/providers/index.ts:35-40 | the record after the first `n` loader turns; `StoredKeys`, `StoredGet` and `StoredAll` state its keys and contents, and `StoreLoaded` computes it |
| Providers.ChatCatalog | src/lib/providers/index.ts:26-45 | the chat listing; `ChatCatalogShape` states its keys, its `custom_openai` entry and each provider's models |
| Providers.EmbeddingCatalog | src/lib/providers/index.ts:47-64 | the embedding listing; `EmbeddingCatalogShape` states its keys and each provider's models |
| Providers.StoreLoaded | src/lib/providers/index.ts:35-40 | the loader loop yields nothing when some loader rejects, and otherwise the record `StoredUpTo` describes |
| Providers.StoredKeys | src/lib/providers/index.ts:35-40 | the loop never adds or reorders keys: the seeded key order survives |
| Providers.StoredGet | src/lib/providers/index.ts:35-40 | once a loader's turn has come, its key holds exactly that loader's result; before that it holds `{}` |
| Providers.StoredGetStep | src/lib/providers/index.ts:36-39 | one loop turn keeps that reading at every loader key |
| Providers.StoreIfNonEmpty | src/lib/providers/index.ts:37-39 | one turn writes the key only for a non-empty result, and leaves every other key as it was |
| Providers.StoredAt | src/lib/providers/index.ts:35-40 | after the whole loop, each loader's key holds exactly what that loader returned |
| Providers.StoredAll | src/lib/providers/index.ts:35-40 | after the whole loop the seeded keys are unchanged, and each loader's key holds its result |
| Providers.ChatCatalogShape | src/lib/providers/index.ts:26-45 | no chat catalog exactly when some loader rejects; otherwise the keys are `openai, groq, ollama, anthropic, custom_openai` in that order, `custom_openai` is `{}`, and each loader's provider holds its result |
| Providers.EmbeddingCatalogShape | src/lib/providers/index.ts:47-64 | no embedding catalog exactly when some loader rejects; otherwise the keys are `openai, ollama, local` in seeded order (not loader order), and each provider holds its loader's result |
| Providers.ReplaceOnlyIfNonEmpty | src/lib/providers/index.ts:37-39 | an empty loader result leaves the provider at `{}`; a non-empty one is stored unchanged |
| Providers.GetAvailableChatModelProviders | src/lib/providers/index.ts:26-45 | the chat listing settles with `ChatCatalog` of the loaders' results |
| Providers.GetAvailableEmbeddingModelProviders | src/lib/providers/index.ts:47-64 | the embedding listing settles with `EmbeddingCatalog` of the loaders' results |
| Resolution.ProviderModels | src/routes/search.ts:124 | `catalog[provider]` exists exactly when the provider is given and is a catalog key |
| Resolution.Select | src/routes/search.ts:78-94 | the chosen provider is the requested one when truthy, else the first catalog key |
| Resolution.Entry | src/routes/search.ts:124-125 | the entry lookup succeeds only for a defined provider and a defined model |
| Resolution.RequestedKept | src/routes/search.ts:78-83 | a non-empty requested provider and model are used as given |
| Resolution.DefaultSelection | src/websocket/connectionManager.ts:40-45 | an omitted provider is the first provider key, and an omitted model is the first model key under it |
| Resolution.DefaultModelUnderRequestedProvider | src/routes/search.ts:81-83 | an omitted model is defaulted under the requested provider, not under the first one |
| Resolution.SelectThrows | src/routes/search.ts:81-83 | selection throws (`Object.keys(undefined)`) exactly when the model must be defaulted and the chosen provider is missing from the catalog |
| Resolution.DefaultChatProviderIsOpenAI | src/lib/providers/index.ts:27-33 | every chat catalog defaults to provider `openai` |
| Resolution.DefaultEmbeddingProviderIsOpenAI | src/lib/providers/index.ts:48-52 | every embedding catalog defaults to provider `openai` |
| Resolution.EntryExact | src/routes/search.ts:123-129 | in a well-formed catalog the lookup at `[provider][model]` returns exactly the stored entry |
| Resolution.EntryAbsent | src/routes/search.ts:131-139 | the lookup fails exactly when the provider or the model is undefined or absent |
| SearchRoute.Validate | src/routes/search.ts:42-44 | a falsy `focusMode` or `query`, and only that, gives 400 "Missing focus mode or query" |
| SearchRoute.OptimizationMode | src/routes/search.ts:47 | a falsy `optimizationMode` becomes `balanced`; a truthy one is kept |
| SearchRoute.Present | src/routes/search.ts:64 | the `undefined` filter; `PresentMembers` states it keeps exactly the defined messages and `PresentAppend` that it keeps their order |
| SearchRoute.PresentMembers | src/routes/search.ts:64 | the filter keeps exactly the defined messages: a message is in the result exactly when it is defined in the input (order is `PresentAppend`) |
| SearchRoute.PresentAppend | src/routes/search.ts:64 | the filter distributes over concatenation |
| SearchRoute.HistoryAppend | src/routes/search.ts:50-64 | history conversion works entry by entry, in order |
| SearchRoute.HistoryEntry | src/routes/search.ts:51-63 | `human` becomes a Human message, `assistant` an AI message, and any other role is dropped |
| SearchRoute.HistoryNoneRecognized | src/routes/search.ts:50-64 | a history without recognised roles converts to no messages |
| SearchRoute.HistoryAllRecognized | src/routes/search.ts:50-64 | when every role is recognised, each entry becomes its message, with text and order kept |
| SearchRoute.StoredModel | src/routes/search.ts:128-138 | no handle when the `[provider][model]` lookup fails; otherwise exactly the `model` of the entry found |
| SearchRoute.ResolveFromCatalog | src/routes/search.ts:78-147 | a non-custom request naming a provider and model present in well-formed catalogs runs on exactly the stored chat and embedding handles, and is refused with 400 "Invalid model selected" when either entry lacks a handle |
| SearchRoute.ToMessage | src/routes/search.ts:51-63 | one history entry as a message; `HistoryEntry` states its three cases |
| SearchRoute.ConvertHistory | src/routes/search.ts:46-64 | the history conversion; `HistoryAppend`, `HistoryNoneRecognized` and `HistoryAllRecognized` state that it maps entry by entry, drops unknown roles and keeps order and text |
| SearchRoute.Resolve | src/routes/search.ts:78-147 | the model resolution; `ResolveFromCatalog`, `UnknownChatProvider`, `UnknownEmbeddingProvider`, `CustomWithoutCredentials`, `InvalidModelRefused` and `DispatchedHandles` state each outcome |
| SearchRoute.Prepare | src/routes/search.ts:46-165 | everything between listing and dispatch; `FocusCheckedLast` and `DispatchedArguments` state its order of checks and what the handler receives |
| SearchRoute.SearchSetup | src/routes/search.ts:42-165 | the route up to dispatch; `MissingFieldsRefused` and `ListingFailure` state the refusals before resolution |
| SearchRoute.Text | src/routes/search.ts:167-174 | the accumulated `message`; `TextAppend` states it is the in-order concatenation of the `response` data |
| SearchRoute.LastSources | src/routes/search.ts:168-177 | the accumulated `sources`; `LastSourcesAppend` and `NoSourcesEmpty` state that the last payload wins and `[]` is the default |
| SearchRoute.OneShotReply | src/routes/search.ts:167-190 | the reply of an event stream; `EndReply`, `ErrorReply` and `NoTerminalNoReply` state it for each first terminal event, and `CollectReply` proves the callbacks send it |
| SearchRoute.FirstTerminal | src/routes/search.ts:181-190 | the position found is the first `end` or `error` event; none exists when none is found |
| SearchRoute.FirstTerminalSnoc | src/routes/search.ts:181-190 | a later event never moves the first terminal event; on a pending stream a terminal event becomes it |
| SearchRoute.FirstTerminalUnique | src/routes/search.ts:181-190 | the first terminal position is determined by where the terminal events are |
| SearchRoute.ReplyStep | src/routes/search.ts:167-190 | once a reply is decided, later events change nothing; before that, the next terminal event decides it |
| SearchRoute.CollectReply | src/routes/search.ts:167-190 | the three emitter callbacks over the stream send exactly `OneShotReply` |
| SearchRoute.TextAppend | src/routes/search.ts:173-174 | the accumulated `message` is the in-order concatenation of the `response` data |
| SearchRoute.LastSourcesAppend | src/routes/search.ts:175-177 | a later `sources` payload overwrites an earlier one; without any, `sources` stays `[]` |
| SearchRoute.NoSourcesEmpty | src/routes/search.ts:168 | a stream without a `sources` payload leaves `sources` at `[]` |
| SearchRoute.EndReply | src/routes/search.ts:181-184 | on `end`, the reply is 200 with the concatenated text and the last sources before it; later events are ignored |
| SearchRoute.ErrorReply | src/routes/search.ts:186-190 | on `error`, the reply is 500 with the error's data alone; accumulated text is not sent |
| SearchRoute.NoTerminalNoReply | src/routes/search.ts:167-190 | without `end` or `error`, no reply is sent |
| SearchRoute.EndExample | src/routes/search.ts:170-184 | `A`, `B`, a sources payload, `C`, then `end` replies 200 with `ABC` and that payload |
| SearchRoute.ErrorExample | src/routes/search.ts:186-190 | a fragment then `error` replies 500 with the error's data only |
| SearchRoute.MissingFieldsRefused | src/routes/search.ts:42-44 | a falsy `focusMode` or `query` is refused with 400 whatever the loaders return, so listing never matters |
| SearchRoute.ListingFailure | src/routes/search.ts:68-71 | a rejected loader ends in the catch-all 500 "An error has occurred." |
| SearchRoute.UnknownChatProvider | src/routes/search.ts:81-83 | an unknown chat provider with an omitted model ends in 500 |
| SearchRoute.UnknownEmbeddingProvider | src/routes/search.ts:92-94 | an unknown embedding provider with an omitted model ends in 500 |
| SearchRoute.CustomWithoutCredentials | src/routes/search.ts:104-112 | an explicit `custom_openai` without both a base URL and a key gives 400 "Missing custom OpenAI base URL or key" |
| SearchRoute.DispatchedHandles | src/routes/search.ts:104-139 | a dispatched custom request uses a fresh handle from the body's model name, key and URL at temperature 0.3; any other provider uses exactly the stored handle; so does the embedding |
| SearchRoute.InvalidModelRefused | src/routes/search.ts:123-147 | for a non-custom provider, resolution fails exactly when either lookup finds no handle, and then the reply is 400 "Invalid model selected" |
| SearchRoute.FocusCheckedLast | src/routes/search.ts:141-155 | a model failure wins over an unknown focus mode; an unknown focus mode then gives 400 "Invalid focus mode"; the handler runs exactly when both checks pass |
| SearchRoute.DispatchedArguments | src/routes/search.ts:158-165 | the handler gets the converted history, the query, the focus mode and the defaulted optimization mode |
| SearchRoute.HandleSearch | src/routes/search.ts:36-199 | providers are listed exactly when validation passes; a refused request sends its refusal and invokes no handler; a dispatched one sends `OneShotReply` of the handler's events |
| ConnectionManager.Param | src/websocket/connectionManager.ts:40-52 | `searchParams.get` returns a value stored under that name, and null exactly when the name is absent |
| ConnectionManager.ParamFirst | src/websocket/connectionManager.ts:40-52 | the first occurrence of a parameter wins |
| ConnectionManager.Socket.constructor | src/websocket/connectionManager.ts:18-21 | a socket starts in the given state with nothing sent and no close call |
| ConnectionManager.Socket.Send | src/websocket/connectionManager.ts:101-107 | `ws.send` appends one frame and changes nothing else |
| ConnectionManager.Socket.Close | src/websocket/connectionManager.ts:108 | `ws.close` counts one call and starts closing unless the socket is already closed |
| ConnectionManager.Socket.Become | src/websocket/connectionManager.ts:114 | the peer moves the socket's state; nothing is sent |
| ConnectionManager.Establish | src/websocket/connectionManager.ts:24-110 | setup ends as `SessionSetup` says: thrown, invalid models, or ready with both handles |
| ConnectionManager.Connection.constructor | src/websocket/connectionManager.ts:98-146 | the frames sent and `close()` calls are exactly those of the outcome; a failed setup leaves the socket closing (or closed), a ready one leaves its state alone; only a ready outcome installs the heartbeat and the listener, with both handles |
| ConnectionManager.Connection.Poll | src/websocket/connectionManager.ts:113-124 | a tick sends `signal: open` and clears the interval only when the interval is active and the socket is OPEN; otherwise it changes nothing |
| ConnectionManager.Connection.Heartbeat | src/websocket/connectionManager.ts:113-124 | across any sequence of states the signal goes out exactly once if the socket is ever OPEN, and never otherwise; the heartbeat never closes the socket, and the socket ends in the last state the peer gave it |
| ConnectionManager.Connection.OnMessage | src/websocket/connectionManager.ts:126-131 | after a successful setup every message is forwarded with the resolved handles; otherwise nothing is forwarded |
| ConnectionManager.HandleConnection | src/websocket/connectionManager.ts:18-148 | the frames, closes, heartbeat and listener are those of `SessionSetup`; a failed setup leaves the socket closing (or closed); on success nothing is sent before the signal |
| ConnectionManager.NoUrl | src/websocket/connectionManager.ts:25-28 | without a URL the socket gets exactly one `INTERNAL_SERVER_ERROR` frame and one close |
| ConnectionManager.SetupSendsNoSignal | src/websocket/connectionManager.ts:136-146 | no setup path sends a `signal` frame |
| ConnectionManager.InvalidModelPath | src/websocket/connectionManager.ts:98-110 | the invalid-model path sends `INVALID_MODEL_SELECTED` then `INTERNAL_SERVER_ERROR`, and closes twice |
| ConnectionManager.SessionDefaults | src/websocket/connectionManager.ts:40-45 | absent or empty chat parameters fall back to the first chat provider and its first model |
| ConnectionManager.SessionEmbeddingDefaults | src/websocket/connectionManager.ts:47-52 | absent or empty embedding parameters fall back to the first embedding provider and its first model |
| ConnectionManager.SessionChatModel | src/websocket/connectionManager.ts:62-83 | the chat handle; `CustomSessionModel` and `StoredSessionModel` state its two branches |
| ConnectionManager.SessionEmbeddingModel | src/websocket/connectionManager.ts:86-96 | the embedding handle; `ResolveSessionReady` states it must exist for a ready setup |
| ConnectionManager.ResolveSession | src/websocket/connectionManager.ts:40-98 | defaulting and handle resolution; `ResolveSessionReady` states when it is ready |
| ConnectionManager.SessionSetup | src/websocket/connectionManager.ts:24-110 | the setup outcome; `NoUrl` states the missing-URL case, `ResolveSessionReady` the rest, and `Establish` computes it |
| ConnectionManager.SetupFrames | src/websocket/connectionManager.ts:98-146 | the frames of each outcome; `NoUrl`, `InvalidModelPath` and `SetupSendsNoSignal` state them, and the `Connection` constructor sends exactly them |
| ConnectionManager.SetupCloses | src/websocket/connectionManager.ts:98-146 | the `close()` calls of each outcome; `NoUrl` and `InvalidModelPath` state them, and the `Connection` constructor makes exactly them |
| ConnectionManager.CustomSessionModel | src/websocket/connectionManager.ts:73-83 | `custom_openai` always builds a handle: model `chatModel`, temperature 0.7, key from `openAIApiKey` (or undefined when empty), URL from `openAIBaseURL`; there is no credential check |
| ConnectionManager.StoredSessionModel | src/websocket/connectionManager.ts:62-72 | any other provider yields exactly the stored handle of its entry, or nothing |
| ConnectionManager.ResolveSessionReady | src/websocket/connectionManager.ts:40-98 | setup is ready exactly when both selections succeed and both handles exist |
| ConfigRoute.Describe | src/routes/config.ts:33-40 | a provider's list has one item per model, named by the model keys in order |
| ConfigRoute.DescribeExact | src/routes/config.ts:35-39 | each item carries its own model's display name |
| ConfigRoute.Projected | src/routes/config.ts:31-54 | the projection has the catalog's provider keys in catalog order |
| ConfigRoute.ProjectCatalog | src/routes/config.ts:31-41 | the `for ... in` loop over a fresh `{}` builds exactly `Projected` of the catalog |
| ConfigRoute.ProjectionShape | src/routes/config.ts:31-54 | each provider maps to a list as long as its model map (`[]` for none), with `{name, displayName}` in model-key order |
| ConfigRoute.DistinctKeysUnique | src/routes/config.ts:31 | a catalog keyed by a list of distinct names is a well-formed object |
| ConfigRoute.ConfigReplyFor | src/routes/config.ts:18-66 | the `GET /config` reply; `ConfigReplyShape` states its status, its providers and its settings |
| ConfigRoute.ToUpdatedConfig | src/routes/config.ts:71-80 | the nested update; `UpdatedConfigRoundTrip` states it loses and invents nothing |
| ConfigRoute.GetConfig | src/routes/config.ts:18-66 | `GET /config` replies `ConfigReplyFor` the loaders' results and the settings |
| ConfigRoute.ConfigReplyShape | src/routes/config.ts:18-66 | the reply is 200 exactly when both listings succeed, and otherwise the 500; on success the providers appear in seeded order, `custom_openai` lists nothing, and the four settings are copied verbatim |
| ConfigRoute.UpdatedConfigRoundTrip | src/routes/config.ts:71-80 | the body-to-`updatedConfig` mapping is a bijection: it loses and invents nothing |
| ConfigRoute.PostConfig | src/routes/config.ts:68-85 | the update carries the three keys under `API_KEYS` and the Ollama URL under `API_ENDPOINTS`; the reply is always 200 "Config updated" |
| ModelsRoute.Strip | src/routes/models.ts:21 | `delete entry.model` removes the handle and keeps the display name |
| ModelsRoute.StripProvider | src/routes/models.ts:19-22 | the inner loop strips every model of one provider |
| ModelsRoute.StripCatalog | src/routes/models.ts:17-31 | the outer loop strips every provider of the catalog |
| ModelsRoute.StrippedShape | src/routes/models.ts:17-31 | stripping removes every handle and keeps the provider keys, the model keys, their order and each display name |
| ModelsRoute.StrippedGet | src/routes/models.ts:21 | reading a stripped provider at a key finds the same entry without its handle |
| ModelsRoute.StrippedIndex | src/routes/models.ts:21 | stripping keeps every key at its position |
| ModelsRoute.StripIdempotent | src/routes/models.ts:17-31 | stripping twice is stripping once |
| ModelsRoute.StrippedModels | src/routes/models.ts:19-22 | one provider without handles; `StrippedGet` and `StrippedIndex` state that each key keeps its position and its display name |
| ModelsRoute.Stripped | src/routes/models.ts:17-31 | the catalog without handles; `StrippedShape` and `StripIdempotent` state what survives |
| ModelsRoute.ModelsReply | src/routes/models.ts:10-38 | the `GET /models` reply; `ModelsReplyShape` states its status |
| ModelsRoute.GetModels | src/routes/models.ts:10-38 | `GET /models` replies `ModelsReply` of the loaders' results |
| ModelsRoute.ModelsReplyShape | src/routes/models.ts:10-38 | the reply is 200 exactly when no loader rejects, and then its body is both listed catalogs stripped of their handles; otherwise it is 500 "An error has occurred." |
| Searxng.Join | src/lib/searxng.ts:36 | `value.join(',')`; `SplitJoin` states that comma-free items come back |
| Searxng.Split | src/lib/searxng.ts:36 | splitting always yields at least one piece |
| Searxng.SplitNoSep | src/lib/searxng.ts:36 | text without the separator splits into itself |
| Searxng.SplitAtFirst | src/lib/searxng.ts:36 | splitting text joined at a first separator yields that head and then the pieces of the rest |
| Searxng.SplitJoin | src/lib/searxng.ts:36 | `value.join(',')` of comma-free items splits back into those items |
| Searxng.Digits | src/lib/searxng.ts:38 | `String(n)` of a natural number is a non-empty run of digits without a leading zero |
| Searxng.DigitsRoundTrip | src/lib/searxng.ts:38 | the digits read back as the number |
| Searxng.ParseDigits | src/lib/searxng.ts:38 | a digit string, with or without a minus sign, reads back as its value |
| Searxng.DecimalRoundTrip | src/lib/searxng.ts:38 | `String(n)` of an integer loses nothing |
| Searxng.DecimalString | src/lib/searxng.ts:38 | `String(n)` of an integer; `DecimalRoundTrip` states it reads back as `n` |
| Searxng.OptionParam | src/lib/searxng.ts:35-39 | the parameters of one option; `OptionParamCases` states its three cases |
| Searxng.OptionParams | src/lib/searxng.ts:34-40 | the parameters of all options; `OptionParamsAppend` states they come entry by entry, in order |
| Searxng.SearchParams | src/lib/searxng.ts:30-41 | the full parameter list; `BuildParams` computes it and `RequestCarriesParams` states its first two entries |
| Searxng.BuildParams | src/lib/searxng.ts:30-41 | the appended parameters are `format=json`, then `q`, then the options in entry order |
| Searxng.OptionParamsAppend | src/lib/searxng.ts:34-40 | the options contribute their parameters entry by entry, in order |
| Searxng.OptionParamCases | src/lib/searxng.ts:35-39 | an array option is one comma-joined parameter whose items can be recovered; `undefined` adds nothing; a number is sent as its decimal string |
| Searxng.Utf8 | src/lib/searxng.ts:43 | a character is encoded as one to four UTF-8 bytes |
| Searxng.Utf8Decodes | src/lib/searxng.ts:43 | the first byte of a character's encoding gives its length, and the bytes give the character back |
| Searxng.Utf8String | src/lib/searxng.ts:43 | the UTF-8 encoding of a string; `Utf8StringInjective` states it loses nothing |
| Searxng.Utf8StringInjective | src/lib/searxng.ts:43 | two strings with the same UTF-8 encoding are the same string |
| Searxng.HexValue | src/lib/searxng.ts:43 | a hexadecimal digit denotes a value below 16 |
| Searxng.EncodeByte | src/lib/searxng.ts:43 | an encoded byte never contains `&` or `=` |
| Searxng.EncodeBytes | src/lib/searxng.ts:43 | encoded bytes never contain `&` or `=` |
| Searxng.Encode | src/lib/searxng.ts:43 | an encoded name or value never contains `&` or `=` |
| Searxng.Serialize | src/lib/searxng.ts:43 | the query string; `SerializeRoundTrip` and `SerializeInjective` state it is unambiguous |
| Searxng.RequestURL | src/lib/searxng.ts:30-43 | the requested URL; `RequestCarriesParams` states its path and parameters |
| Searxng.Pieces | src/lib/searxng.ts:43 | there is one `name=value` piece per parameter, in order; `PairsRoundTrip` and `SerializeRoundTrip` state that the pieces parse back to the parameters |
| Searxng.Leading | src/lib/searxng.ts:43 | the decoder consumes between one character and the rest of the text per byte |
| Searxng.DecodeBytes | src/lib/searxng.ts:43 | the strict form decoder; `DecodeEncodeBytes` states it undoes the encoding |
| Searxng.DecodeStep | src/lib/searxng.ts:43 | decoding undoes the encoding of one byte |
| Searxng.DecodeEncodeBytes | src/lib/searxng.ts:43 | decoding undoes the byte-level encoding |
| Searxng.PairRoundTrip | src/lib/searxng.ts:43 | one `name=value` piece parses back to the UTF-8 bytes of the name and the value |
| Searxng.PairsStep | src/lib/searxng.ts:43 | one more parameter parses back in front of the rest |
| Searxng.ParsePairsCons | src/lib/searxng.ts:43 | a parsable piece in front of parsable pieces parses as that pair in front |
| Searxng.PairsRoundTrip | src/lib/searxng.ts:43 | all pieces parse back to all names and values, in order |
| Searxng.SerializeRoundTrip | src/lib/searxng.ts:30-43 | the serialized query is unambiguous: the UTF-8 bytes of every name and value come back, in order, whatever characters they hold |
| Searxng.SerializeInjective | src/lib/searxng.ts:30-43 | two parameter lists with the same serialized query are the same list, character for character |
| Searxng.RequestCarriesParams | src/lib/searxng.ts:30-43 | the requested URL is the endpoint's `/search?` path, and its query carries `format=json` first, `q` second, then the options |
| Searxng.Interpret | src/lib/searxng.ts:43-56 | the result of an HTTP outcome; `FailureIsEmpty` and `SuccessDefaults` state its cases |
| Searxng.FailureIsEmpty | src/lib/searxng.ts:45-56 | a failed request, a non-200 status or a body without data gives `{results: [], suggestions: []}` |
| Searxng.SuccessDefaults | src/lib/searxng.ts:49-52 | a 200 reply passes each list through, and a missing list becomes `[]` |
| Searxng.SearchSearxng | src/lib/searxng.ts:22-57 | the URL is `RequestURL` of the endpoint, query and options, and the result is `Interpret` of the outcome; no error escapes |

## Left out

- Logging (`logger`, `console`) throughout: it has no effect on replies or frames.
- Concurrency and timing:
  - `Promise.all` and the `await`s are modelled as values settled beforehand;
  - the 5 ms `setInterval` becomes explicit `Poll` ticks;
  - overlapping `message` handlers are not modelled.
- JSON parsing of request bodies, emitter payloads and frames. Events and frames are datatypes; a malformed payload that makes `JSON.parse` throw is not modelled.
- The LangChain constructors and the provider loaders are opaque handles and inputs. Which loaders were called, and in what order, is not observable in the model. A loader after the first rejection is not called.
- `handleMessage` and the search handlers are not part of this model. The listener records each forwarded call, and a handler is represented by the events it emits.
- The library behaviour of `ws` is kept to the state the connection code reads: `send` records the frame and `close` starts closing. Delivery of frames on a closed socket and the `close` listener's log line are not modelled.
- Express plumbing is a `Reply(status, body)` value. A second reply after the first terminal event makes Express fail ("headers already sent"); the model sends once and ignores later terminal events.
- `URL` parsing:
  - the upgrade request's query arrives as parsed pairs;
  - a malformed URL, and the `host` header, are not modelled;
  - on the SearXNG side, the endpoint is taken as text, and a `new URL` that throws on a bad endpoint is not modelled.
- Form encoding and characters:
  - characters are Unicode scalar values, so lone UTF-16 surrogates, which `URLSearchParams` replaces with U+FFFD, are not modelled;
  - the decoder is a strict partner of the encoder, not the lenient WHATWG parser.
- Searxng.DecimalString: `String(n)` is modelled as plain decimal digits, which is what JavaScript produces only for integers of magnitude below 10^21. Larger numbers are written with an exponent (`1e+21`), integers beyond 2^53 are not all representable as JavaScript numbers, and a fractional or non-finite `pageno` is not modelled.
- Assoc.Keys: JavaScript lists integer-like keys (`"2"`, `"10"`) first, in numeric order, before the string keys. The provider keys are fixed names, but a loader's model key that looks like an integer would be listed in another order than the model's.
- JavaScript prototype keys are not modelled (`searchHandlers['constructor']` is truthy, for example). An `undefined` model key that JavaScript coerces to the key `"undefined"` is modelled as a failed lookup.
- The config getters and `updateConfig` are process-wide, file-backed state. The getters are inputs and cannot throw. `PostConfig` returns the update it hands to `updateConfig`, so a failing `updateConfig` is not modelled.
- Providers.ReplaceOnlyIfNonEmpty: whether an empty result is written is not observable, because an empty result and the seeded `{}` are the same value.
- ModelsRoute.StripCatalog: the deletions are modelled on a copy of the freshly listed catalog. Whether a loader shares handle objects between calls, so that deleting `model` affects later listings, is not part of this model.
- `src/websocket/websocketServer.ts`, `src/db/index.ts` and `src/utils/computeSimilarity.ts` are not part of this model: server wiring, database I/O and floating-point similarity.

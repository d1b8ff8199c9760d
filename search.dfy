/**
 * The one-shot search route (`POST /`, src/routes/search.ts): request
 * validation, history conversion, model selection and resolution, the
 * focus-mode lookup, and the fold of the handler's `data`/`end`/`error`
 * events into the single HTTP reply.
 */
module SearchRoute {
  import opened Wrappers
  import opened Assoc
  import opened Http
  import opened Providers
  import opened Resolution

  /** `body.chatModel`; every field may be missing. */
  datatype ChatModelBody = ChatModelBody(
    provider: Option<string>,
    model: Option<string>,
    customOpenAIBaseURL: Option<string>,
    customOpenAIKey: Option<string>)

  /** `body.embeddingModel`. */
  datatype EmbeddingModelBody = EmbeddingModelBody(provider: Option<string>, model: Option<string>)

  /** The parsed JSON body; `history` is a list of `[role, text]` pairs. */
  datatype Request = Request(
    optimizationMode: Option<string>,
    focusMode: Option<string>,
    chatModel: Option<ChatModelBody>,
    embeddingModel: Option<EmbeddingModelBody>,
    query: Option<string>,
    history: Option<seq<(string, string)>>)

  /** A source document the handler attaches; its content is opaque here. */
  datatype Document = Document(pageContent: string, url: string)

  /** The JSON body of a reply: `{message}` or `{message, sources}`. */
  datatype Body = Message(message: string) | Answer(message: string, sources: seq<Document>)

  /** A `HumanMessage` or an `AIMessage`. */
  datatype ChatMessage = Human(content: string) | AI(content: string)

  /** The payload of a `data` event, already parsed. */
  datatype Payload = Response(text: string) | Sources(docs: seq<Document>) | OtherKind(kind: string)

  /** What the search handler's emitter emits. */
  datatype Event = Data(payload: Payload) | End | Error(data: string)

  /** The arguments the search handler is invoked with. */
  datatype HandlerCall = HandlerCall(
    focusMode: string,
    query: string,
    history: seq<ChatMessage>,
    llm: Handle,
    embeddings: Handle,
    optimizationMode: string)

  /** Where the route stands before the emitter runs. */
  datatype Setup = Reject(reply: Reply<Body>) | Dispatch(call: HandlerCall)

  /** Model resolution either fails with a reply or yields both handles. */
  datatype Resolved = Failed(reply: Reply<Body>) | Ready(llm: Handle, embeddings: Handle)

  const MissingFields := "Missing focus mode or query"
  const MissingCustom := "Missing custom OpenAI base URL or key"
  const InvalidModel := "Invalid model selected"
  const InvalidFocus := "Invalid focus mode"
  /** The temperature of a custom OpenAI model built by this route. */
  const CustomTemperature: real := 0.3

  // ---------------------------------------------------------------- validation

  /** `!body.focusMode || !body.query`: a missing or empty field ends the request. */
  function Validate(body: Request): (r: Option<Reply<Body>>)
    ensures r.Some? <==> !Truthy(body.focusMode) || !Truthy(body.query)
    ensures r.Some? ==> r.value == Reply(400, Message(MissingFields))
  {
    if !Truthy(body.focusMode) || !Truthy(body.query) then Some(Reply(400, Message(MissingFields))) else None
  }

  /** `body.optimizationMode || 'balanced'`. */
  function OptimizationMode(body: Request): (mode: string)
    ensures Truthy(body.optimizationMode) ==> mode == body.optimizationMode.value
    ensures !Truthy(body.optimizationMode) ==> mode == "balanced"
  {
    Or(body.optimizationMode, Some("balanced")).GetOr("balanced")
  }

  // ------------------------------------------------------------------- history

  /** One `[role, text]` pair: `human` and `assistant` become messages, anything else `undefined`. */
  function ToMessage(entry: (string, string)): Option<ChatMessage> {
    if entry.0 == "human" then Some(Human(entry.1))
    else if entry.0 == "assistant" then Some(AI(entry.1))
    else None
  }

  /** `.filter((msg) => msg !== undefined)`. */
  function Present(ms: seq<Option<ChatMessage>>): (r: seq<ChatMessage>)
    ensures |r| <= |ms|
  {
    if ms == [] then []
    else (if ms[0].Some? then [ms[0].value] else []) + Present(ms[1..])
  }

  /** The filter keeps exactly the messages that are there. */
  lemma {:induction false} PresentMembers(ms: seq<Option<ChatMessage>>)
    ensures forall m :: m in Present(ms) <==> Some(m) in ms
  {
    if ms != [] {
      assert ms == [ms[0]] + ms[1..];
      PresentMembers(ms[1..]);
    }
  }

  /** `(body.history || []).map(ToMessage).filter(...)`. */
  function ConvertHistory(history: seq<(string, string)>): seq<ChatMessage> {
    Present(seq(|history|, i requires 0 <= i < |history| => ToMessage(history[i])))
  }

  lemma {:induction false} PresentAppend(a: seq<Option<ChatMessage>>, b: seq<Option<ChatMessage>>)
    ensures Present(a + b) == Present(a) + Present(b)
  {
    if a == [] {
      assert a + b == b;
    } else {
      var head := if a[0].Some? then [a[0].value] else [];
      assert (a + b)[0] == a[0] && (a + b)[1..] == a[1..] + b;
      assert Present(a + b) == head + Present(a[1..] + b);
      PresentAppend(a[1..], b);
      assert Present(a) == head + Present(a[1..]);
    }
  }

  /** Conversion works entry by entry: it distributes over concatenation of histories. */
  lemma HistoryAppend(a: seq<(string, string)>, b: seq<(string, string)>)
    ensures ConvertHistory(a + b) == ConvertHistory(a) + ConvertHistory(b)
  {
    var f := (h: seq<(string, string)>) => seq(|h|, i requires 0 <= i < |h| => ToMessage(h[i]));
    assert f(a + b) == f(a) + f(b);
    PresentAppend(f(a), f(b));
  }

  /** A single entry is kept as the matching message, or dropped. */
  lemma HistoryEntry(role: string, text: string)
    ensures role == "human" ==> ConvertHistory([(role, text)]) == [Human(text)]
    ensures role == "assistant" ==> ConvertHistory([(role, text)]) == [AI(text)]
    ensures role != "human" && role != "assistant" ==> ConvertHistory([(role, text)]) == []
  {
    assert [ToMessage((role, text))][1..] == [];
  }

  /** A history with no `human` or `assistant` entry converts to nothing. */
  lemma {:induction false} HistoryNoneRecognized(history: seq<(string, string)>)
    requires forall i :: 0 <= i < |history| ==> history[i].0 != "human" && history[i].0 != "assistant"
    ensures ConvertHistory(history) == []
  {
    if history != [] {
      assert history == [history[0]] + history[1..];
      HistoryAppend([history[0]], history[1..]);
      HistoryEntry(history[0].0, history[0].1);
      HistoryNoneRecognized(history[1..]);
    }
  }

  /** When every role is recognised, nothing is dropped and order and text are kept. */
  lemma {:induction false} HistoryAllRecognized(history: seq<(string, string)>)
    requires forall i :: 0 <= i < |history| ==> history[i].0 == "human" || history[i].0 == "assistant"
    ensures |ConvertHistory(history)| == |history|
    ensures forall i :: 0 <= i < |history| ==>
      ConvertHistory(history)[i] == if history[i].0 == "human" then Human(history[i].1) else AI(history[i].1)
  {
    if history != [] {
      assert history == [history[0]] + history[1..];
      HistoryAppend([history[0]], history[1..]);
      HistoryEntry(history[0].0, history[0].1);
      HistoryAllRecognized(history[1..]);
    }
  }

  // ---------------------------------------------------------- model resolution

  function ChatProvider(body: Request): Option<string> {
    if body.chatModel.None? then None else body.chatModel.value.provider
  }

  function ChatModelName(body: Request): Option<string> {
    if body.chatModel.None? then None else body.chatModel.value.model
  }

  function EmbeddingProvider(body: Request): Option<string> {
    if body.embeddingModel.None? then None else body.embeddingModel.value.provider
  }

  function EmbeddingModelName(body: Request): Option<string> {
    if body.embeddingModel.None? then None else body.embeddingModel.value.model
  }

  /** The handle stored under a selection, `undefined` when the entry or its `model` is missing. */
  function StoredModel(catalog: Catalog, selection: Selection): (h: Option<Handle>)
    ensures Entry(catalog, selection).None? ==> h.None?
    ensures Entry(catalog, selection).Some? ==> h == Entry(catalog, selection).value.model
  {
    match Entry(catalog, selection)
    case None => None
    case Some(d) => d.model
  }

  /**
   * Defaults (src/routes/search.ts:78-94), then the chat handle (custom
   * credentials checked, catalog lookup otherwise), the embedding handle and
   * the `!llm || !embeddings` check. A defaulting `TypeError` reaches the
   * route's catch-all.
   */
  function Resolve(body: Request, chat: Catalog, embedding: Catalog): Resolved {
    var chatSelection := Select(ChatProvider(body), ChatModelName(body), chat);
    var embeddingSelection := Select(EmbeddingProvider(body), EmbeddingModelName(body), embedding);
    if chatSelection.None? || embeddingSelection.None? then Failed(Reply(500, Message(InternalError)))
    else if ChatProvider(body) == Some(CustomOpenAI) then
      var custom := body.chatModel.value;
      if !Truthy(custom.customOpenAIBaseURL) || !Truthy(custom.customOpenAIKey) then
        Failed(Reply(400, Message(MissingCustom)))
      else
        var llm := Custom(custom.model, custom.customOpenAIKey, custom.customOpenAIBaseURL, CustomTemperature);
        match StoredModel(embedding, embeddingSelection.value)
        case None => Failed(Reply(400, Message(InvalidModel)))
        case Some(e) => Ready(llm, e)
    else
      match (StoredModel(chat, chatSelection.value), StoredModel(embedding, embeddingSelection.value))
      case (Some(l), Some(e)) => Ready(l, e)
      case _ => Failed(Reply(400, Message(InvalidModel)))
  }

  /**
   * Everything between a successful listing and the emitter: history and
   * mode defaults, model resolution, then the focus-mode lookup (checked only
   * once both models resolved). `focusModes` are the keys of the search
   * handler table.
   */
  function Prepare(body: Request, chat: Catalog, embedding: Catalog, focusModes: set<string>): Setup {
    var history := ConvertHistory(body.history.GetOr([]));
    match Resolve(body, chat, embedding)
    case Failed(reply) => Reject(reply)
    case Ready(llm, embeddings) =>
      var focusMode := body.focusMode.GetOr("");
      if focusMode !in focusModes then Reject(Reply(400, Message(InvalidFocus)))
      else Dispatch(HandlerCall(focusMode, body.query.GetOr(""), history, llm, embeddings, OptimizationMode(body)))
  }

  /**
   * The whole route up to the emitter: validation before anything is listed,
   * then both listings (a rejection is a 500), then `Prepare`.
   */
  function SearchSetup(body: Request, chatResults: seq<LoaderResult>, embeddingResults: seq<LoaderResult>, focusModes: set<string>): Setup
    requires |chatResults| == |ChatLoaders| && |embeddingResults| == |EmbeddingLoaders|
  {
    match Validate(body)
    case Some(reply) => Reject(reply)
    case None =>
      match (ChatCatalog(chatResults), EmbeddingCatalog(embeddingResults))
      case (Some(chat), Some(embedding)) => Prepare(body, chat, embedding, focusModes)
      case _ => Reject(Reply(500, Message(InternalError)))
  }

  // ---------------------------------------------------------------- event fold

  predicate Terminal(e: Event) {
    e.End? || e.Error?
  }

  /** The position of the first `end` or `error` event, if any. */
  function FirstTerminal(events: seq<Event>): (r: Option<nat>)
    ensures r.None? ==> forall i :: 0 <= i < |events| ==> !Terminal(events[i])
    ensures r.Some? ==> r.value < |events| && Terminal(events[r.value])
    ensures r.Some? ==> forall i :: 0 <= i < r.value ==> !Terminal(events[i])
  {
    if events == [] then None
    else if Terminal(events[0]) then Some(0)
    else match FirstTerminal(events[1..])
      case None => None
      case Some(i) => Some(i + 1)
  }

  /** `message += data` over the `response` events, in order. */
  function Text(events: seq<Event>): string {
    if events == [] then ""
    else
      var last := events[|events| - 1];
      Text(events[..|events| - 1]) + (if last.Data? && last.payload.Response? then last.payload.text else "")
  }

  /** `sources = data` over the `sources` events: the last payload, or `[]`. */
  function LastSources(events: seq<Event>): seq<Document> {
    if events == [] then []
    else
      var last := events[|events| - 1];
      if last.Data? && last.payload.Sources? then last.payload.docs else LastSources(events[..|events| - 1])
  }

  /**
   * The reply the route sends: decided by the first terminal event, `None`
   * while no terminal event has arrived.
   */
  function OneShotReply(events: seq<Event>): Option<Reply<Body>> {
    match FirstTerminal(events)
    case None => None
    case Some(i) =>
      if events[i].End? then Some(Reply(200, Answer(Text(events[..i]), LastSources(events[..i]))))
      else Some(Reply(500, Message(events[i].data)))
  }

  /** What event `e` sends when it arrives after the non-terminal `events`. */
  function Sent(events: seq<Event>, e: Event): Option<Reply<Body>> {
    match e
    case End => Some(Reply(200, Answer(Text(events), LastSources(events))))
    case Error(data) => Some(Reply(500, Message(data)))
    case Data(_) => None
  }

  /** Appending one event to a stream that has not terminated yet. */
  lemma FirstTerminalSnoc(events: seq<Event>, e: Event)
    ensures FirstTerminal(events).Some? ==> FirstTerminal(events + [e]) == FirstTerminal(events)
    ensures FirstTerminal(events).None? ==> FirstTerminal(events + [e]) == if Terminal(e) then Some(|events|) else None
  {
    var s := events + [e];
    match FirstTerminal(events)
    case Some(i) =>
      assert s[i] == events[i];
      FirstTerminalUnique(s, i);
    case None =>
      if Terminal(e) {
        FirstTerminalUnique(s, |events|);
      } else {
        assert forall i :: 0 <= i < |s| ==> !Terminal(s[i]) by {
          forall i | 0 <= i < |s| ensures !Terminal(s[i]) {
            if i < |events| { assert s[i] == events[i]; }
          }
        }
      }
  }

  /** The first terminal position is determined by where the terminal events are. */
  lemma FirstTerminalUnique(events: seq<Event>, i: nat)
    requires i < |events| && Terminal(events[i]) && forall j :: 0 <= j < i ==> !Terminal(events[j])
    ensures FirstTerminal(events) == Some(i)
  {
  }

  /** Once a reply is decided later events change nothing; before, a terminal event decides it. */
  lemma ReplyStep(events: seq<Event>, e: Event)
    ensures OneShotReply(events).Some? ==> OneShotReply(events + [e]) == OneShotReply(events)
    ensures OneShotReply(events).None? ==> OneShotReply(events + [e]) == Sent(events, e)
  {
    FirstTerminalSnoc(events, e);
    var s := events + [e];
    match FirstTerminal(events)
    case Some(i) =>
      assert s[..i] == events[..i];
    case None =>
      assert s[..|events|] == events;
  }

  /**
   * The emitter's three callbacks over the whole event stream: `data` always
   * updates `message` and `sources`, and only the first terminal event sends
   * the reply.
   */
  method CollectReply(events: seq<Event>) returns (reply: Option<Reply<Body>>)
    ensures reply == OneShotReply(events)
  {
    var message := "";
    var sources: seq<Document> := [];
    reply := None;
    for i := 0 to |events|
      invariant message == Text(events[..i])
      invariant sources == LastSources(events[..i])
      invariant reply == OneShotReply(events[..i])
    {
      var e := events[i];
      assert events[..i + 1] == events[..i] + [e];
      ReplyStep(events[..i], e);
      match e
      case Data(payload) =>
        if payload.Response? {
          message := message + payload.text;
        } else if payload.Sources? {
          sources := payload.docs;
        }
      case End =>
        if reply.None? {
          reply := Some(Reply(200, Answer(message, sources)));
        }
      case Error(data) =>
        if reply.None? {
          reply := Some(Reply(500, Message(data)));
        }
    }
    assert events[..|events|] == events;
  }

  /** Concatenation of the `response` data distributes over splitting the stream. */
  lemma {:induction false} TextAppend(a: seq<Event>, b: seq<Event>)
    ensures Text(a + b) == Text(a) + Text(b)
  {
    if b == [] {
      assert a + b == a;
    } else {
      var b' := b[..|b| - 1];
      assert (a + b)[..|a + b| - 1] == a + b';
      assert (a + b)[|a + b| - 1] == b[|b| - 1];
      TextAppend(a, b');
    }
  }

  /** Whether a stream carries a `sources` payload. */
  predicate HasSources(events: seq<Event>) {
    exists i :: 0 <= i < |events| && events[i].Data? && events[i].payload.Sources?
  }

  /** The later `sources` payload overwrites the earlier one; without any, `sources` stays `[]`. */
  lemma {:induction false} LastSourcesAppend(a: seq<Event>, b: seq<Event>)
    ensures LastSources(a + b) == if HasSources(b) then LastSources(b) else LastSources(a)
    ensures !HasSources(a) ==> LastSources(a) == []
  {
    if b == [] {
      assert a + b == a;
    } else {
      var b' := b[..|b| - 1];
      var last := b[|b| - 1];
      assert (a + b)[..|a + b| - 1] == a + b';
      assert (a + b)[|a + b| - 1] == last;
      LastSourcesAppend(a, b');
      if !(last.Data? && last.payload.Sources?) {
        assert HasSources(b) <==> HasSources(b') by {
          if HasSources(b) {
            var i :| 0 <= i < |b| && b[i].Data? && b[i].payload.Sources?;
            assert i < |b'| && b'[i] == b[i];
          }
          if HasSources(b') {
            var i :| 0 <= i < |b'| && b'[i].Data? && b'[i].payload.Sources?;
            assert b[i] == b'[i];
          }
        }
      } else {
        assert HasSources(b) by { assert b[|b| - 1] == last; }
      }
    }
    NoSourcesEmpty(a);
  }

  lemma {:induction false} NoSourcesEmpty(a: seq<Event>)
    ensures !HasSources(a) ==> LastSources(a) == []
  {
    if a != [] && !HasSources(a) {
      var a' := a[..|a| - 1];
      assert !HasSources(a');
      assert !(a[|a| - 1].Data? && a[|a| - 1].payload.Sources?);
      NoSourcesEmpty(a');
    }
  }

  /** A stream with no terminal event yet. */
  predicate Pending(events: seq<Event>) {
    forall i :: 0 <= i < |events| ==> !Terminal(events[i])
  }

  /**
   * On `end` the reply is 200 with the in-order concatenation of the
   * `response` data and the last `sources` payload seen before it; whatever
   * follows the first terminal event is ignored.
   */
  lemma EndReply(before: seq<Event>, after: seq<Event>)
    requires Pending(before)
    ensures OneShotReply(before + [End] + after) == Some(Reply(200, Answer(Text(before), LastSources(before))))
  {
    var s := before + [End] + after;
    FirstTerminalUnique(s, |before|);
    assert s[..|before|] == before;
  }

  /** On `error` the reply is 500 with the error's data alone; no `response` text is sent. */
  lemma ErrorReply(before: seq<Event>, data: string, after: seq<Event>)
    requires Pending(before)
    ensures OneShotReply(before + [Error(data)] + after) == Some(Reply(500, Message(data)))
  {
    var s := before + [Error(data)] + after;
    FirstTerminalUnique(s, |before|);
  }

  /** Without a terminal event the route never replies. */
  lemma NoTerminalNoReply(events: seq<Event>)
    requires Pending(events)
    ensures OneShotReply(events) == None
  {
  }

  /** Response fragments `A`, `B`, a sources payload, `C`, then `end`. */
  lemma EndExample(doc: Document)
    ensures OneShotReply([Data(Response("A")), Data(Response("B")), Data(Sources([doc])), Data(Response("C")), End])
      == Some(Reply(200, Answer("ABC", [doc])))
  {
    var before := [Data(Response("A")), Data(Response("B")), Data(Sources([doc])), Data(Response("C"))];
    assert before + [End] + [] == [Data(Response("A")), Data(Response("B")), Data(Sources([doc])), Data(Response("C")), End];
    EndReply(before, []);
    assert before[..3][..2][..1] == before[..1];
    assert before[..3][..2] == before[..2];
    assert before[..|before| - 1] == before[..3];
    assert Text(before[..1]) == "A" by { assert before[..1][..0] == []; }
    assert Text(before[..2]) == "AB";
    assert Text(before[..3]) == "AB";
    assert Text(before) == "ABC";
    assert LastSources(before) == [doc];
  }

  /** A fragment then an `error`: the fragment is discarded. */
  lemma ErrorExample()
    ensures OneShotReply([Data(Response("A")), Error("boom")]) == Some(Reply(500, Message("boom")))
  {
    ErrorReply([Data(Response("A"))], "boom", []);
    assert [Data(Response("A"))] + [Error("boom")] + [] == [Data(Response("A")), Error("boom")];
  }

  /** A missing or empty `focusMode` or `query` is refused before any provider is listed. */
  lemma MissingFieldsRefused(body: Request, chatResults: seq<LoaderResult>, embeddingResults: seq<LoaderResult>, focusModes: set<string>)
    requires |chatResults| == |ChatLoaders| && |embeddingResults| == |EmbeddingLoaders|
    requires !Truthy(body.focusMode) || !Truthy(body.query)
    ensures SearchSetup(body, chatResults, embeddingResults, focusModes) == Reject(Reply(400, Message(MissingFields)))
  {
  }

  /** A rejected loader ends in the catch-all 500. */
  lemma ListingFailure(body: Request, chatResults: seq<LoaderResult>, embeddingResults: seq<LoaderResult>, focusModes: set<string>, i: nat)
    requires |chatResults| == |ChatLoaders| && |embeddingResults| == |EmbeddingLoaders|
    requires Validate(body).None?
    requires (i < |chatResults| && chatResults[i].Rejected?) || (i < |embeddingResults| && embeddingResults[i].Rejected?)
    ensures SearchSetup(body, chatResults, embeddingResults, focusModes) == Reject(Reply(500, Message(InternalError)))
  {
    ChatCatalogShape(chatResults);
    EmbeddingCatalogShape(embeddingResults);
  }

  /**
   * An unknown chat provider with an omitted model makes `Object.keys(undefined)`
   * throw, which ends in the catch-all 500.
   */
  lemma UnknownChatProvider(body: Request, chat: Catalog, embedding: Catalog, focusModes: set<string>)
    requires Truthy(ChatProvider(body)) && ChatProvider(body).value !in Keys(chat) && !Truthy(ChatModelName(body))
    ensures Prepare(body, chat, embedding, focusModes) == Reject(Reply(500, Message(InternalError)))
  {
  }

  /** The same holds for an unknown embedding provider. */
  lemma UnknownEmbeddingProvider(body: Request, chat: Catalog, embedding: Catalog, focusModes: set<string>)
    requires Truthy(EmbeddingProvider(body)) && EmbeddingProvider(body).value !in Keys(embedding) && !Truthy(EmbeddingModelName(body))
    ensures Prepare(body, chat, embedding, focusModes) == Reject(Reply(500, Message(InternalError)))
  {
  }

  /** An explicit `custom_openai` provider without both a base URL and a key is refused. */
  lemma CustomWithoutCredentials(body: Request, chat: Catalog, embedding: Catalog, focusModes: set<string>)
    requires ChatProvider(body) == Some(CustomOpenAI)
    requires Select(ChatProvider(body), ChatModelName(body), chat).Some?
    requires Select(EmbeddingProvider(body), EmbeddingModelName(body), embedding).Some?
    requires !Truthy(body.chatModel.value.customOpenAIBaseURL) || !Truthy(body.chatModel.value.customOpenAIKey)
    ensures Prepare(body, chat, embedding, focusModes) == Reject(Reply(400, Message(MissingCustom)))
  {
  }

  /**
   * A dispatched `custom_openai` request runs on a fresh handle built from the
   * body's own model name, key and URL at temperature 0.3; any other provider
   * runs on exactly the handle stored at `[provider][model]`. The embedding
   * handle is always the stored one.
   */
  lemma DispatchedHandles(body: Request, chat: Catalog, embedding: Catalog, focusModes: set<string>)
    requires Prepare(body, chat, embedding, focusModes).Dispatch?
    ensures var call := Prepare(body, chat, embedding, focusModes).call;
      && Select(ChatProvider(body), ChatModelName(body), chat).Some?
      && Select(EmbeddingProvider(body), EmbeddingModelName(body), embedding).Some?
      && (ChatProvider(body) == Some(CustomOpenAI) ==>
            call.llm == Custom(body.chatModel.value.model, body.chatModel.value.customOpenAIKey,
                               body.chatModel.value.customOpenAIBaseURL, 0.3))
      && (ChatProvider(body) != Some(CustomOpenAI) ==>
            StoredModel(chat, Select(ChatProvider(body), ChatModelName(body), chat).value) == Some(call.llm))
      && StoredModel(embedding, Select(EmbeddingProvider(body), EmbeddingModelName(body), embedding).value) == Some(call.embeddings)
  {
  }

  /**
   * A request naming a provider other than `custom_openai` and a model, both
   * present in well-formed catalogs, runs on exactly the stored handles, and
   * is refused with "Invalid model selected" when either entry has no handle.
   */
  lemma ResolveFromCatalog(body: Request, chat: Catalog, embedding: Catalog, cp: nat, cm: nat, ep: nat, em: nat)
    requires UniqueKeys(chat) && cp < |chat| && UniqueKeys(chat[cp].1) && cm < |chat[cp].1|
    requires UniqueKeys(embedding) && ep < |embedding| && UniqueKeys(embedding[ep].1) && em < |embedding[ep].1|
    requires ChatProvider(body) == Some(chat[cp].0) && chat[cp].0 != "" && chat[cp].0 != CustomOpenAI
    requires ChatModelName(body) == Some(chat[cp].1[cm].0) && chat[cp].1[cm].0 != ""
    requires EmbeddingProvider(body) == Some(embedding[ep].0) && embedding[ep].0 != ""
    requires EmbeddingModelName(body) == Some(embedding[ep].1[em].0) && embedding[ep].1[em].0 != ""
    ensures var llm, embeddings := chat[cp].1[cm].1.model, embedding[ep].1[em].1.model;
      Resolve(body, chat, embedding) ==
        if llm.Some? && embeddings.Some? then Ready(llm.value, embeddings.value)
        else Failed(Reply(400, Message(InvalidModel)))
  {
    RequestedKept(ChatProvider(body), ChatModelName(body), chat);
    RequestedKept(EmbeddingProvider(body), EmbeddingModelName(body), embedding);
    EntryExact(chat, cp, cm);
    EntryExact(embedding, ep, em);
  }

  /** A selection present in the catalog with a stored handle resolves; one absent from it is refused. */
  lemma InvalidModelRefused(body: Request, chat: Catalog, embedding: Catalog, focusModes: set<string>)
    requires ChatProvider(body) != Some(CustomOpenAI)
    requires Select(ChatProvider(body), ChatModelName(body), chat).Some?
    requires Select(EmbeddingProvider(body), EmbeddingModelName(body), embedding).Some?
    ensures Resolve(body, chat, embedding).Failed? <==>
      || StoredModel(chat, Select(ChatProvider(body), ChatModelName(body), chat).value).None?
      || StoredModel(embedding, Select(EmbeddingProvider(body), EmbeddingModelName(body), embedding).value).None?
    ensures Resolve(body, chat, embedding).Failed? ==>
      Prepare(body, chat, embedding, focusModes) == Reject(Reply(400, Message(InvalidModel)))
  {
  }

  /**
   * The focus mode is looked up only after both models resolved: a model
   * failure wins over an unknown focus mode, and an unknown focus mode then
   * invokes no handler.
   */
  lemma FocusCheckedLast(body: Request, chat: Catalog, embedding: Catalog, focusModes: set<string>)
    ensures Resolve(body, chat, embedding).Failed? ==>
      Prepare(body, chat, embedding, focusModes) == Reject(Resolve(body, chat, embedding).reply)
    ensures Resolve(body, chat, embedding).Ready? && body.focusMode.GetOr("") !in focusModes ==>
      Prepare(body, chat, embedding, focusModes) == Reject(Reply(400, Message(InvalidFocus)))
    ensures Prepare(body, chat, embedding, focusModes).Dispatch? <==>
      Resolve(body, chat, embedding).Ready? && body.focusMode.GetOr("") in focusModes
  {
  }

  /** The handler receives the converted history and the defaulted optimization mode. */
  lemma DispatchedArguments(body: Request, chat: Catalog, embedding: Catalog, focusModes: set<string>)
    requires Prepare(body, chat, embedding, focusModes).Dispatch?
    ensures var call := Prepare(body, chat, embedding, focusModes).call;
      && call.history == ConvertHistory(body.history.GetOr([]))
      && call.optimizationMode == (if Truthy(body.optimizationMode) then body.optimizationMode.value else "balanced")
      && call.focusMode == body.focusMode.GetOr("") && call.query == body.query.GetOr("")
  {
  }

  // ---------------------------------------------------------------- the route

  /**
   * The `POST /` handler. `chatResults` and `embeddingResults` are how the
   * provider loaders settle, `focusModes` the keys of the handler table and
   * `events` what the chosen handler emits. `listed` says whether the
   * providers were listed at all, `call` how the handler was invoked.
   */
  method HandleSearch(body: Request, chatResults: seq<LoaderResult>, embeddingResults: seq<LoaderResult>,
                      focusModes: set<string>, events: seq<Event>)
    returns (reply: Option<Reply<Body>>, listed: bool, call: Option<HandlerCall>)
    requires |chatResults| == |ChatLoaders| && |embeddingResults| == |EmbeddingLoaders|
    ensures listed <==> Validate(body).None?
    ensures SearchSetup(body, chatResults, embeddingResults, focusModes).Reject? ==>
      reply == Some(SearchSetup(body, chatResults, embeddingResults, focusModes).reply) && call.None?
    ensures SearchSetup(body, chatResults, embeddingResults, focusModes).Dispatch? ==>
      call == Some(SearchSetup(body, chatResults, embeddingResults, focusModes).call) && reply == OneShotReply(events)
  {
    var invalid := Validate(body);
    if invalid.Some? {
      return invalid, false, None;
    }
    listed := true;
    var chat := GetAvailableChatModelProviders(chatResults);
    var embedding := GetAvailableEmbeddingModelProviders(embeddingResults);
    if chat.None? || embedding.None? {
      return Some(Reply(500, Message(InternalError))), listed, None;
    }
    var setup := Prepare(body, chat.value, embedding.value, focusModes);
    if setup.Reject? {
      return Some(setup.reply), listed, None;
    }
    call := Some(setup.call);
    reply := CollectReply(events);
  }
}

/**
 * WebSocket connection setup (src/websocket/connectionManager.ts): the
 * search parameters pick the models, a failure sends error frames and closes
 * the socket, and a success installs a heartbeat that announces
 * `{type: 'signal', data: 'open'}` once and a listener that forwards every
 * inbound message to the message handler.
 */
module ConnectionManager {
  import opened Wrappers
  import opened Assoc
  import opened Providers
  import opened Resolution

  /** The `ws` socket's `readyState`. */
  datatype ReadyState = Connecting | Open | Closing | Closed

  /** A JSON frame passed to `ws.send`. */
  datatype Frame = ErrorFrame(data: string, key: string) | Signal(data: string)

  const InvalidModelFrame := ErrorFrame(
    "Invalid LLM or embeddings model selected, please refresh the page and try again.", "INVALID_MODEL_SELECTED")
  const InternalErrorFrame := ErrorFrame("Internal server error.", "INTERNAL_SERVER_ERROR")
  const OpenSignal := Signal("open")

  /** The temperature of a custom OpenAI model built by the WebSocket route. */
  const CustomTemperature: real := 0.7

  /**
   * The upgrade request: its raw `url` and the query of that URL as parsed
   * `(name, value)` pairs in order.
   */
  datatype UpgradeRequest = UpgradeRequest(url: Option<string>, query: seq<(string, string)>)

  /** `searchParams.get(name)`: the first value under `name`, or `null`. */
  function Param(query: seq<(string, string)>, name: string): (r: Option<string>)
    ensures r.Some? ==> (name, r.value) in query
    ensures r.None? ==> forall i :: 0 <= i < |query| ==> query[i].0 != name
  {
    if query == [] then None
    else if query[0].0 == name then Some(query[0].1)
    else Param(query[1..], name)
  }

  /** A message handed to `handleMessage` with the connection's models. */
  datatype Forward = Forward(message: string, llm: Handle, embeddings: Handle)

  /** How connection setup ends. `Thrown` is an exception that went straight to the catch. */
  datatype SetupOutcome = Thrown | InvalidModels | Ready(llm: Handle, embeddings: Handle)

  /**
   * The chat handle: the stored `model` for a catalog entry of a provider other
   * than `custom_openai`; for `custom_openai` a fresh handle with no
   * credential check; `undefined` otherwise.
   */
  function SessionChatModel(query: seq<(string, string)>, chat: Catalog, selection: Selection): Option<Handle> {
    if Entry(chat, selection).Some? && selection.provider != Some(CustomOpenAI) then Entry(chat, selection).value.model
    else if selection.provider == Some(CustomOpenAI) then
      Some(Custom(selection.model, Or(Param(query, "openAIApiKey"), None), Param(query, "openAIBaseURL"), CustomTemperature))
    else None
  }

  /** The embedding handle: the stored `model` of the catalog entry, if any. */
  function SessionEmbeddingModel(embedding: Catalog, selection: Selection): Option<Handle> {
    match Entry(embedding, selection)
    case None => None
    case Some(d) => d.model
  }

  /** Setup given both catalogs: defaults for the four parameters, then both handles. */
  function ResolveSession(query: seq<(string, string)>, chat: Catalog, embedding: Catalog): SetupOutcome {
    var chatSelection := Select(Param(query, "chatModelProvider"), Param(query, "chatModel"), chat);
    var embeddingSelection := Select(Param(query, "embeddingModelProvider"), Param(query, "embeddingModel"), embedding);
    if chatSelection.None? || embeddingSelection.None? then Thrown
    else
      var llm := SessionChatModel(query, chat, chatSelection.value);
      var embeddings := SessionEmbeddingModel(embedding, embeddingSelection.value);
      if llm.None? || embeddings.None? then InvalidModels else Ready(llm.value, embeddings.value)
  }

  /** How `handleConnection` ends for a request and the loaders' settled values. */
  function SessionSetup(request: UpgradeRequest, chatResults: seq<LoaderResult>, embeddingResults: seq<LoaderResult>): SetupOutcome
    requires |chatResults| == |ChatLoaders| && |embeddingResults| == |EmbeddingLoaders|
  {
    if !Truthy(request.url) then Thrown
    else match (ChatCatalog(chatResults), EmbeddingCatalog(embeddingResults))
      case (Some(chat), Some(embedding)) => ResolveSession(request.query, chat, embedding)
      case _ => Thrown
  }

  /** The frames setup sends: the catch's frame, preceded on the invalid-model path by its own. */
  function SetupFrames(outcome: SetupOutcome): seq<Frame> {
    match outcome
    case Thrown => [InternalErrorFrame]
    case InvalidModels => [InvalidModelFrame, InternalErrorFrame]
    case Ready(_, _) => []
  }

  /** The number of `ws.close()` calls setup makes. */
  function SetupCloses(outcome: SetupOutcome): nat {
    match outcome
    case Thrown => 1
    case InvalidModels => 2
    case Ready(_, _) => 0
  }

  /** A WebSocket as the connection code sees it: its state, the frames sent and the `close()` calls. */
  class Socket {
    var readyState: ReadyState
    var sent: seq<Frame>
    var closeCalls: nat

    constructor (state: ReadyState)
      ensures readyState == state && sent == [] && closeCalls == 0
    {
      readyState, sent, closeCalls := state, [], 0;
    }

    /** `ws.send(JSON.stringify(frame))`. */
    method Send(frame: Frame)
      modifies this
      ensures sent == old(sent) + [frame]
      ensures readyState == old(readyState) && closeCalls == old(closeCalls)
    {
      sent := sent + [frame];
    }

    /** `ws.close()`: the closing handshake starts unless the socket is already closed. */
    method Close()
      modifies this
      ensures closeCalls == old(closeCalls) + 1
      ensures readyState == if old(readyState) == Closed then Closed else Closing
      ensures sent == old(sent)
    {
      closeCalls := closeCalls + 1;
      if readyState != Closed {
        readyState := Closing;
      }
    }

    /** The peer or the network moves the socket to another state. */
    method Become(state: ReadyState)
      modifies this
      ensures readyState == state && sent == old(sent) && closeCalls == old(closeCalls)
    {
      readyState := state;
    }
  }

  /**
   * The part of `handleConnection` before any frame is sent: the URL check,
   * both listings, the four defaults and the two handles.
   */
  method Establish(request: UpgradeRequest, chatResults: seq<LoaderResult>, embeddingResults: seq<LoaderResult>)
    returns (outcome: SetupOutcome)
    requires |chatResults| == |ChatLoaders| && |embeddingResults| == |EmbeddingLoaders|
    ensures outcome == SessionSetup(request, chatResults, embeddingResults)
  {
    if !Truthy(request.url) {
      return Thrown;
    }
    var chat := GetAvailableChatModelProviders(chatResults);
    if chat.None? {
      return Thrown;
    }
    var embedding := GetAvailableEmbeddingModelProviders(embeddingResults);
    if embedding.None? {
      return Thrown;
    }
    var query := request.query;
    var chatSelection := Select(Param(query, "chatModelProvider"), Param(query, "chatModel"), chat.value);
    if chatSelection.None? {
      return Thrown;
    }
    var embeddingSelection := Select(Param(query, "embeddingModelProvider"), Param(query, "embeddingModel"), embedding.value);
    if embeddingSelection.None? {
      return Thrown;
    }
    var llm := SessionChatModel(query, chat.value, chatSelection.value);
    var embeddings := SessionEmbeddingModel(embedding.value, embeddingSelection.value);
    if llm.None? || embeddings.None? {
      return InvalidModels;
    }
    return Ready(llm.value, embeddings.value);
  }

  /** What one `handleConnection` call leaves installed on the socket. */
  class Connection {
    const ws: Socket
    /** The heartbeat interval is still scheduled. */
    var heartbeatActive: bool
    /** The `message` listener is installed. */
    var listening: bool
    var llm: Option<Handle>
    var embeddings: Option<Handle>
    /** The calls made to `handleMessage`, in order. */
    var forwarded: seq<Forward>
    /** The frames on the socket when setup returned. */
    ghost var setupSent: seq<Frame>

    /**
     * The heartbeat and the listener exist only after a successful setup; from
     * then on the connection code itself sends nothing on the socket but the
     * one `signal` frame, when the heartbeat stopped (message replies are
     * the handler's, which is not part of this model).
     */
    ghost predicate Valid()
      reads this, ws
    {
      && (heartbeatActive ==> listening)
      && (listening <==> llm.Some? && embeddings.Some?)
      && (listening ==> ws.sent == setupSent + (if heartbeatActive then [] else [OpenSignal]))
    }

    /**
     * The rest of `handleConnection` once `Establish` has decided the outcome:
     * the invalid-model frame and close, the catch block's frame and close,
     * or the heartbeat and the listener.
     */
    constructor (ws: Socket, outcome: SetupOutcome)
      modifies ws
      ensures this.ws == ws && Valid() && forwarded == []
      ensures ws.sent == old(ws.sent) + SetupFrames(outcome)
      ensures ws.closeCalls == old(ws.closeCalls) + SetupCloses(outcome)
      ensures outcome.Ready? ==> ws.readyState == old(ws.readyState)
      ensures !outcome.Ready? ==> ws.readyState == if old(ws.readyState) == Closed then Closed else Closing
      ensures heartbeatActive <==> outcome.Ready?
      ensures listening <==> outcome.Ready?
      ensures outcome.Ready? ==> llm == Some(outcome.llm) && embeddings == Some(outcome.embeddings)
    {
      this.ws := ws;
      heartbeatActive, listening, llm, embeddings, forwarded := false, false, None, None, [];
      setupSent := ws.sent;
      new;
      if outcome.InvalidModels? {
        ws.Send(InvalidModelFrame);
        ws.Close();
      }
      if outcome.Ready? {
        heartbeatActive, listening := true, true;
        llm, embeddings := Some(outcome.llm), Some(outcome.embeddings);
      } else {
        // the catch block
        ws.Send(InternalErrorFrame);
        ws.Close();
      }
      setupSent := ws.sent;
    }

    /** One tick of the 5 ms interval: announce the open socket once, then clear the interval. */
    method Poll()
      requires Valid()
      modifies ws, this`heartbeatActive
      ensures Valid()
      ensures old(heartbeatActive) && old(ws.readyState) == Open ==>
        ws.sent == old(ws.sent) + [OpenSignal] && !heartbeatActive
      ensures !(old(heartbeatActive) && old(ws.readyState) == Open) ==>
        ws.sent == old(ws.sent) && heartbeatActive == old(heartbeatActive)
      ensures ws.readyState == old(ws.readyState) && ws.closeCalls == old(ws.closeCalls)
    {
      if heartbeatActive && ws.readyState == Open {
        ws.Send(OpenSignal);
        heartbeatActive := false;
      }
    }

    /**
     * Ticks of the interval while the socket passes through `states`: the
     * signal goes out at the first tick that finds the socket open, and
     * never again.
     */
    method Heartbeat(states: seq<ReadyState>)
      requires Valid()
      modifies ws, this`heartbeatActive
      ensures Valid()
      ensures old(heartbeatActive) && Open in states ==> ws.sent == old(ws.sent) + [OpenSignal] && !heartbeatActive
      ensures !(old(heartbeatActive) && Open in states) ==> ws.sent == old(ws.sent) && heartbeatActive == old(heartbeatActive)
      ensures ws.closeCalls == old(ws.closeCalls)
      ensures ws.readyState == if |states| > 0 then states[|states| - 1] else old(ws.readyState)
    {
      for i := 0 to |states|
        invariant Valid()
        invariant ws.closeCalls == old(ws.closeCalls)
        invariant ws.readyState == if i > 0 then states[i - 1] else old(ws.readyState)
        invariant old(heartbeatActive) && Open in states[..i] ==> ws.sent == old(ws.sent) + [OpenSignal] && !heartbeatActive
        invariant !(old(heartbeatActive) && Open in states[..i]) ==> ws.sent == old(ws.sent) && heartbeatActive == old(heartbeatActive)
      {
        ws.Become(states[i]);
        Poll();
        assert states[..i + 1] == states[..i] + [states[i]];
      }
      assert states[..|states|] == states;
    }

    /** The `message` listener: forward the message with the resolved models. */
    method OnMessage(message: string)
      requires Valid()
      modifies this`forwarded
      ensures Valid()
      ensures listening ==> forwarded == old(forwarded) + [Forward(message, llm.value, embeddings.value)]
      ensures !listening ==> forwarded == old(forwarded)
    {
      if listening {
        forwarded := forwarded + [Forward(message, llm.value, embeddings.value)];
      }
    }
  }

  /** `handleConnection(ws, request)`, with the loaders' settled values. */
  method HandleConnection(ws: Socket, request: UpgradeRequest, chatResults: seq<LoaderResult>, embeddingResults: seq<LoaderResult>)
    returns (c: Connection)
    requires |chatResults| == |ChatLoaders| && |embeddingResults| == |EmbeddingLoaders|
    modifies ws
    ensures c.ws == ws && c.Valid() && c.forwarded == []
    ensures ws.sent == old(ws.sent) + SetupFrames(SessionSetup(request, chatResults, embeddingResults))
    ensures ws.closeCalls == old(ws.closeCalls) + SetupCloses(SessionSetup(request, chatResults, embeddingResults))
    ensures !SessionSetup(request, chatResults, embeddingResults).Ready? ==>
      ws.readyState == if old(ws.readyState) == Closed then Closed else Closing
    ensures c.heartbeatActive <==> SessionSetup(request, chatResults, embeddingResults).Ready?
    ensures c.listening <==> SessionSetup(request, chatResults, embeddingResults).Ready?
    ensures SessionSetup(request, chatResults, embeddingResults).Ready? ==>
      && ws.readyState == old(ws.readyState)
      && c.llm == Some(SessionSetup(request, chatResults, embeddingResults).llm)
      && c.embeddings == Some(SessionSetup(request, chatResults, embeddingResults).embeddings)
  {
    var outcome := Establish(request, chatResults, embeddingResults);
    c := new Connection(ws, outcome);
  }

  // ------------------------------------------------------------------ properties

  /** A request without a URL gets exactly the internal-error frame and one close; never a signal. */
  lemma NoUrl(request: UpgradeRequest, chatResults: seq<LoaderResult>, embeddingResults: seq<LoaderResult>)
    requires |chatResults| == |ChatLoaders| && |embeddingResults| == |EmbeddingLoaders|
    requires !Truthy(request.url)
    ensures SessionSetup(request, chatResults, embeddingResults) == Thrown
    ensures SetupFrames(Thrown) == [ErrorFrame("Internal server error.", "INTERNAL_SERVER_ERROR")]
    ensures SetupCloses(Thrown) == 1
  {
  }

  /** No setup path sends a `signal` frame. */
  lemma SetupSendsNoSignal(outcome: SetupOutcome)
    ensures forall i :: 0 <= i < |SetupFrames(outcome)| ==> SetupFrames(outcome)[i].ErrorFrame?
    ensures OpenSignal !in SetupFrames(outcome)
  {
  }

  /**
   * The invalid-model path sends its own error frame and then, because the
   * thrown error reaches the catch, the internal-error frame, closing
   * twice.
   */
  lemma InvalidModelPath()
    ensures SetupFrames(InvalidModels) == [
      ErrorFrame("Invalid LLM or embeddings model selected, please refresh the page and try again.", "INVALID_MODEL_SELECTED"),
      ErrorFrame("Internal server error.", "INTERNAL_SERVER_ERROR")]
    ensures SetupCloses(InvalidModels) == 2
  {
  }

  /** A parameter that is absent or empty falls back to the first provider, then its first model. */
  lemma SessionDefaults(query: seq<(string, string)>, chat: Catalog)
    requires !Truthy(Param(query, "chatModelProvider")) && !Truthy(Param(query, "chatModel")) && |chat| > 0
    ensures Select(Param(query, "chatModelProvider"), Param(query, "chatModel"), chat)
      == Some(Selection(Some(chat[0].0), FirstKey(chat[0].1)))
  {
    DefaultSelection(Param(query, "chatModelProvider"), Param(query, "chatModel"), chat);
  }

  /** The same fallback for the embedding parameters. */
  lemma SessionEmbeddingDefaults(query: seq<(string, string)>, embedding: Catalog)
    requires !Truthy(Param(query, "embeddingModelProvider")) && !Truthy(Param(query, "embeddingModel")) && |embedding| > 0
    ensures Select(Param(query, "embeddingModelProvider"), Param(query, "embeddingModel"), embedding)
      == Some(Selection(Some(embedding[0].0), FirstKey(embedding[0].1)))
  {
    DefaultSelection(Param(query, "embeddingModelProvider"), Param(query, "embeddingModel"), embedding);
  }

  /** The first occurrence of a parameter wins. */
  lemma {:induction false} ParamFirst(query: seq<(string, string)>, i: nat, name: string)
    requires i < |query| && query[i].0 == name && forall j :: 0 <= j < i ==> query[j].0 != name
    ensures Param(query, name) == Some(query[i].1)
  {
    if i > 0 {
      ParamFirst(query[1..], i - 1, name);
    }
  }

  /**
   * `custom_openai` always builds a handle at temperature 0.7 from the
   * `chatModel` selection, the `openAIApiKey` parameter (or `undefined` when
   * it is empty) and the `openAIBaseURL` parameter, with no credential check.
   */
  lemma CustomSessionModel(query: seq<(string, string)>, chat: Catalog, selection: Selection)
    requires selection.provider == Some(CustomOpenAI)
    ensures SessionChatModel(query, chat, selection) ==
      Some(Custom(selection.model, if Truthy(Param(query, "openAIApiKey")) then Param(query, "openAIApiKey") else None,
                  Param(query, "openAIBaseURL"), 0.7))
  {
  }

  /** Any other provider yields exactly the stored handle of its entry, or nothing. */
  lemma StoredSessionModel(query: seq<(string, string)>, chat: Catalog, selection: Selection)
    requires selection.provider != Some(CustomOpenAI)
    ensures SessionChatModel(query, chat, selection) ==
      if Entry(chat, selection).Some? then Entry(chat, selection).value.model else None
  {
  }

  /** Setup succeeds exactly when both selections are made and both handles exist. */
  lemma ResolveSessionReady(query: seq<(string, string)>, chat: Catalog, embedding: Catalog)
    ensures ResolveSession(query, chat, embedding).Ready? <==>
      && Select(Param(query, "chatModelProvider"), Param(query, "chatModel"), chat).Some?
      && Select(Param(query, "embeddingModelProvider"), Param(query, "embeddingModel"), embedding).Some?
      && SessionChatModel(query, chat, Select(Param(query, "chatModelProvider"), Param(query, "chatModel"), chat).value).Some?
      && SessionEmbeddingModel(embedding, Select(Param(query, "embeddingModelProvider"), Param(query, "embeddingModel"), embedding).value).Some?
  {
  }
}

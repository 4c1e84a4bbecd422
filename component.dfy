/**
 * The actor's entry points: initialisation, request routing, and the
 * supervisor and channel handlers. Host effects come in as parameters:
 * `spawn` and `send` are the host's answers to each call, and the sends a
 * request attempts are returned, in order, as a trace.
 */
module Component {
  import opened Wrappers
  import opened Json
  import Protocol
  import opened GitChat
  import opened Config

  /** A persisted state slot as the host hands it over: absent, or some bytes. */
  type Persisted = Option<Payload<GitChatState>>

  /** One message sent to another actor through the host. */
  datatype Send = Send(target: string, request: Protocol.ChatStateRequest)

  /** The host's `send`: accepted, or the debug text of its error. */
  type SendHost = Send -> Result<(), string>

  /** A supervised child's error, opaque here. */
  datatype ActorError = ActorError(description: string)

  /** The answer to a channel-open request. */
  datatype ChannelAccept = ChannelAccept(accepted: bool, message: Option<string>)

  /** A response together with the sends that were attempted to produce it. */
  datatype Routed = Routed(response: GitChatResponse, sends: seq<Send>)

  /** What `handle_request` gives back: the new state slot, the response, the sends. */
  datatype RequestReply = RequestReply(state: Persisted, response: GitChatResponse, sends: seq<Send>)

  const SpawnChildFailedPrefix: string := "Failed to spawn chat state actor: "
  const NoStateAvailable: string := "No state available"
  const DeserializeFailedPrefix: string := "Failed to deserialize git state: "
  const ParseFailedPrefix: string := "Failed to parse request: "
  const ForwardFailedPrefix: string := "Failed to forward message: "
  const GenerationFailedPrefix: string := "Failed to send generation request: "

  /**
   * Initialisation: build the git configuration, spawn the chat-state child
   * with it, and persist a state whose child id is the spawned one. A spawn
   * failure fails initialisation and persists nothing.
   */
  method Init(initState: Option<Bytes>, actorId: string, spawn: SpawnHost)
    returns (r: Result<Persisted, string>)
    ensures r.Err? <==> spawn(ChatStateSpawnCall(GitOptimizedConfig())).Err?
    ensures r.Err? ==> SpawnChildFailedPrefix <= r.error
    ensures r.Err? ==>
      r.error == SpawnChildFailedPrefix + SpawnFailedPrefix + spawn(ChatStateSpawnCall(GitOptimizedConfig())).error
    // on success the persisted state holds this actor's id, the spawned child's id and the config
    ensures r.Ok? ==>
      var spawned := spawn(ChatStateSpawnCall(GitOptimizedConfig()));
      spawned.Ok? && r.value == Some(Encoded(GitChatState(actorId, Some(spawned.value), GitOptimizedConfig())))
  {
    var gitConfig := GitOptimizedConfig();
    var gitState := GitChatState.New(actorId, gitConfig);
    var spawned := SpawnChatStateActor(gitConfig, spawn);
    match spawned {
      case Ok(chatActorId) =>
        gitState := gitState.SetChatStateActorId(chatActorId);
      case Err(e) =>
        return Err(SpawnChildFailedPrefix + e);
    }
    return Ok(Some(Encoded(gitState)));
  }

  /** The two sends forwarding a message asks for, in the order they are made. */
  function ForwardPlan(chatActorId: string, message: Protocol.Message): (plan: seq<Send>)
    ensures |plan| == 2
    ensures plan[0] == Send(chatActorId, Protocol.AddMessage(message))
    ensures plan[1] == Send(chatActorId, Protocol.GenerateCompletion)
  {
    [Send(chatActorId, Protocol.AddMessage(message)), Send(chatActorId, Protocol.GenerateCompletion)]
  }

  /**
   * Forwards a message to the child, then asks it to generate a completion;
   * stops at the first send the host refuses.
   */
  function ForwardMessage(chatActorId: string, message: Protocol.Message, send: SendHost): (r: Routed)
    // the attempted sends are a non-empty prefix of the plan ...
    ensures 1 <= |r.sends| <= 2 && r.sends == ForwardPlan(chatActorId, message)[..|r.sends|]
    // ... every send but the last one succeeded, and the run stopped early only on a failure
    ensures forall i :: 0 <= i < |r.sends| - 1 ==> send(r.sends[i]).Ok?
    ensures |r.sends| == 1 ==> send(r.sends[0]).Err?
    // success exactly when every attempted send succeeded, that is, both of them
    ensures r.response == Success <==> (|r.sends| == 2 && send(r.sends[0]).Ok? && send(r.sends[1]).Ok?)
    ensures r.response != Success ==> r.response.Error?
    // the error names the step that failed and carries the host's error
    ensures |r.sends| == 1 ==> r.response == Error(ForwardFailedPrefix + send(r.sends[0]).error)
    ensures |r.sends| == 2 && send(r.sends[1]).Err? ==>
      r.response == Error(GenerationFailedPrefix + send(r.sends[1]).error)
  {
    var addMessage := Send(chatActorId, Protocol.AddMessage(message));
    match send(addMessage)
    case Err(e) => Routed(Error(ForwardFailedPrefix + e), [addMessage])
    case Ok(_) =>
      var generate := Send(chatActorId, Protocol.GenerateCompletion);
      match send(generate)
      case Err(e) => Routed(Error(GenerationFailedPrefix + e), [addMessage, generate])
      case Ok(_) => Routed(Success, [addMessage, generate])
  }

  /** Answers one decoded request against a decoded state. */
  function Dispatch(gitState: GitChatState, request: GitChatRequest, send: SendHost): (r: Routed)
    ensures request.GetChatStateActorId? ==> r.sends == []
    ensures request.GetChatStateActorId? ==>
      (r.response.ChatStateActorId? <==> gitState.chatStateActorId.Some?)
    ensures request.GetChatStateActorId? && gitState.chatStateActorId.Some? ==>
      r.response == ChatStateActorId(gitState.chatStateActorId.value)
    ensures gitState.chatStateActorId.None? ==>
      r.response == Error(NotInitialized) && r.sends == []
    ensures request.AddMessage? && gitState.chatStateActorId.Some? ==>
      r == ForwardMessage(gitState.chatStateActorId.value, request.message, send)
    // every send goes to the stored child
    ensures forall i :: 0 <= i < |r.sends| ==> Some(r.sends[i].target) == gitState.chatStateActorId
  {
    match request
    case GetChatStateActorId =>
      (match gitState.GetChatStateActorId()
       case Ok(actorId) => Routed(ChatStateActorId(actorId), [])
       case Err(e) => Routed(Error(e), []))
    case AddMessage(message) =>
      match gitState.GetChatStateActorId()
      case Ok(chatActorId) => ForwardMessage(chatActorId, message, send)
      case Err(e) => Routed(Error(e), [])
  }

  /**
   * `handle_request`: decode the state, then the request, then dispatch.
   * A missing or undecodable state is dropped; otherwise the state is handed
   * back exactly as it came.
   */
  function HandleRequest(state: Persisted, requestId: string, data: Payload<GitChatRequest>, send: SendHost)
    : (r: RequestReply)
    // the state is lost exactly when it could not be decoded, and is otherwise kept as it is
    ensures r.state.Some? <==> (state.Some? && state.value.Encoded?)
    ensures r.state.Some? ==> r.state == state
    ensures state == None ==> r.response == Error(NoStateAvailable)
    ensures state.Some? && state.value.Malformed? ==>
      r.response == Error(DeserializeFailedPrefix + state.value.reason)
    ensures state.Some? && state.value.Encoded? && data.Malformed? ==>
      r.response == Error(ParseFailedPrefix + data.reason)
    // sends happen only for a decoded state and a decoded request
    ensures r.sends != [] ==> state.Some? && state.value.Encoded? && data.Encoded?
    ensures state.Some? && state.value.Encoded? && data.Encoded? ==>
      Routed(r.response, r.sends) == Dispatch(state.value.value, data.value, send)
  {
    match state
    case None => RequestReply(None, Error(NoStateAvailable), [])
    case Some(Malformed(e)) => RequestReply(None, Error(DeserializeFailedPrefix + e), [])
    case Some(Encoded(gitState)) =>
      match data
      case Malformed(e) => RequestReply(state, Error(ParseFailedPrefix + e), [])
      case Encoded(request) =>
        var routed := Dispatch(gitState, request, send);
        RequestReply(state, routed.response, routed.sends)
  }

  /** `handle_send`: the message is ignored and the state kept. */
  function HandleSend(state: Persisted, data: Bytes): (r: Persisted)
    ensures r == state
  {
    state
  }

  /** `handle_child_error`: informational only, the state is kept. */
  function HandleChildError(state: Persisted, childId: string, error: ActorError): (r: Persisted)
    ensures r == state
  {
    state
  }

  /** `handle_child_exit`: informational only, the state is kept. */
  function HandleChildExit(state: Persisted, childId: string, exitState: Option<Bytes>): (r: Persisted)
    ensures r == state
  {
    state
  }

  /** `handle_channel_open`: every channel is accepted, with no message. */
  function HandleChannelOpen(state: Persisted, channelId: string, data: Bytes): (r: (Persisted, ChannelAccept))
    ensures r.0 == state
    ensures r.1.accepted && r.1.message == None
  {
    (state, ChannelAccept(true, None))
  }

  /** `handle_channel_close`: the state is kept. */
  function HandleChannelClose(state: Persisted, channelId: string): (r: Persisted)
    ensures r == state
  {
    state
  }

  /** `handle_channel_message`: the message is ignored and the state kept. */
  function HandleChannelMessage(state: Persisted, channelId: string, message: Bytes): (r: Persisted)
    ensures r == state
  {
    state
  }
}

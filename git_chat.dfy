/**
 * The actor's external protocol and its persisted state record.
 */
module GitChat {
  import opened Wrappers
  import Json
  import Protocol

  /** Requests the actor answers (serde tag "type"). */
  datatype GitChatRequest =
    | GetChatStateActorId
    | AddMessage(message: Protocol.Message)

  /** Responses the actor returns. */
  datatype GitChatResponse =
    | ChatStateActorId(actorId: string)
    | Success
    | Error(message: string)

  /** The error text of asking for a child id that was never stored. */
  const NotInitialized: string := "Chat state actor not initialized"

  /**
   * The record persisted between invocations: this actor's id, the child's
   * id once it was spawned, and the configuration the child was spawned with.
   * It is a plain value; `set_chat_state_actor_id` is only ever applied to
   * the one owned copy in `init`, so it is modelled as an update of a value.
   */
  datatype GitChatState = GitChatState(
    actorId: string,
    chatStateActorId: Option<string>,
    originalConfig: Json.Value)
  {
    /** A state for a freshly initialised actor: no child yet. */
    static function New(actorId: string, config: Json.Value): (s: GitChatState)
      ensures s.actorId == actorId && s.originalConfig == config
      ensures s.chatStateActorId == None
      ensures s.GetChatStateActorId() == Err(NotInitialized)
    {
      GitChatState(actorId, None, config)
    }

    /** Records the child's id; the other two fields are kept. */
    function SetChatStateActorId(chatActorId: string): (s: GitChatState)
      ensures s.chatStateActorId == Some(chatActorId)
      ensures s.actorId == actorId && s.originalConfig == originalConfig
      ensures s.GetChatStateActorId() == Ok(chatActorId)
    {
      this.(chatStateActorId := Some(chatActorId))
    }

    /** The child's id, or the "not initialized" error when there is none. */
    function GetChatStateActorId(): (r: Result<string, string>)
      ensures r.Ok? <==> chatStateActorId.Some?
      ensures r.Ok? ==> chatStateActorId == Some(r.value)
      ensures r.Err? ==> r.error == NotInitialized
    {
      match chatStateActorId
      case Some(id) => Ok(id)
      case None => Err(NotInitialized)
    }
  }
}

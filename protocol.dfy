/** The messages the chat-state child actor accepts. */
module Protocol {
  import Json

  /** A chat message; its role and content blocks are carried unchanged. */
  datatype Message = Message(body: Json.Value)

  /** The two requests of the child's protocol that the actor sends. */
  datatype ChatStateRequest =
    | AddMessage(message: Message)
    | GenerateCompletion
}

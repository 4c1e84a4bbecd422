/**
 * The host delivers invocations one at a time and persists whatever state
 * slot each handler returns. This module composes the actor's handlers over
 * a sequence of such deliveries, to state what holds across invocations.
 */
module Host {
  import opened Wrappers
  import opened Json
  import opened GitChat
  import opened Config
  import opened Component

  /**
   * One invocation of the actor after `init`. A request carries the host's
   * answers to the sends made while handling it, so the host may answer the
   * same send differently at different invocations.
   */
  datatype Event =
    | Request(requestId: string, request: Payload<GitChatRequest>, send: SendHost)
    | SendMessage(data: Bytes)
    | ChildError(childId: string, error: ActorError)
    | ChildExit(childId: string, exitState: Option<Bytes>)
    | ChannelOpen(channelId: string, data: Bytes)
    | ChannelClose(channelId: string)
    | ChannelMessage(channelId: string, message: Bytes)

  /** What an invocation answers besides its state. */
  datatype Reply = NoReply | Response(response: GitChatResponse) | Accept(accept: ChannelAccept)

  /** The state slot an invocation leaves, its answer, and the sends it attempted. */
  datatype Outcome = Outcome(state: Persisted, reply: Reply, sends: seq<Send>)

  /** A state slot `handle_request` cannot decode. */
  predicate Undecodable(state: Persisted) {
    state.None? || state.value.Malformed?
  }

  /** Hands one event to its handler. */
  function Deliver(state: Persisted, event: Event): (o: Outcome)
    ensures event.Request? <==> o.reply.Response?
    ensures event.ChannelOpen? <==> o.reply.Accept?
    ensures !event.Request? ==> o.state == state && o.sends == []
    ensures event.ChannelOpen? ==> o.reply.accept == ChannelAccept(true, None)
    // a decodable state is handed back as it is, and sends go only to its child
    ensures !Undecodable(state) ==> o.state == state
    ensures !Undecodable(state) ==>
      forall k :: 0 <= k < |o.sends| ==> Some(o.sends[k].target) == state.value.value.chatStateActorId
    // an undecodable one produces nothing but errors
    ensures Undecodable(state) ==> Undecodable(o.state) && o.sends == []
    ensures Undecodable(state) && o.reply.Response? ==> o.reply.response.Error?
  {
    match event
    case Request(requestId, request, send) =>
      var r := HandleRequest(state, requestId, request, send);
      Outcome(r.state, Response(r.response), r.sends)
    case SendMessage(data) => Outcome(HandleSend(state, data), NoReply, [])
    case ChildError(childId, error) => Outcome(HandleChildError(state, childId, error), NoReply, [])
    case ChildExit(childId, exitState) => Outcome(HandleChildExit(state, childId, exitState), NoReply, [])
    case ChannelOpen(channelId, data) =>
      var (s, accept) := HandleChannelOpen(state, channelId, data);
      Outcome(s, Accept(accept), [])
    case ChannelClose(channelId) => Outcome(HandleChannelClose(state, channelId), NoReply, [])
    case ChannelMessage(channelId, message) =>
      Outcome(HandleChannelMessage(state, channelId, message), NoReply, [])
  }

  /**
   * The host's delivery loop: `events` in order, each to the state slot the
   * previous one left; one outcome per event.
   */
  function Run(state: Persisted, events: seq<Event>): (outcomes: seq<Outcome>)
    ensures |outcomes| == |events|
    ensures events != [] ==> outcomes[0] == Deliver(state, events[0])
    ensures forall i :: 0 < i < |events| ==> outcomes[i] == Deliver(outcomes[i - 1].state, events[i])
    decreases |events|
  {
    if events == [] then []
    else
      var first := Deliver(state, events[0]);
      [first] + Run(first.state, events[1..])
  }

  /** The answer an identity query gets from a state that decodes to `s`. */
  function IdentityAnswer(s: GitChatState): (r: GitChatResponse)
    ensures r.ChatStateActorId? <==> s.chatStateActorId.Some?
    ensures s.chatStateActorId.Some? ==> r == ChatStateActorId(s.chatStateActorId.value)
    ensures s.chatStateActorId.None? ==> r == Error(NotInitialized)
  {
    match s.chatStateActorId
    case Some(id) => ChatStateActorId(id)
    case None => Error(NotInitialized)
  }

  /**
   * The `i`-th invocation after a state `s` was persisted hands `s` back
   * unchanged, sends only to its child, and answers an identity query with
   * its child id.
   */
  lemma {:induction false} StableAt(s: GitChatState, events: seq<Event>, i: nat)
    requires i < |events|
    ensures var o := Run(Some(Encoded(s)), events)[i];
      && o.state == Some(Encoded(s))
      && (forall k :: 0 <= k < |o.sends| ==> Some(o.sends[k].target) == s.chatStateActorId)
      && (events[i].Request? && events[i].request == Encoded(GetChatStateActorId) ==>
            o.reply == Response(IdentityAnswer(s)))
    decreases i
  {
    if i > 0 {
      StableAt(s, events, i - 1);
    }
  }

  /**
   * Once a state is persisted, it stays exactly as it is: every invocation
   * hands it back unchanged, so the child id is never changed or cleared,
   * every identity query answers the stored child id, and every send goes
   * to that child.
   */
  lemma {:induction false} PersistedStateIsStable(s: GitChatState, events: seq<Event>)
    ensures var outcomes := Run(Some(Encoded(s)), events);
      forall i :: 0 <= i < |events| ==> outcomes[i].state == Some(Encoded(s))
    ensures var outcomes := Run(Some(Encoded(s)), events);
      forall i, k :: 0 <= i < |events| && 0 <= k < |outcomes[i].sends| ==>
        Some(outcomes[i].sends[k].target) == s.chatStateActorId
    ensures var outcomes := Run(Some(Encoded(s)), events);
      forall i :: 0 <= i < |events| && events[i].Request? && events[i].request == Encoded(GetChatStateActorId) ==>
        outcomes[i].reply == Response(IdentityAnswer(s))
  {
    forall i | 0 <= i < |events| {
      StableAt(s, events, i);
    }
  }

  /**
   * After a successful `init`, whatever the host delivers next, every
   * identity query answers the id the host gave the spawned child.
   */
  lemma AnswersSpawnedIdAfterInit(actorId: string, childId: string, events: seq<Event>)
    ensures var outcomes := Run(Some(Encoded(GitChatState(actorId, Some(childId), GitOptimizedConfig()))), events);
      forall i :: 0 <= i < |events| && events[i].Request? && events[i].request == Encoded(GetChatStateActorId) ==>
        outcomes[i].reply == Response(ChatStateActorId(childId))
  {
    PersistedStateIsStable(GitChatState(actorId, Some(childId), GitOptimizedConfig()), events);
  }

  /**
   * The `i`-th invocation after an undecodable state leaves an undecodable
   * state, sends nothing, and answers a request with an error.
   */
  lemma {:induction false} LostAt(state: Persisted, events: seq<Event>, i: nat)
    requires Undecodable(state)
    requires i < |events|
    ensures var o := Run(state, events)[i];
      && Undecodable(o.state)
      && o.sends == []
      && (events[i].Request? ==> o.reply.Response? && o.reply.response.Error?)
    decreases i
  {
    if i > 0 {
      LostAt(state, events, i - 1);
    }
  }

  /**
   * A state that cannot be decoded never recovers: no later invocation
   * persists a decodable state, every request is answered with an error,
   * and nothing is ever sent.
   */
  lemma {:induction false} LostStateStaysLost(state: Persisted, events: seq<Event>)
    requires Undecodable(state)
    ensures var outcomes := Run(state, events);
      forall i :: 0 <= i < |events| ==> Undecodable(outcomes[i].state)
    ensures var outcomes := Run(state, events);
      forall i :: 0 <= i < |events| ==> outcomes[i].sends == []
    ensures var outcomes := Run(state, events);
      forall i :: 0 <= i < |events| && events[i].Request? ==>
        outcomes[i].reply.Response? && outcomes[i].reply.response.Error?
  {
    forall i | 0 <= i < |events| {
      LostAt(state, events, i);
    }
  }
}

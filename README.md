# git-chat-assistant: request routing and init lifecycle

A model of the git chat assistant actor (`src/lib.rs`). The actor runs inside
a host actor runtime. At `init` it builds a fixed git-optimised assistant
configuration, asks the host to spawn a chat-state child actor with that
configuration, and persists a `GitChatState` record holding its own id, the
child's id and the configuration. After that, each `handle_request` decodes
the persisted record and the request. It then either answers
`GetChatStateActorId` or forwards `AddMessage` to the child as two sends in
order: an `AddMessage` and then a `GenerateCompletion`. It stops at the first
send the host refuses. The supervisor and channel handlers pass the state
through unchanged.

Host effects are inputs. `spawn` and `send` are function parameters giving the
host's answer to each call. Over a run, each request carries its own `send`
answers, so the host may refuse a send it accepted earlier. The sends a
request attempts come back as a trace, in order. Logging is dropped. Byte payloads are `Json.Payload<T>` values: the
encoding of a `T`, or bytes serde rejects with a reason.

Files and modules:

- `wrappers.dfy` (`Wrappers`): `Option` and `Result`.
- `json.dfy` (`Json`): serde_json's `Value` and the deserialisation outcome `Payload`.
- `protocol.dfy` (`Protocol`): the two child-protocol requests the actor sends and the opaque `Message`.
- `git_chat.dfy` (`GitChat`): the request and response protocol and the `GitChatState` record.
- `config.dfy` (`Config`): `create_git_optimized_config` and `spawn_chat_state_actor`.
- `component.dfy` (`Component`): `init`, `handle_request` and its dispatch, and the pass-through handlers.
- `host.dfy` (`Host`): the host delivering invocations one at a time. This is where the properties that span several calls are proved.

`handle_send` is a no-op and `init` ignores its payload.

`GitChatState` is a plain serde record with value semantics. Its only in-place
update is `set_chat_state_actor_id` on the owned local `git_state` in `init`.
The model writes that update as a function returning the updated record, and
`Init` reassigns its local variable with it. `handle_request` only reads the
record it decodes.

## Model

| member | source | states |
|---|---|---|
| `GitChat.GitChatState.New` | src/lib.rs:43-49 | a fresh state keeps the given actor id and config, has no child id, and asking it for the child id gives "Chat state actor not initialized" |
| `GitChat.GitChatState.SetChatStateActorId` | src/lib.rs:51-53 | the child id becomes `Some(id)` and the getter then answers `id`; the actor id and config are unchanged |
| `GitChat.GitChatState.GetChatStateActorId` | src/lib.rs:55-59 | answers `Ok(id)` exactly when the child id is `Some(id)`, otherwise the "not initialized" error |
| `Config.GitMcpServer` | src/lib.rs:328-336 | the one tool-server entry: no pre-existing actor id, no tool filter, started from the git tool actor's manifest |
| `Config.GitOptimizedConfig` | src/lib.rs:297-341 | the configuration has exactly the seven canonical keys, `max_tokens` 8192, temperature 0.7, the git system prompt, and exactly one `mcp_servers` entry |
| `Config.ChatStateEnvelope` | src/lib.rs:349-352 | the child's initial state is an object whose only key is `config`, holding the configuration |
| `Config.ChatStateSpawnCall` | src/lib.rs:347-358 | the host is asked to spawn the chat-state manifest with the envelope as initial state |
| `Config.SpawnChatStateActor` | src/lib.rs:344-371 | succeeds exactly when the host's spawn does, returning the host's id unchanged; a host error `e` becomes "Spawn failed: " + `e` |
| `Component.Init` | src/lib.rs:63-95 | fails exactly when the spawn fails, with an error that begins "Failed to spawn chat state actor" and no state; on success it persists the state (init's actor id, `Some(spawned id)`, the git config) |
| `Component.ForwardMessage` | src/lib.rs:195-239 | the sends are a non-empty prefix of [`AddMessage{message}`, `GenerateCompletion`] to the child; every send but the last succeeded and the run stops early only on a failure; `Success` exactly when both sends succeed; otherwise the error names the failed step and carries the host's error |
| `Component.Dispatch` | src/lib.rs:180-247 | `GetChatStateActorId` answers `ChatStateActorId{id}` exactly when the state holds `Some(id)` and makes no sends; with no child id both requests answer the "not initialized" error with no sends; `AddMessage` with a child forwards to it; every send targets the stored child |
| `Component.HandleRequest` | src/lib.rs:127-258 | the new state is absent exactly when the persisted state is absent or undecodable, and is otherwise the input state unchanged; the error texts for missing state, undecodable state and unparsable request; no send unless both state and request decode; a decoded request is answered by `Dispatch` |
| `Component.HandleSend` | src/lib.rs:119-125 | the state is returned unchanged |
| `Component.HandleChildError` | src/lib.rs:99-106 | the state is returned unchanged |
| `Component.HandleChildExit` | src/lib.rs:108-115 | the state is returned unchanged |
| `Component.HandleChannelOpen` | src/lib.rs:260-272 | the state is returned unchanged and the channel is accepted with no message |
| `Component.HandleChannelClose` | src/lib.rs:274-281 | the state is returned unchanged |
| `Component.HandleChannelMessage` | src/lib.rs:283-293 | the state is returned unchanged |
| `Host.Deliver` | src/lib.rs:98-293 | only requests get a response and only channel opens an acceptance; a decodable state is handed back as it is and sends go only to its child; an undecodable state yields only undecodable states, errors and no sends |
| `Host.Run` | src/lib.rs:98-293 | the host's delivery loop, which lib.rs does not contain, over the handlers' state-in/state-out signatures: one outcome per event; the first event is delivered to the initial slot and each later one to the slot the previous one left |
| `Host.StableAt` | src/lib.rs:253-257 | the i-th invocation after a state was persisted hands it back unchanged, sends only to its child, and answers an identity query with the stored child id |
| `Host.PersistedStateIsStable` | src/lib.rs:253-257 | over any sequence of invocations a persisted state is handed back unchanged, so the child id is never changed or cleared; every identity query answers the stored child id; every send goes to the stored child |
| `Host.AnswersSpawnedIdAfterInit` | src/lib.rs:77-94 | after the state a successful init persists, every identity query in any later run answers the id the host gave the spawned child |
| `Host.LostAt` | src/lib.rs:136-158 | the i-th invocation after an undecodable state leaves an undecodable state, sends nothing, and answers a request with an error |
| `Host.LostStateStaysLost` | src/lib.rs:136-158 | once the state slot is missing or undecodable, no later invocation restores a decodable state, every request is answered with an error, and nothing is ever sent |

## Left out

- Host bindings: `spawn` and `send` are function parameters, and `log` calls are dropped.
- JSON encoding and decoding: payloads are `Payload` values, and serde's round trip (decoding what was encoded gives it back) is assumed, not modelled.
- Serialisation failures in `handle_request`: the `?` on `to_vec` for the state, the response and the outgoing messages are taken never to fail. So its outer `Err` is not modelled, and the response is always present. (The pass-through handlers have no `Err` path at all.)
- `Config.SpawnChatStateActor`: the `Err` from serialising the envelope ("Failed to serialize chat-state config", src/lib.rs:354-355) is not modelled, for the same reason; its contract holds given that serialisation succeeds.
- `Component.Init`: the `Err` return from serialising the state (src/lib.rs:90-91) is not modelled, for the reason above.
- The temperature 0.7 is an `f64` in the source; here it is kept only as the literal `"0.7"`.
- Manifest paths are registry-relative names; the absolute user-specific prefix is dropped.
- Chat messages (`genai_types::Message`) and child errors (`WitActorError`) are opaque.
- The `protocol` module is not part of this model; only its `AddMessage` and `GenerateCompletion` requests appear.
- The sends are synchronous and fire-and-forget; replies from the child and concurrency are not modelled (the host delivers one invocation at a time).

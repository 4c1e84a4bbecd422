/**
 * The fixed configuration the chat-state child is spawned with, and the
 * spawn request itself.
 */
module Config {
  import opened Wrappers
  import opened Json

  /** The default system prompt of the git assistant. */
  const GitSystemPrompt: string :=
    "You are a Git assistant with access to git tools. You can help with:\n\n"
    + "- Reviewing git status and changes\n"
    + "- Creating meaningful commit messages\n"
    + "- Managing branches and repositories\n"
    + "- Analyzing git history and diffs\n"
    + "- Staging and unstaging files\n"
    + "- Handling merge conflicts\n"
    + "- Git workflow best practices\n\n"
    + "You have access to git tools that allow you to interact with the repository. "
    + "Always be helpful and provide clear explanations of git operations.\n\n"
    + "When helping with commits:\n"
    + "- Always review the changes first before suggesting commit messages\n"
    + "- Create descriptive, conventional commit messages\n"
    + "- Suggest appropriate files to stage if not already staged\n"
    + "- Explain the impact of changes when relevant"

  /** Manifests, named relative to the actor registry. */
  const GitMcpActorManifest: string := "git-mcp-actor/manifest.toml"
  const ChatStateManifest: string := "chat-state/manifest.toml"

  /** The keys every configuration handed to the child carries. */
  const ConfigKeys: set<string> :=
    {"model_config", "temperature", "max_tokens", "system_prompt", "title", "description", "mcp_servers"}

  /** The only tool server: the git tool actor, started fresh with all its tools. */
  function GitMcpServer(): (server: Value)
    ensures server.Object? && server.fields.Keys == {"actor_id", "actor", "tools"}
    ensures server.fields["actor_id"] == Null && server.fields["tools"] == Null
    ensures server.fields["actor"] == Object(map["manifest_path" := Str(GitMcpActorManifest)])
  {
    Object(map[
      "actor_id" := Null,
      "actor" := Object(map["manifest_path" := Str(GitMcpActorManifest)]),
      "tools" := Null])
  }

  /** The git-optimised configuration; it does not depend on any input. */
  function GitOptimizedConfig(): (cfg: Value)
    ensures cfg.Object? && cfg.fields.Keys == ConfigKeys
    ensures "max_tokens" in cfg.fields && cfg.fields["max_tokens"] == Int(8192)
    ensures "temperature" in cfg.fields && cfg.fields["temperature"] == Float("0.7")
    ensures "system_prompt" in cfg.fields && cfg.fields["system_prompt"] == Str(GitSystemPrompt)
    ensures "mcp_servers" in cfg.fields && cfg.fields["mcp_servers"] == Array([GitMcpServer()])
  {
    Object(map[
      "model_config" := Object(map[
        "model" := Str("claude-sonnet-4-20250514"),
        "provider" := Str("anthropic")]),
      "temperature" := Float("0.7"),
      "max_tokens" := Int(8192),
      "system_prompt" := Str(GitSystemPrompt),
      "title" := Str("Git Assistant"),
      "description" := Str("AI assistant with git tools for repository management and commit workflows"),
      "mcp_servers" := Array([GitMcpServer()])])
  }

  /** The initial state handed to the chat-state child: `{"config": cfg}`. */
  function ChatStateEnvelope(cfg: Value): (env: Value)
    ensures env.Object? && env.fields.Keys == {"config"}
    ensures env.fields["config"] == cfg
  {
    Object(map["config" := cfg])
  }

  /** What the actor asks of the host's `spawn`: a manifest and an initial state. */
  datatype SpawnCall = SpawnCall(manifest: string, initialState: Option<Value>)

  /**
   * The host's `spawn`: the new actor's id, or the debug text of its error.
   */
  type SpawnHost = SpawnCall -> Result<string, string>

  const SpawnFailedPrefix: string := "Spawn failed: "

  /** The request `spawn_chat_state_actor` makes of the host for a configuration. */
  function ChatStateSpawnCall(cfg: Value): (call: SpawnCall)
    ensures call.manifest == ChatStateManifest
    ensures call.initialState.Some? && call.initialState.value == ChatStateEnvelope(cfg)
  {
    SpawnCall(ChatStateManifest, Some(ChatStateEnvelope(cfg)))
  }

  /**
   * Spawns the chat-state child with `cfg` wrapped in an envelope: the host's
   * id is returned as it is, a host failure becomes "Spawn failed: ...".
   */
  function SpawnChatStateActor(cfg: Value, spawn: SpawnHost): (r: Result<string, string>)
    ensures spawn(ChatStateSpawnCall(cfg)).Ok? <==> r.Ok?
    ensures r.Ok? ==> spawn(ChatStateSpawnCall(cfg)) == Ok(r.value)
    ensures r.Err? ==> r.error == SpawnFailedPrefix + spawn(ChatStateSpawnCall(cfg)).error
  {
    match spawn(ChatStateSpawnCall(cfg))
    case Ok(actorId) => Ok(actorId)
    case Err(e) => Err(SpawnFailedPrefix + e)
  }
}

/**
 * The environment of a workload's main container, layer over layer (internal/assembler/assembler.go,
 * internal/assembler/egress_ca_apply.go, internal/assembler/llmmode.go).
 */
module EnvLayering {
  import opened Records

  datatype EnvVar = EnvVar(name: string, value: string)

  type Env = seq<EnvVar>

  const RESERVED: set<string> := {
    "AGENT_ID", "ENVIRONMENT_ID", "AGENT_INSTANCE_ID", "AGENT_NAME", "AGENT_ROLE", "AGENT_MODEL", "AGENT_CONFIG",
    "WORKLOAD_ID",
    "GATEWAY_ADDRESS", "AGYN_GATEWAY_URL", "AGYN_IDENTITY_ID", "LLM_BASE_URL", "LLM_MODE", "LLM_MODEL_NAME",
    "CLAUDE_CODE_OAUTH_TOKEN",
    "TRACING_ADDRESS", "OTEL_EXPORTER_OTLP_ENDPOINT", "AGYND_AGENTS_DIRECT_ADDRESS", "AGYND_RUNNERS_DIRECT_ADDRESS",
    "SSL_CERT_FILE",
    "REQUESTS_CA_BUNDLE", "NODE_EXTRA_CA_CERTS", "AGENT_MCP_SERVERS", "MCP_PORT", "ZITI_ENROLL_TOKEN",
    "ZITI_IDENTITY_BASENAME",
    "ZITI_IDENTITY_DIR"
  }

  const MCP_SERVERS := "AGENT_MCP_SERVERS"
  const WORKLOAD_ID := "WORKLOAD_ID"
  const IS_SANDBOX := "IS_SANDBOX"
  const CERT_PATH := "/etc/ssl/certs/ca-certificates.crt"
  const CERT_NAMES: seq<string> := ["SSL_CERT_FILE", "REQUESTS_CA_BUNDLE", "NODE_EXTRA_CA_CERTS"]

  function Names(env: Env): set<string> {
    set i | 0 <= i < |env| :: env[i].name
  }

  predicate AreDistinct(env: Env) {
    forall i, j :: 0 <= i < j < |env| ==> env[i].name != env[j].name
  }

  /** The value of the first variable of that name. */
  function Lookup(env: Env, name: string): Option<string> {
    if env == [] then None
    else if env[0].name == name then Some(env[0].value)
    else Lookup(env[1..], name)
  }

  function OrElse<T>(a: Option<T>, b: Option<T>): Option<T> {
    if a.Some? then a else b
  }

  /** The first variable of each name that is neither seen before nor banned. */
  function Kept(env: Env, seen: set<string>, banned: set<string>): Env {
    if env == [] then []
    else if env[0].name in banned || env[0].name in seen then Kept(env[1..], seen, banned)
    else [env[0]] + Kept(env[1..], seen + {env[0].name}, banned)
  }

  function Merged(platform: Env, user: Env): Env {
    Kept(platform, {}, {}) + Kept(user, Names(Kept(platform, {}, {})), RESERVED)
  }

  /** The loop over one of the lists. */
  method KeepNew(env: Env, before: Env, seen: set<string>, banned: set<string>)
    returns (merged: Env, later: set<string>)
    requires seen == Names(before)
    ensures merged == before + Kept(env, seen, banned) && later == Names(merged)
  {
    merged, later := before, seen;
    assert env[0..] == env && env[|env|..] == [];
    assert Kept([], {}, banned) == [] && forall s :: Kept([], s, banned) == [];
    hide Names;
    hide Kept;
    for k := 0 to |env|
      invariant later == Names(merged)
      invariant before + Kept(env, seen, banned) == merged + Kept(env[k..], later, banned)
    {
      KeptNext(merged, env, k, later, banned);
      if env[k].name in banned || env[k].name in later {
        continue;
      }
      NamesAppend(merged, env[k]);
      merged := merged + [env[k]];
      later := later + {env[k].name};
    }
    assert merged + [] == merged;
  }

  method MergeEnvVars(platform: Env, user: Env) returns (merged: Env)
    ensures merged == Merged(platform, user)
  {
    var seen;
    merged, seen := KeepNew(platform, [], {}, {});
    assert [] + Kept(platform, {}, {}) == Kept(platform, {}, {});
    merged, seen := KeepNew(user, merged, seen, RESERVED);
  }

  lemma KeptStep(env: Env, k: nat, seen: set<string>, banned: set<string>)
    requires k < |env|
    ensures Kept(env[k..], seen, banned) ==
      if env[k].name in banned || env[k].name in seen then Kept(env[k + 1..], seen, banned)
      else [env[k]] + Kept(env[k + 1..], seen + {env[k].name}, banned)
  {
    assert env[k..][1..] == env[k + 1..];
  }

  /** One more variable has been looked at. */
  lemma KeptNext(merged: Env, env: Env, k: nat, seen: set<string>, banned: set<string>)
    requires k < |env|
    ensures merged + Kept(env[k..], seen, banned) ==
      if env[k].name in banned || env[k].name in seen then merged + Kept(env[k + 1..], seen, banned)
      else (merged + [env[k]]) + Kept(env[k + 1..], seen + {env[k].name}, banned)
  {
    KeptStep(env, k, seen, banned);
  }

  lemma NamesAppend(env: Env, v: EnvVar)
    ensures Names(env + [v]) == Names(env) + {v.name}
  {
    forall name | name in Names(env) ensures name in Names(env + [v]) {
      var i :| 0 <= i < |env| && env[i].name == name;
      assert (env + [v])[i].name == name;
    }
    assert (env + [v])[|env|] == v;
  }

  /** Every other variable of that name goes, and the platform's comes last. */
  function Appended(env: Env, v: EnvVar): Env {
    Without(env, v.name) + [v]
  }

  /** The variables that have another name. */
  function Without(env: Env, name: string): Env {
    if env == [] then [] else (if env[0].name == name then [] else [env[0]]) + Without(env[1..], name)
  }

  method AppendPlatformEnvVar(env: Env, v: EnvVar) returns (result: Env)
    ensures result == Appended(env, v)
  {
    result := [];
    assert env[0..] == env;
    for k := 0 to |env|
      invariant Without(env, v.name) == result + Without(env[k..], v.name)
    {
      assert env[k..][1..] == env[k + 1..];
      if env[k].name == v.name {
        continue;
      }
      result := result + [env[k]];
    }
    assert result + [] == result;
    result := result + [v];
  }

  function AppendedAll(env: Env, names: seq<string>, value: string): Env
    decreases |names|
  {
    if names == [] then env else AppendedAll(Appended(env, EnvVar(names[0], value)), names[1..], value)
  }

  method AppendEgressCAEnvVars(env: Env) returns (result: Env)
    ensures result == Appended(AppendedAll(env, CERT_NAMES, CERT_PATH), EnvVar(IS_SANDBOX, "1"))
  {
    result := env;
    assert CERT_NAMES[0..] == CERT_NAMES;
    for k := 0 to |CERT_NAMES|
      invariant AppendedAll(env, CERT_NAMES, CERT_PATH) == AppendedAll(result, CERT_NAMES[k..], CERT_PATH)
    {
      assert CERT_NAMES[k..][1..] == CERT_NAMES[k + 1..];
      result := AppendPlatformEnvVar(result, EnvVar(CERT_NAMES[k], CERT_PATH));
    }
    result := AppendPlatformEnvVar(result, EnvVar(IS_SANDBOX, "1"));
  }

  datatype Agent = Agent(
    id: Id, instance: Id, environment: Id, name: string, role: string, model: string, configuration: string,
    organization: Id)

  datatype Config = Config(
    gatewayAddress: string, gatewayUrl: string, llmBaseUrl: string, agentsAddress: string, runnersAddress: string,
    tracingAddress: string)

  /** What the platform itself tells the agent. */
  function BaseAgentEnvVars(agent: Agent, cfg: Config): Env {
    [ EnvVar("AGENT_INSTANCE_ID", agent.instance), EnvVar("AGENT_ID", agent.id),
      EnvVar("ENVIRONMENT_ID", agent.environment), EnvVar("AGENT_NAME", agent.name), EnvVar("AGENT_ROLE", agent.role),
      EnvVar("AGENT_MODEL", agent.model), EnvVar("AGENT_CONFIG", agent.configuration),
      EnvVar("AGYN_ORGANIZATION_ID", agent.organization), EnvVar("AGYN_IDENTITY_ID", agent.instance),
      EnvVar("GATEWAY_ADDRESS", cfg.gatewayAddress), EnvVar("AGYN_GATEWAY_URL", cfg.gatewayUrl),
      EnvVar("LLM_BASE_URL", cfg.llmBaseUrl) ]
    + (if cfg.agentsAddress != "" then [EnvVar("AGYND_AGENTS_DIRECT_ADDRESS", cfg.agentsAddress)] else [])
    + (if cfg.runnersAddress != "" then [EnvVar("AGYND_RUNNERS_DIRECT_ADDRESS", cfg.runnersAddress)] else [])
    + (if cfg.tracingAddress != "" then [EnvVar("TRACING_ADDRESS", cfg.tracingAddress),
        EnvVar("OTEL_EXPORTER_OTLP_ENDPOINT", "http://" + cfg.tracingAddress)] else [])
  }

  datatype Vendor = Anthropic | OpenAI | OtherVendor

  /**
   * A subscription attached for a vendor; placeholder is the variable that should hold a placeholder, if it
   * is that kind.
   */
  datatype Attachment = Attachment(vendor: Vendor, placeholder: Option<string>)

  const PLACEHOLDER := "agyn-placeholder-not-a-credential"

  /** The variables that the first attachment of each vendor names. */
  function Placeholders(attachments: seq<Attachment>, seen: set<Vendor>): seq<string> {
    if attachments == [] then []
    else
      var a := attachments[0];
      if a.vendor in seen then Placeholders(attachments[1..], seen)
      else
        var added := !a.vendor.OtherVendor? && a.placeholder.Some? && a.placeholder.value != "";
        (if added then [a.placeholder.value] else [])
        + Placeholders(attachments[1..], seen + {a.vendor})
  }

  function PlaceholderVars(names: seq<string>): Env {
    seq(|names|, i requires 0 <= i < |names| => EnvVar(names[i], PLACEHOLDER))
  }

  /** What native mode adds; None when it has no subscription to go by. */
  function LLMEnvVars(native: bool, modelName: string, attachments: seq<Attachment>): Option<Env> {
    if !native then Some([EnvVar("LLM_MODE", "platform")])
    else if attachments == [] then None
    else
      Some([EnvVar("LLM_MODE", "native")] + (if modelName != "" then [EnvVar("LLM_MODEL_NAME", modelName)] else [])
           + PlaceholderVars(Placeholders(attachments, {})))
  }

  lemma PlaceholderAppend(head: Env, names: seq<string>, name: string)
    ensures head + PlaceholderVars(names + [name]) == (head + PlaceholderVars(names)) + [EnvVar(name, PLACEHOLDER)]
  {
  }

  /** The loop over the attachments. */
  method AppendPlaceholders(head: Env, attachments: seq<Attachment>) returns (env: Env)
    ensures env == head + PlaceholderVars(Placeholders(attachments, {}))
  {
    env := head;
    ghost var added: seq<string> := [];
    assert head + PlaceholderVars([]) == head;
    hide PlaceholderVars;
    var seen: set<Vendor> := {};
    assert attachments[0..] == attachments;
    for k := 0 to |attachments|
      invariant Placeholders(attachments, {}) == added + Placeholders(attachments[k..], seen)
      invariant env == head + PlaceholderVars(added)
    {
      assert attachments[k..][1..] == attachments[k + 1..];
      var a := attachments[k];
      if a.vendor in seen {
        continue;
      }
      seen := seen + {a.vendor};
      if a.vendor.OtherVendor? {
        continue;
      }
      if a.placeholder.Some? && a.placeholder.value != "" {
        env := env + [EnvVar(a.placeholder.value, PLACEHOLDER)];
        PlaceholderAppend(head, added, a.placeholder.value);
        ghost var rest := Placeholders(attachments[k + 1..], seen);
        assert added + ([a.placeholder.value] + rest) == (added + [a.placeholder.value]) + rest;
        added := added + [a.placeholder.value];
      }
    }
    assert added + [] == added;
  }

  method ResolveLLMMode(native: bool, modelName: string, attachments: seq<Attachment>) returns (r: Result<Env>)
    ensures r.Ok? <==> LLMEnvVars(native, modelName, attachments).Some?
    ensures r.Ok? ==> Some(r.value) == LLMEnvVars(native, modelName, attachments)
  {
    if !native {
      return Ok([EnvVar("LLM_MODE", "platform")]);
    }
    if attachments == [] {
      return Err;
    }
    var env: Env := [EnvVar("LLM_MODE", "native")];
    if modelName != "" {
      env := env + [EnvVar("LLM_MODEL_NAME", modelName)];
    }
    ghost var model := if modelName != "" then [EnvVar("LLM_MODEL_NAME", modelName)] else [];
    assert env == [EnvVar("LLM_MODE", "native")] + model;
    env := AppendPlaceholders(env, attachments);
    r := Ok(env);
  }

  /** The whole environment of the main container. */
  function MainEnv(base: Env, agent: Env, environment: Env, llm: Env, mcp: Option<string>): Env {
    var layered := Merged(base, agent);
    var both := if environment == [] then layered else Merged(layered, environment);
    var egress := Appended(AppendedAll(both, CERT_NAMES, CERT_PATH), EnvVar(IS_SANDBOX, "1"));
    var all := Merged(llm + egress, []);
    if mcp.Some? then Appended(all, EnvVar(MCP_SERVERS, mcp.value)) else all
  }

  method AssembleMainEnv(base: Env, agent: Env, environment: Env, llm: Env, mcp: Option<string>) returns (env: Env)
    ensures env == MainEnv(base, agent, environment, llm, mcp)
  {
    env := MergeEnvVars(base, agent);
    if |environment| > 0 {
      env := MergeEnvVars(env, environment);
    }
    env := AppendEgressCAEnvVars(env);
    env := MergeEnvVars(llm + env, []);
    if mcp.Some? {
      env := AppendPlatformEnvVar(env, EnvVar(MCP_SERVERS, mcp.value));
    }
  }

  /** A name is there when it has a value. */
  lemma {:induction false} LookupNames(env: Env, name: string)
    ensures Lookup(env, name).Some? <==> name in Names(env)
    decreases |env|
  {
    if env != [] {
      LookupNames(env[1..], name);
      assert forall i :: 0 < i < |env| ==> env[i] == env[1..][i - 1];
      if name in Names(env[1..]) {
        var i :| 0 <= i < |env| - 1 && env[1..][i].name == name;
        assert env[i + 1].name == name;
      }
    }
  }

  lemma {:induction false} LookupConcat(a: Env, b: Env, name: string)
    ensures Lookup(a + b, name) == OrElse(Lookup(a, name), Lookup(b, name))
    decreases |a|
  {
    if a == [] {
      assert a + b == b;
    } else {
      assert (a + b)[1..] == a[1..] + b;
      LookupConcat(a[1..], b, name);
    }
  }

  /** What is kept is kept with its first value, and each name once. */
  lemma {:induction false} KeptLookup(env: Env, seen: set<string>, banned: set<string>, name: string)
    ensures Lookup(Kept(env, seen, banned), name) == if name in seen || name in banned then None else Lookup(env, name)
    decreases |env|
  {
    if env != [] {
      if env[0].name in banned || env[0].name in seen {
        KeptLookup(env[1..], seen, banned, name);
      } else {
        KeptLookup(env[1..], seen + {env[0].name}, banned, name);
        assert ([env[0]] + Kept(env[1..], seen + {env[0].name}, banned))[1..]
          == Kept(env[1..], seen + {env[0].name}, banned);
      }
    }
  }

  lemma {:induction false} KeptDistinct(env: Env, seen: set<string>, banned: set<string>)
    ensures AreDistinct(Kept(env, seen, banned)) && Names(Kept(env, seen, banned)) !! seen
    decreases |env|
  {
    if env != [] {
      if env[0].name in banned || env[0].name in seen {
        KeptDistinct(env[1..], seen, banned);
      } else {
        var rest := Kept(env[1..], seen + {env[0].name}, banned);
        KeptDistinct(env[1..], seen + {env[0].name}, banned);
        assert forall i :: 0 <= i < |rest| ==> rest[i].name in Names(rest);
      }
    }
  }

  /** Merging keeps names distinct; the platform wins, and no user value gets a reserved name. */
  lemma MergedLookup(platform: Env, user: Env, name: string)
    ensures Lookup(Merged(platform, user), name)
      == OrElse(Lookup(platform, name), if name in RESERVED then None else Lookup(user, name))
  {
    var first := Kept(platform, {}, {});
    KeptLookup(platform, {}, {}, name);
    KeptLookup(user, Names(first), RESERVED, name);
    LookupConcat(first, Kept(user, Names(first), RESERVED), name);
    LookupNames(first, name);
  }

  lemma MergedDistinct(platform: Env, user: Env)
    ensures AreDistinct(Merged(platform, user))
  {
    var first := Kept(platform, {}, {});
    var second := Kept(user, Names(first), RESERVED);
    KeptDistinct(platform, {}, {});
    KeptDistinct(user, Names(first), RESERVED);
    forall i, j | 0 <= i < |first| && 0 <= j < |second| ensures first[i].name != second[j].name {
      assert first[i].name in Names(first) && second[j].name in Names(second);
    }
  }

  lemma {:induction false} WithoutLookup(env: Env, gone: string, name: string)
    ensures Lookup(Without(env, gone), name) == if name == gone then None else Lookup(env, name)
    decreases |env|
  {
    if env != [] {
      WithoutLookup(env[1..], gone, name);
      LookupConcat(if env[0].name == gone then [] else [env[0]], Without(env[1..], gone), name);
    }
  }

  lemma {:induction false} WithoutDistinct(env: Env, gone: string)
    requires AreDistinct(env)
    ensures AreDistinct(Without(env, gone)) && gone !in Names(Without(env, gone))
    ensures Names(Without(env, gone)) <= Names(env)
    decreases |env|
  {
    if env != [] {
      var rest := Without(env[1..], gone);
      WithoutDistinct(env[1..], gone);
      assert forall name :: name in Names(env[1..]) ==> name in Names(env) && name != env[0].name by {
        forall name | name in Names(env[1..]) ensures name in Names(env) && name != env[0].name {
          var i :| 0 <= i < |env[1..]| && env[1..][i].name == name;
          assert env[i + 1].name == name;
        }
      }
      assert env[0].name in Names(env);
      assert forall i :: 0 <= i < |rest| ==> rest[i].name in Names(rest);
    }
  }

  lemma AppendedLookup(env: Env, v: EnvVar, name: string)
    ensures Lookup(Appended(env, v), name) == if name == v.name then Some(v.value) else Lookup(env, name)
  {
    WithoutLookup(env, v.name, name);
    LookupConcat(Without(env, v.name), [v], name);
  }

  lemma AppendedDistinct(env: Env, v: EnvVar)
    requires AreDistinct(env)
    ensures AreDistinct(Appended(env, v))
  {
    var rest := Without(env, v.name);
    WithoutDistinct(env, v.name);
    assert forall i :: 0 <= i < |rest| ==> rest[i].name in Names(rest);
  }

  lemma {:induction false} AppendedAllLookup(env: Env, names: seq<string>, value: string, name: string)
    ensures Lookup(AppendedAll(env, names, value), name) == if name in names then Some(value) else Lookup(env, name)
    decreases |names|
  {
    if names != [] {
      AppendedLookup(env, EnvVar(names[0], value), name);
      AppendedAllLookup(Appended(env, EnvVar(names[0], value)), names[1..], value, name);
    }
  }

  /** Where each name gets its value from, most specific first. */
  function Precedence(base: Env, agent: Env, environment: Env, llm: Env, mcp: Option<string>,
      name: string): Option<string> {
    if mcp.Some? && name == MCP_SERVERS then mcp
    else if name in Names(llm) then Lookup(llm, name)
    else if name in CERT_NAMES then Some(CERT_PATH)
    else if name == IS_SANDBOX then Some("1")
    else if name in Names(base) then Lookup(base, name)
    else if name in RESERVED then None
    else if name in Names(agent) then Lookup(agent, name)
    else Lookup(environment, name)
  }

  /** The main container has each name once, with the value of the most specific layer that has it. */
  lemma EnvFollowsPrecedence(base: Env, agent: Env, environment: Env, llm: Env, mcp: Option<string>, name: string)
    ensures Lookup(MainEnv(base, agent, environment, llm, mcp), name)
      == Precedence(base, agent, environment, llm, mcp, name)
  {
    LookupNames(base, name);
    LookupNames(agent, name);
    LookupNames(llm, name);
    var layered := Merged(base, agent);
    MergedLookup(base, agent, name);
    MergedLookup(layered, environment, name);
    var both := if environment == [] then layered else Merged(layered, environment);
    var certified := AppendedAll(both, CERT_NAMES, CERT_PATH);
    AppendedAllLookup(both, CERT_NAMES, CERT_PATH, name);
    var egress := Appended(certified, EnvVar(IS_SANDBOX, "1"));
    AppendedLookup(certified, EnvVar(IS_SANDBOX, "1"), name);
    LookupConcat(llm, egress, name);
    MergedLookup(llm + egress, [], name);
    AppendedLookup(Merged(llm + egress, []), EnvVar(MCP_SERVERS, if mcp.Some? then mcp.value else ""), name);
  }

  lemma EnvIsDistinct(base: Env, agent: Env, environment: Env, llm: Env, mcp: Option<string>)
    ensures AreDistinct(MainEnv(base, agent, environment, llm, mcp))
  {
    var layered := Merged(base, agent);
    var both := if environment == [] then layered else Merged(layered, environment);
    var egress := Appended(AppendedAll(both, CERT_NAMES, CERT_PATH), EnvVar(IS_SANDBOX, "1"));
    MergedDistinct(llm + egress, []);
    AppendedDistinct(Merged(llm + egress, []), EnvVar(MCP_SERVERS, if mcp.Some? then mcp.value else ""));
  }

  /** No value of the agent's or the environment's own reaches a reserved name: without both, it would be the same. */
  lemma NoUserValueOnReservedName(base: Env, agent: Env, environment: Env, llm: Env, mcp: Option<string>, name: string)
    requires name in RESERVED
    ensures Lookup(MainEnv(base, agent, environment, llm, mcp), name) == Lookup(MainEnv(base, [], [], llm, mcp), name)
  {
    EnvFollowsPrecedence(base, agent, environment, llm, mcp, name);
    EnvFollowsPrecedence(base, [], [], llm, mcp, name);
  }

  lemma {:induction false} PlaceholderNames(names: seq<string>, name: string)
    ensures name in Names(PlaceholderVars(names)) <==> name in names
  {
    if name in names {
      var i :| 0 <= i < |names| && names[i] == name;
      assert PlaceholderVars(names)[i].name == name;
    }
  }

  /**
   * The start appends WORKLOAD_ID without looking: names stay distinct exactly when no vendor's
   * placeholder is to be kept in a variable of that name.
   */
  lemma WorkloadIdStaysDistinct(
    who: Agent, cfg: Config, agent: Env, environment: Env, native: bool, modelName: string,
    attachments: seq<Attachment>, llm: Env, mcp: Option<string>, workload: Id)
    requires LLMEnvVars(native, modelName, attachments) == Some(llm)
    ensures AreDistinct(MainEnv(BaseAgentEnvVars(who, cfg), agent, environment, llm, mcp)
      + [EnvVar(WORKLOAD_ID, workload)])
       <==> !(native && WORKLOAD_ID in Placeholders(attachments, {}))
  {
    var base := BaseAgentEnvVars(who, cfg);
    var env := MainEnv(base, agent, environment, llm, mcp);
    EnvIsDistinct(base, agent, environment, llm, mcp);
    EnvFollowsPrecedence(base, agent, environment, llm, mcp, WORKLOAD_ID);
    LookupNames(env, WORKLOAD_ID);
    LookupNames(llm, WORKLOAD_ID);
    BaseLacksWorkloadId(who, cfg);
    LLMNames(native, modelName, attachments, llm, WORKLOAD_ID);
    if WORKLOAD_ID in Names(env) {
      var i :| 0 <= i < |env| && env[i].name == WORKLOAD_ID;
      assert (env + [EnvVar(WORKLOAD_ID, workload)])[i].name == (env + [EnvVar(WORKLOAD_ID, workload)])[|env|].name;
    } else {
      assert forall i :: 0 <= i < |env| ==> env[i].name in Names(env);
    }
  }

  lemma BaseLacksWorkloadId(who: Agent, cfg: Config)
    ensures WORKLOAD_ID !in Names(BaseAgentEnvVars(who, cfg))
  {
  }

  lemma LLMNames(native: bool, modelName: string, attachments: seq<Attachment>, llm: Env, name: string)
    requires LLMEnvVars(native, modelName, attachments) == Some(llm) && name != "LLM_MODE" && name != "LLM_MODEL_NAME"
    ensures name in Names(llm) <==> native && name in Placeholders(attachments, {})
  {
    if native {
      var head :=
        [EnvVar("LLM_MODE", "native")] + if modelName != "" then [EnvVar("LLM_MODEL_NAME", modelName)] else [];
      var tail := PlaceholderVars(Placeholders(attachments, {}));
      assert llm == head + tail;
      PlaceholderNames(Placeholders(attachments, {}), name);
      LookupConcat(head, tail, name);
      LookupNames(llm, name);
      LookupNames(tail, name);
      LookupNames(head, name);
    }
  }

  /** What the platform sets, now or later, users cannot: its names are reserved, but for its organization's. */
  lemma PlatformNamesAreReserved(who: Agent, cfg: Config, name: string)
    ensures name in Names(BaseAgentEnvVars(who, cfg)) ==> name in RESERVED || name == "AGYN_ORGANIZATION_ID"
    ensures
      name in {"SSL_CERT_FILE", "REQUESTS_CA_BUNDLE", "NODE_EXTRA_CA_CERTS", "AGENT_MCP_SERVERS", "MCP_PORT",
        "WORKLOAD_ID", "LLM_MODE", "LLM_MODEL_NAME", "CLAUDE_CODE_OAUTH_TOKEN", "ZITI_ENROLL_TOKEN",
        "ZITI_IDENTITY_BASENAME", "ZITI_IDENTITY_DIR"} ==>
      name in RESERVED
  {
  }

  /** Of variables with that name the first counts. */
  lemma {:induction false} LookupFirst(env: Env, i: nat)
    requires i < |env| && forall j :: 0 <= j < i ==> env[j].name != env[i].name
    ensures Lookup(env, env[i].name) == Some(env[i].value)
    decreases i
  {
    if i > 0 {
      LookupFirst(env[1..], i - 1);
    }
  }

  lemma FixedNames(who: Agent, cfg: Config)
    ensures var base := BaseAgentEnvVars(who, cfg);
      && |base| >= 12
      && base[0].name == "AGENT_INSTANCE_ID" && base[1].name == "AGENT_ID" && base[2].name == "ENVIRONMENT_ID"
      && base[3].name == "AGENT_NAME" && base[4].name == "AGENT_ROLE" && base[5].name == "AGENT_MODEL"
      && base[6].name == "AGENT_CONFIG" && base[7].name == "AGYN_ORGANIZATION_ID"
      && base[8].name == "AGYN_IDENTITY_ID" && base[9].name == "GATEWAY_ADDRESS"
      && base[10].name == "AGYN_GATEWAY_URL" && base[11].name == "LLM_BASE_URL"
  {
  }

  lemma BaseValues(who: Agent, cfg: Config, name: string)
    ensures var value := Lookup(BaseAgentEnvVars(who, cfg), name);
      && (name == "AGENT_INSTANCE_ID" || name == "AGYN_IDENTITY_ID" ==> value == Some(who.instance))
      && (name == "AGENT_ID" ==> value == Some(who.id)) && (name == "ENVIRONMENT_ID" ==> value == Some(who.environment))
      && (name == "AGENT_NAME" ==> value == Some(who.name)) && (name == "AGENT_ROLE" ==> value == Some(who.role))
      && (name == "AGENT_MODEL" ==> value == Some(who.model))
      && (name == "AGENT_CONFIG" ==> value == Some(who.configuration))
      && (name == "AGYN_ORGANIZATION_ID" ==> value == Some(who.organization))
      && (name == "GATEWAY_ADDRESS" ==> value == Some(cfg.gatewayAddress))
      && (name == "AGYN_GATEWAY_URL" ==> value == Some(cfg.gatewayUrl))
      && (name == "LLM_BASE_URL" ==> value == Some(cfg.llmBaseUrl))
  {
    var base := BaseAgentEnvVars(who, cfg);
    FixedNames(who, cfg);
    forall i | 0 <= i < 12 && base[i].name == name ensures Lookup(base, name) == Some(base[i].value) {
      LookupFirst(base, i);
    }
  }

  /** A variable that is there when its value is not empty. */
  function IfSet(name: string, value: string): Env {
    if value != "" then [EnvVar(name, value)] else []
  }

  lemma IfSetLookup(name: string, value: string, other: string)
    ensures Lookup(IfSet(name, value), other) == if other == name && value != "" then Some(value) else None
  {
    assert [EnvVar(name, value)][1..] == [];
  }

  lemma FixedLacks(who: Agent, cfg: Config, name: string)
    requires name in {"AGYND_AGENTS_DIRECT_ADDRESS", "AGYND_RUNNERS_DIRECT_ADDRESS", "TRACING_ADDRESS",
      "OTEL_EXPORTER_OTLP_ENDPOINT"}
    ensures Lookup(BaseAgentEnvVars(who, cfg)[..12], name) == None
  {
    FixedNames(who, cfg);
    var fixed := BaseAgentEnvVars(who, cfg)[..12];
    hide BaseAgentEnvVars;
    forall i | 0 <= i < |fixed| ensures fixed[i].name != name {}
    LookupNames(fixed, name);
  }

  /** The addresses are there when they are configured. */
  lemma AddressValues(who: Agent, cfg: Config, name: string)
    requires name in {"AGYND_AGENTS_DIRECT_ADDRESS", "AGYND_RUNNERS_DIRECT_ADDRESS", "TRACING_ADDRESS",
      "OTEL_EXPORTER_OTLP_ENDPOINT"}
    ensures Lookup(BaseAgentEnvVars(who, cfg), name) ==
      var address :=
        if name == "AGYND_AGENTS_DIRECT_ADDRESS" then cfg.agentsAddress
        else if name == "AGYND_RUNNERS_DIRECT_ADDRESS" then cfg.runnersAddress
        else cfg.tracingAddress;
      if address == "" then None
      else Some(if name == "OTEL_EXPORTER_OTLP_ENDPOINT" then "http://" + address else address)
  {
    var base := BaseAgentEnvVars(who, cfg);
    var agents := IfSet("AGYND_AGENTS_DIRECT_ADDRESS", cfg.agentsAddress);
    var runners := IfSet("AGYND_RUNNERS_DIRECT_ADDRESS", cfg.runnersAddress);
    var tracing := IfSet("TRACING_ADDRESS", cfg.tracingAddress);
    var endpoint :=
      IfSet("OTEL_EXPORTER_OTLP_ENDPOINT", if cfg.tracingAddress == "" then "" else "http://" + cfg.tracingAddress);
    assert base == base[..12] + (agents + (runners + (tracing + endpoint)));
    FixedLacks(who, cfg, name);
    hide BaseAgentEnvVars;
    hide Lookup;
    LookupConcat(base[..12], agents + (runners + (tracing + endpoint)), name);
    LookupConcat(agents, runners + (tracing + endpoint), name);
    LookupConcat(runners, tracing + endpoint, name);
    LookupConcat(tracing, endpoint, name);
    IfSetLookup("AGYND_AGENTS_DIRECT_ADDRESS", cfg.agentsAddress, name);
    IfSetLookup("AGYND_RUNNERS_DIRECT_ADDRESS", cfg.runnersAddress, name);
    IfSetLookup("TRACING_ADDRESS", cfg.tracingAddress, name);
    IfSetLookup("OTEL_EXPORTER_OTLP_ENDPOINT",
      if cfg.tracingAddress == "" then "" else "http://" + cfg.tracingAddress, name);
  }

  /**
   * Whatever the agent and the environment set, the container gets the platform's values, or none where the
   * platform has none, unless a vendor's placeholder is to be kept in a variable of that name.
   */
  lemma PlatformValuesReach(
    who: Agent, cfg: Config, agent: Env, environment: Env, llm: Env, mcp: Option<string>, name: string)
    requires name !in Names(llm)
    requires name in {"AGENT_INSTANCE_ID", "AGYN_IDENTITY_ID", "AGENT_ID", "ENVIRONMENT_ID", "AGENT_NAME", "AGENT_ROLE",
      "AGENT_MODEL", "AGENT_CONFIG", "GATEWAY_ADDRESS", "AGYN_GATEWAY_URL", "LLM_BASE_URL",
      "AGYND_AGENTS_DIRECT_ADDRESS", "AGYND_RUNNERS_DIRECT_ADDRESS", "TRACING_ADDRESS", "OTEL_EXPORTER_OTLP_ENDPOINT"}
    ensures Lookup(MainEnv(BaseAgentEnvVars(who, cfg), agent, environment, llm, mcp), name)
      == Lookup(BaseAgentEnvVars(who, cfg), name)
  {
    LookupNames(BaseAgentEnvVars(who, cfg), name);
    hide BaseAgentEnvVars;
    hide Lookup;
    EnvFollowsPrecedence(BaseAgentEnvVars(who, cfg), agent, environment, llm, mcp, name);
  }

  /** The certificates, the sandbox marker and the MCP servers come over whatever anyone sets, but for placeholders. */
  lemma EgressValues(base: Env, agent: Env, environment: Env, llm: Env, mcp: Option<string>, name: string)
    requires name !in Names(llm)
    ensures var value := Lookup(MainEnv(base, agent, environment, llm, mcp), name);
      && (name in {"SSL_CERT_FILE", "REQUESTS_CA_BUNDLE", "NODE_EXTRA_CA_CERTS"} ==>
            value == Some("/etc/ssl/certs/ca-certificates.crt"))
      && (name == "IS_SANDBOX" ==> value == Some("1"))
      && (name == "AGENT_MCP_SERVERS" && mcp.Some? ==> value == mcp)
  {
    hide Lookup;
    EnvFollowsPrecedence(base, agent, environment, llm, mcp, name);
  }

  /** The attachment is the first of its vendor, and wants a placeholder in that variable. */
  predicate AsksFor(attachments: seq<Attachment>, i: nat, name: string) {
    && i < |attachments| && attachments[i].placeholder == Some(name) && name != ""
    && attachments[i].vendor in {Anthropic, OpenAI}
    && forall j :: 0 <= j < i ==> attachments[j].vendor != attachments[i].vendor
  }

  lemma {:induction false} PlaceholdersMean(attachments: seq<Attachment>, seen: set<Vendor>, name: string)
    ensures name in Placeholders(attachments, seen) <==>
      exists i: nat :: AsksFor(attachments, i, name) && attachments[i].vendor !in seen
    decreases |attachments|
  {
    if attachments != [] {
      var a, rest := attachments[0], attachments[1..];
      var later := if a.vendor in seen then seen else seen + {a.vendor};
      PlaceholdersMean(rest, later, name);
      forall i: nat | i < |rest| && rest[i].vendor != a.vendor
        ensures AsksFor(attachments, i + 1, name) <==> AsksFor(rest, i, name)
      {
        assert attachments[i + 1] == rest[i];
        assert forall j :: 0 <= j < i ==> attachments[j + 1] == rest[j];
      }
      if AsksFor(attachments, 0, name) && a.vendor !in seen {
        assert name in Placeholders(attachments, seen);
      }
      if i: nat :| AsksFor(attachments, i, name) && attachments[i].vendor !in seen && i > 0 {
        assert AsksFor(rest, i - 1, name) && rest[i - 1].vendor !in later;
      }
    }
  }

  /** The mode's variables, in so many words: the mode, the model if any, and the placeholders asked for. */
  lemma LLMValues(native: bool, modelName: string, attachments: seq<Attachment>, llm: Env, name: string)
    requires LLMEnvVars(native, modelName, attachments) == Some(llm)
    ensures Lookup(llm, "LLM_MODE") == Some(if native then "native" else "platform")
    ensures native && modelName != "" ==> Lookup(llm, "LLM_MODEL_NAME") == Some(modelName)
    ensures name != "LLM_MODE" && !(name == "LLM_MODEL_NAME" && modelName != "") ==>
      Lookup(llm, name) ==
        if native && exists i: nat :: AsksFor(attachments, i, name) then Some("agyn-placeholder-not-a-credential")
        else None
  {
    if native {
      var names := Placeholders(attachments, {});
      var mode := [EnvVar("LLM_MODE", "native")];
      var model := if modelName != "" then [EnvVar("LLM_MODEL_NAME", modelName)] else [];
      assert llm == mode + (model + PlaceholderVars(names));
      LookupConcat(mode, model + PlaceholderVars(names), name);
      LookupConcat(model, PlaceholderVars(names), name);
      LookupConcat(mode, model + PlaceholderVars(names), "LLM_MODEL_NAME");
      LookupConcat(model, PlaceholderVars(names), "LLM_MODEL_NAME");
      PlaceholderValues(names, name);
      PlaceholdersMean(attachments, {}, name);
    }
  }

  lemma {:induction false} PlaceholderValues(names: seq<string>, name: string)
    ensures Lookup(PlaceholderVars(names), name) == if name in names then Some(PLACEHOLDER) else None
    decreases |names|
  {
    if names != [] {
      assert PlaceholderVars(names)[1..] == PlaceholderVars(names[1..]);
      PlaceholderValues(names[1..], name);
    }
  }
}

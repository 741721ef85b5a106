/**
 Which configurations can be merged, and what a merge reports, read off the entries of the configuration
 itself.
 */
module ConfigRefusals {
  import opened Wrappers
  import opened JsonValues
  import opened ConfigMerge

  predicate IsTextList(v: Json) {
    v.JArray? && forall i :: 0 <= i < |v.items| ==> v.items[i].JString?
  }

  predicate NullOrObject(v: Json) {
    v.JNull? || v.JObject?
  }

  /** A local provider that may be completed: its own package and address, if they are given at all. */
  predicate AcceptsProvider(ollama: Json) {
    || ollama.JNull?
    || (ollama.JObject?
        && (At(ollama.entries, "npm").JNull? || At(ollama.entries, "npm") == JString("@ai-sdk/openai-compatible"))
        && (|| At(ollama.entries, "options").JNull?
            || At(ollama.entries, "options") == JObject(map["baseURL" := JString("http://127.0.0.1:11434/v1")]))
        && NullOrObject(At(ollama.entries, "models")))
  }

  /** A command that starts the same two files as the one to install. */
  predicate StartsTheSame(command: Json, place: Place) {
    && IsTextList(command) && |command.items| == 4
    && command.items[1].s == "/d" && command.items[2].s == "/c"
    && place.norm(command.items[0].s) == place.norm(place.shell)
    && place.norm(command.items[3].s) == place.norm(place.launcher)
  }

  predicate AcceptsServer(server: Json, place: Place) {
    server.JNull? || (server.JObject? && StartsTheSame(At(server.entries, "command"), place))
  }

  function Child(v: Json, key: string): Json {
    if v.JObject? then At(v.entries, key) else JNull
  }

  /** Everything the merge asks of a configuration. */
  predicate Mergeable(c: Config, place: Place) {
    && (Get(c.schema).JNull? || Get(c.schema) == JString("https://opencode.ai/config.json"))
    && (Get(c.disabled).JNull? || (IsTextList(Get(c.disabled)) && JString("ollama") !in Get(c.disabled).items))
    && (Get(c.enabled).JNull? || IsTextList(Get(c.enabled)))
    && NullOrObject(Get(c.provider)) && AcceptsProvider(Child(Get(c.provider), "ollama"))
    && NullOrObject(Get(c.mcp)) && AcceptsServer(Child(Get(c.mcp), "local_company"), place)
    && NullOrObject(Get(c.tools)) && NullOrObject(Get(c.agent))
  }

  lemma OptionsPlain(v: Json)
    ensures Equal(v, OPTIONS) <==> v == JObject(map["baseURL" := JString("http://127.0.0.1:11434/v1")])
  {
    assert Plain(OPTIONS);
    if Equal(v, OPTIONS) {
      PlainEqual(v, OPTIONS);
    }
    EqualToItself(OPTIONS);
  }

  lemma ProviderAccepted(v: Json)
    ensures ProviderPart(v).Ok? <==> NullOrObject(v) && AcceptsProvider(Child(v, "ollama"))
  {
    OptionsPlain(At(Entries(Some(Child(v, "ollama"))), "options"));
  }

  lemma ServerAccepted(v: Json, place: Place)
    ensures McpPart(v, place).Ok? <==> NullOrObject(v) && AcceptsServer(Child(v, "local_company"), place)
  {
  }

  /** A merge goes through exactly then. */
  lemma MergesExactly(c: Config, place: Place)
    ensures Merge(c, place).Ok? <==> Mergeable(c, place)
  {
    ProviderAccepted(Get(c.provider));
    ServerAccepted(Get(c.mcp), place);
  }

  /** What a refusal says is true of the configuration. */
  predicate Explains(why: Failure, c: Config, place: Place) {
    var ollama := Child(Get(c.provider), "ollama");
    match why
    case SchemaConflict => !Get(c.schema).JNull? && Get(c.schema) != JString("https://opencode.ai/config.json")
    case DisabledInvalid => !Get(c.disabled).JNull? && !IsTextList(Get(c.disabled))
    case OllamaDisabled => Get(c.disabled).JArray? && JString("ollama") in Get(c.disabled).items
    case EnabledInvalid => !Get(c.enabled).JNull? && !IsTextList(Get(c.enabled))
    case ProviderInvalid => !NullOrObject(Get(c.provider))
    case OllamaInvalid => !NullOrObject(ollama)
    case PackageConflict => !Child(ollama, "npm").JNull? && Child(ollama, "npm") != JString("@ai-sdk/openai-compatible")
    case EndpointConflict =>
      && !Child(ollama, "options").JNull?
      && Child(ollama, "options") != JObject(map["baseURL" := JString("http://127.0.0.1:11434/v1")])
    case ModelsInvalid => !NullOrObject(Child(ollama, "models"))
    case McpInvalid => !NullOrObject(Get(c.mcp))
    case McpConflict => !AcceptsServer(Child(Get(c.mcp), "local_company"), place)
    case ToolsInvalid => !NullOrObject(Get(c.tools))
    case AgentInvalid => !NullOrObject(Get(c.agent))
    case NotHashable => IsContainer(Get(c.schema)) || IsContainer(Child(ollama, "npm"))
  }

  predicate IsContainer(v: Json) {
    v.JArray? || v.JObject?
  }

  lemma ProviderRefused(v: Json)
    requires ProviderPart(v).Err?
    ensures Explains(ProviderPart(v).error,
                     Config(None, None, None, Some(v), None, None, None, None, None, map[]),
                     Place("", "", map[], s => s))
  {
    OptionsPlain(At(Entries(Some(Child(v, "ollama"))), "options"));
  }

  lemma ServerRefused(v: Json, place: Place)
    requires McpPart(v, place).Err?
    ensures McpPart(v, place).error.McpInvalid? || McpPart(v, place).error.McpConflict?
    ensures McpPart(v, place).error.McpInvalid? ==> !NullOrObject(v)
    ensures McpPart(v, place).error.McpConflict? ==> !AcceptsServer(Child(v, "local_company"), place)
  {
  }

  lemma EntriesRefused(c: Config, place: Place)
    requires CheckEntries(c).Some?
    ensures Explains(CheckEntries(c).value, c, place)
  {
  }

  lemma PartsRefused(c: Config, place: Place)
    requires PartsOf(c, place).Err?
    ensures Explains(PartsOf(c, place).error, c, place)
  {
    if ProviderPart(Get(c.provider)).Err? {
      ProviderRefused(Get(c.provider));
    } else if McpPart(Get(c.mcp), place).Err? {
      ServerRefused(Get(c.mcp), place);
    } else {
      assert ToolsPart(Get(c.tools)).Err? || AgentPart(Get(c.agent), place).Err?;
    }
  }

  lemma RefusalExplains(c: Config, place: Place)
    requires Merge(c, place).Err?
    ensures Explains(Merge(c, place).error, c, place)
  {
    if CheckEntries(c).Some? {
      EntriesRefused(c, place);
    } else {
      PartsRefused(c, place);
    }
  }

  // ----- what is reported -----

  predicate IsMade(f: Flags, x: Change) {
    match x
    case SchemaAdded => f.schema
    case PolicyConfigured => f.policy
    case ProviderConfigured => f.provider
    case McpConfigured => f.mcp
    case ToolsDenied => f.tools
    case AgentConfigured => f.agent
    case ModelConfigured => f.model
    case SmallModelConfigured => f.small
  }

  lemma InTwo(a: seq<Change>, made: bool, change: Change, x: Change)
    ensures x in a + If(made, change) <==> x in a || (made && x == change)
  {
  }

  lemma AmongFour(a: seq<Change>, first: bool, second: bool, third: bool, fourth: bool, w: Change, v: Change, u: Change,
                  t: Change, x: Change)
    ensures x in a + If(first, w) + If(second, v) + If(third, u) + If(fourth, t)
            <==> x in a || (first && x == w) || (second && x == v) || (third && x == u) || (fourth && x == t)
  {
    InTwo(a, first, w, x);
    InTwo(a + If(first, w), second, v, x);
    InTwo(a + If(first, w) + If(second, v), third, u, x);
    InTwo(a + If(first, w) + If(second, v) + If(third, u), fourth, t, x);
  }

  lemma InChanges(f: Flags, x: Change)
    ensures x in ChangesIn(f) <==> IsMade(f, x)
  {
    var first := [] + If(f.schema, SchemaAdded) + If(f.policy, PolicyConfigured) + If(f.provider, ProviderConfigured)
                 + If(f.mcp, McpConfigured);
    AmongFour([], f.schema, f.policy, f.provider, f.mcp, SchemaAdded, PolicyConfigured, ProviderConfigured,
              McpConfigured, x);
    AmongFour(first, f.tools, f.agent, f.model, f.small, ToolsDenied, AgentConfigured, ModelConfigured,
              SmallModelConfigured, x);
    assert [] + If(f.schema, SchemaAdded) == If(f.schema, SchemaAdded);
  }

  lemma PartsChange(c: Config, place: Place, p: Parts)
    requires PartsOf(c, place) == Ok(p)
    ensures p.provider.changed <==> p.provider.value != Get(c.provider)
    ensures p.mcp.changed <==> p.mcp.value != Get(c.mcp)
    ensures p.tools.changed <==> p.tools.value != Get(c.tools)
    ensures p.agent.changed <==> p.agent.value != Get(c.agent)
  {
    ProviderChangeIsReal(Get(c.provider));
    McpChangeIsReal(Get(c.mcp), place);
    ToolsChangeIsReal(Get(c.tools));
    AgentChangeIsReal(Get(c.agent), place);
  }

  lemma ToolsChangeIsReal(v: Json)
    requires ToolsPart(v).Ok?
    ensures ToolsPart(v).value.changed <==> ToolsPart(v).value.value != v
  {
  }

  lemma AgentChangeIsReal(v: Json, place: Place)
    requires AgentPart(v, place).Ok?
    ensures AgentPart(v, place).value.changed <==> AgentPart(v, place).value.value != v
  {
    EqualToItself(JObject(place.agent));
  }

  /** The entry that a change names is not what it was. */
  predicate IsChanged(c: Config, m: Config, x: Change) {
    match x
    case SchemaAdded => Get(m.schema) != Get(c.schema)
    case PolicyConfigured => Get(m.enabled) != Get(c.enabled)
    case ProviderConfigured => Get(m.provider) != Get(c.provider)
    case McpConfigured => Get(m.mcp) != Get(c.mcp)
    case ToolsDenied => Get(m.tools) != Get(c.tools)
    case AgentConfigured => Get(m.agent) != Get(c.agent)
    case ModelConfigured => Get(m.model) != Get(c.model)
    case SmallModelConfigured => Get(m.smallModel) != Get(c.smallModel)
  }

  /** Each change is reported exactly when its entry is not what it was. */
  predicate ChangesTell(c: Config, m: Config, changes: seq<Change>) {
    forall x :: x in changes <==> IsChanged(c, m, x)
  }

  predicate IsPartChange(x: Change) {
    x.ProviderConfigured? || x.McpConfigured? || x.ToolsDenied? || x.AgentConfigured?
  }

  lemma PartFlagsAreTrue(c: Config, place: Place, p: Parts, x: Change)
    requires PartsOf(c, place) == Ok(p) && IsPartChange(x)
    ensures IsMade(FlagsOf(c, p), x) <==> IsChanged(c, Installed(c, p), x)
  {
    PartsChange(c, place, p);
  }

  lemma OwnFlagsAreTrue(c: Config, place: Place, p: Parts, x: Change)
    requires CheckEntries(c).None? && PartsOf(c, place) == Ok(p) && !IsPartChange(x)
    ensures IsMade(FlagsOf(c, p), x) <==> IsChanged(c, Installed(c, p), x)
  {
  }

  lemma EachChange(c: Config, place: Place)
    requires Merge(c, place).Ok?
    ensures ChangesTell(c, Merge(c, place).value.0, Merge(c, place).value.1)
  {
    var p := PartsOf(c, place).value;
    MergeByParts(c, place, p);
    forall x ensures x in ChangesIn(FlagsOf(c, p)) <==> IsChanged(c, Installed(c, p), x) {
      InChanges(FlagsOf(c, p), x);
      if IsPartChange(x) {
        PartFlagsAreTrue(c, place, p, x);
      } else {
        OwnFlagsAreTrue(c, place, p, x);
      }
    }
  }

  /** A server that was not there is installed as this one. */
  lemma NewServer(c: Config, place: Place)
    requires Merge(c, place).Ok? && Child(Get(c.mcp), "local_company").JNull?
    ensures Child(Get(Merge(c, place).value.0.mcp), "local_company") ==
            JObject(map["type" := JString("local"), "enabled" := JBool(true), "timeout" := JInt(900000),
                        "environment" := JObject(map["LOCAL_COMPANY_MCP_PROFILE" := JString("compact")]),
                        "command" := JArray([JString(place.shell), JString("/d"), JString("/c"),
                                             JString(place.launcher)])])
  {
  }
}

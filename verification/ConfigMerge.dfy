/**
 Merging the local company into an existing OpenCode configuration: what is added, what is kept, and
 when nothing is left to change. `Equal` is Python's equality between JSON values, so that True equals
 1 and 1 equals 1.0; `==` is sameness.
 */
module ConfigMerge {
  import opened Wrappers
  import opened JsonValues

  // ----- a configuration -----

  /** A configuration object: the entries the merge looks at, and all others. */
  datatype Config = Config(
    schema: Option<Json>, disabled: Option<Json>, enabled: Option<Json>, provider: Option<Json>,
    mcp: Option<Json>, tools: Option<Json>, agent: Option<Json>, model: Option<Json>, smallModel: Option<Json>,
    others: map<string, Json>)

  const SCHEMA_URL := "https://opencode.ai/config.json"
  const BASE_URL := "http://127.0.0.1:11434/v1"
  const PACKAGE := "@ai-sdk/openai-compatible"
  const SMALL := "llama3.2:1b"
  const QUALITY := "llama3.2:3b"
  const AGENT_MODEL := "ollama/llama3.2:1b"

  /** Where the local company is installed, the agent to install, and how a path is normalised. */
  datatype Place = Place(shell: string, launcher: string, agent: map<string, Json>, norm: string -> string)

  datatype Change =
    | SchemaAdded | PolicyConfigured | ProviderConfigured | McpConfigured | ToolsDenied | AgentConfigured
    | ModelConfigured | SmallModelConfigured

  datatype Failure =
    | SchemaConflict | DisabledInvalid | OllamaDisabled | EnabledInvalid | ProviderInvalid | OllamaInvalid
    | PackageConflict | EndpointConflict | ModelsInvalid | McpInvalid | McpConflict | ToolsInvalid | AgentInvalid
    | NotHashable

  /** A missing entry and a null one read the same. */
  function Get(o: Option<Json>): Json {
    if o.None? then JNull else o.value
  }

  /** _dict: an object, nothing for null, or a failure. */
  function AsObject(v: Json, why: Failure): (r: Result<map<string, Json>, Failure>)
    ensures r.Ok? <==> v.JNull? || v.JObject?
    ensures v.JObject? ==> r == Ok(v.entries)
    ensures v.JNull? ==> r == Ok(map[])
    ensures r.Err? ==> r.error == why
  {
    match v
    case JNull => Ok(map[])
    case JObject(entries) => Ok(entries)
    case _ => Err(why)
  }

  /** What one part of the merge makes of its entry, and whether it counts as a change. */
  datatype Part = Part(value: Json, changed: bool)

  // ----- the parts -----

  /** A value compared with a set of texts must be hashable. */
  function CheckText(v: Json, expected: string, why: Failure): (r: Option<Failure>)
    ensures r.None? <==> v.JNull? || v == JString(expected)
  {
    if v.JArray? || v.JObject? then Some(NotHashable)
    else if v.JNull? || v == JString(expected) then None
    else Some(why)
  }

  predicate AllStrings(v: Json) {
    v.JArray? && forall i :: 0 <= i < |v.items| ==> v.items[i].JString?
  }

  function CheckDisabled(v: Json): Option<Failure> {
    if v.JNull? then None
    else if !AllStrings(v) then Some(DisabledInvalid)
    else if JString("ollama") in v.items then Some(OllamaDisabled)
    else None
  }

  const POLICY := JArray([JString("ollama")])

  const OPTIONS := JObject(map["baseURL" := JString(BASE_URL)])

  function Named(name: string): Json {
    JObject(map["name" := JString(name)])
  }

  const MODELS := JObject(map[
    SMALL := Named("Llama 3.2 1B - low-memory local default"),
    QUALITY := Named("Llama 3.2 3B - memory-gated local quality")])

  /** What the provider entry always holds. */
  const LOCAL_PROVIDER := map[
    "npm" := JString(PACKAGE), "name" := JString("Ollama (local only)"), "options" := OPTIONS, "models" := MODELS]

  lemma LocalProviderEntries()
    ensures At(LOCAL_PROVIDER, "npm") == JString(PACKAGE)
    ensures At(LOCAL_PROVIDER, "options") == OPTIONS && At(LOCAL_PROVIDER, "models") == MODELS
    ensures "npm" in LOCAL_PROVIDER && "options" in LOCAL_PROVIDER && "models" in LOCAL_PROVIDER
  {
    assert |"npm"| == 3 && |"name"| == 4 && |"options"| == 7 && |"models"| == 6;
  }

  function CheckProvider(ollama: map<string, Json>): (r: Option<Failure>)
  {
    if ollama == map[] then None
    else if CheckText(At(ollama, "npm"), PACKAGE, PackageConflict).Some? then
      CheckText(At(ollama, "npm"), PACKAGE, PackageConflict)
    else if !At(ollama, "options").JNull? && !Equal(At(ollama, "options"), OPTIONS) then Some(EndpointConflict)
    else if !At(ollama, "models").JNull? && !At(ollama, "models").JObject? then Some(ModelsInvalid)
    else None
  }

  /** The provider entry holds the local provider alone, with its own further fields kept. */
  function ProviderPart(v: Json): Result<Part, Failure> {
    match AsObject(v, ProviderInvalid)
    case Err(e) => Err(e)
    case Ok(providers) =>
      match AsObject(At(providers, "ollama"), OllamaInvalid)
      case Err(e) => Err(e)
      case Ok(ollama) =>
        if CheckProvider(ollama).Some? then Err(CheckProvider(ollama).value)
        else
          var desired := map["ollama" := JObject(ollama + LOCAL_PROVIDER)];
          Ok(Part(JObject(desired), !Equal(JObject(providers), JObject(desired))))
  }

  /** The command that starts the local company, over two paths. */
  function Command(shell: string, launcher: string): Json {
    JArray([JString(shell), JString("/d"), JString("/c"), JString(launcher)])
  }

  const COMMAND_KEY := "command"

  function DesiredMcp(shell: string, launcher: string): map<string, Json> {
    map["type" := JString("local"), "enabled" := JBool(true), "timeout" := JInt(900000),
        "environment" := JObject(map["LOCAL_COMPANY_MCP_PROFILE" := JString("compact")]),
        COMMAND_KEY := Command(shell, launcher)]
  }

  lemma DesiredMcpCommand(shell: string, launcher: string)
    ensures At(DesiredMcp(shell, launcher), COMMAND_KEY) == Command(shell, launcher)
  {
  }

  /** An existing command that starts the same two files, however their paths are spelled. */
  predicate SameCommand(command: Json, place: Place) {
    && AllStrings(command) && |command.items| == 4
    && command.items[1] == JString("/d") && command.items[2] == JString("/c")
    && place.norm(command.items[0].s) == place.norm(place.shell)
    && place.norm(command.items[3].s) == place.norm(place.launcher)
  }

  /** The entry to install over what is there, or a failure. The spelling of the paths is kept. */
  function McpEntry(current: Json, place: Place): Result<map<string, Json>, Failure> {
    match current
    case JNull => Ok(DesiredMcp(place.shell, place.launcher))
    case JObject(entries) =>
      var command := At(entries, COMMAND_KEY);
      if SameCommand(command, place) then Ok(DesiredMcp(command.items[0].s, command.items[3].s)) else Err(McpConflict)
    case _ => Err(McpConflict)
  }

  function McpPart(v: Json, place: Place): Result<Part, Failure> {
    match AsObject(v, McpInvalid)
    case Err(e) => Err(e)
    case Ok(mcp) =>
      var current := At(mcp, "local_company");
      match McpEntry(current, place)
      case Err(e) => Err(e)
      case Ok(desired) =>
        if Equal(current, JObject(desired)) then Ok(Part(JObject(mcp), false))
        else Ok(Part(JObject(mcp["local_company" := JObject(desired)]), true))
  }

  /** `is not False`: only the boolean itself will do. */
  function ToolsPart(v: Json): Result<Part, Failure> {
    match AsObject(v, ToolsInvalid)
    case Err(e) => Err(e)
    case Ok(tools) =>
      if At(tools, "local_company_*") == JBool(false) then Ok(Part(JObject(tools), false))
      else Ok(Part(JObject(tools["local_company_*" := JBool(false)]), true))
  }

  function AgentPart(v: Json, place: Place): Result<Part, Failure> {
    match AsObject(v, AgentInvalid)
    case Err(e) => Err(e)
    case Ok(agents) =>
      if Equal(At(agents, "local-company"), JObject(place.agent)) then Ok(Part(JObject(agents), false))
      else Ok(Part(JObject(agents["local-company" := JObject(place.agent)]), true))
  }

  // ----- what each part leaves behind -----

  lemma LocalProviderIsPlain()
    ensures forall k :: k in LOCAL_PROVIDER ==> Plain(LOCAL_PROVIDER[k])
  {
    assert Plain(OPTIONS);
    assert Plain(Named("Llama 3.2 1B - low-memory local default"));
    assert Plain(Named("Llama 3.2 3B - memory-gated local quality"));
    assert Plain(MODELS);
  }

  /** An object that equals itself overlaid with plain entries is unchanged by the overlay. */
  lemma OverlayChangesNothing(m: map<string, Json>, overlay: map<string, Json>)
    requires forall k :: k in overlay ==> Plain(overlay[k])
    requires Equal(JObject(m), JObject(m + overlay))
    ensures m == m + overlay
  {
    forall k | k in overlay ensures k in m && m[k] == overlay[k] {
      assert k in (m + overlay).Keys;
      assert Equal(m[k], (m + overlay)[k]);
      PlainEqual(m[k], overlay[k]);
    }
  }

  lemma ProviderSettles(v: Json)
    requires ProviderPart(v).Ok?
    ensures ProviderPart(ProviderPart(v).value.value) == Ok(Part(ProviderPart(v).value.value, false))
  {
    var ollama := AsObject(At(AsObject(v, ProviderInvalid).value, "ollama"), OllamaInvalid).value;
    var merged := ollama + LOCAL_PROVIDER;
    LocalProviderEntries();
    assert merged + LOCAL_PROVIDER == merged;
    assert At(merged, "npm") == JString(PACKAGE) && At(merged, "options") == OPTIONS && At(merged, "models") == MODELS;
    EqualToItself(OPTIONS);
    EqualToItself(JObject(map["ollama" := JObject(merged)]));
  }

  lemma ProviderChangeIsReal(v: Json)
    requires ProviderPart(v).Ok?
    ensures ProviderPart(v).value.changed <==> ProviderPart(v).value.value != v
  {
    var providers := AsObject(v, ProviderInvalid).value;
    var ollama := AsObject(At(providers, "ollama"), OllamaInvalid).value;
    var desired := map["ollama" := JObject(ollama + LOCAL_PROVIDER)];
    EqualToItself(JObject(desired));
    if Equal(JObject(providers), JObject(desired)) {
      LocalProviderIsPlain();
      OneProviderSeen(providers, ollama, LOCAL_PROVIDER);
    }
  }

  lemma OneProviderSeen(providers: map<string, Json>, ollama: map<string, Json>, overlay: map<string, Json>)
    requires AsObject(At(providers, "ollama"), OllamaInvalid) == Ok(ollama)
    requires forall k :: k in overlay ==> Plain(overlay[k])
    requires Equal(JObject(providers), JObject(map["ollama" := JObject(ollama + overlay)]))
    ensures providers == map["ollama" := JObject(ollama + overlay)]
  {
    var desired := map["ollama" := JObject(ollama + overlay)];
    assert "ollama" in desired.Keys && "ollama" in providers;
    assert Equal(providers["ollama"], desired["ollama"]);
    assert providers["ollama"] == JObject(ollama);
    OverlayChangesNothing(ollama, overlay);
    assert providers == desired;
  }

  /** The provider entry keeps its own further fields, and no other provider. */
  lemma ProviderKeeps(v: Json, key: string)
    requires ProviderPart(v).Ok? && key !in LOCAL_PROVIDER
    ensures At(AsObject(At(ProviderPart(v).value.value.entries, "ollama"), OllamaInvalid).value, key)
            == At(AsObject(At(AsObject(v, ProviderInvalid).value, "ollama"), OllamaInvalid).value, key)
    ensures ProviderPart(v).value.value.entries.Keys == {"ollama"}
  {
  }

  /** The entry to install over an installed one is that one. */
  lemma McpEntrySettles(current: Json, place: Place)
    requires McpEntry(current, place).Ok?
    ensures McpEntry(JObject(McpEntry(current, place).value), place) == McpEntry(current, place)
  {
    if current.JNull? {
      DesiredMcpCommand(place.shell, place.launcher);
    } else {
      var command := At(current.entries, COMMAND_KEY);
      DesiredMcpCommand(command.items[0].s, command.items[3].s);
    }
  }

  lemma McpSettles(v: Json, place: Place)
    requires McpPart(v, place).Ok?
    ensures McpPart(McpPart(v, place).value.value, place) == Ok(Part(McpPart(v, place).value.value, false))
  {
    var mcp := AsObject(v, McpInvalid).value;
    var current := At(mcp, "local_company");
    var desired := McpEntry(current, place).value;
    EqualToItself(JObject(desired));
    McpEntrySettles(current, place);
  }

  lemma McpChangeIsReal(v: Json, place: Place)
    requires McpPart(v, place).Ok?
    ensures McpPart(v, place).value.changed <==> McpPart(v, place).value.value != v
  {
    var mcp := AsObject(v, McpInvalid).value;
    var current := At(mcp, "local_company");
    var desired := McpEntry(current, place).value;
    EqualToItself(JObject(desired));
  }

  // ----- the merge -----

  datatype Parts = Parts(provider: Part, mcp: Part, tools: Part, agent: Part)

  function PartsOf(c: Config, place: Place): Result<Parts, Failure> {
    match ProviderPart(Get(c.provider))
    case Err(e) => Err(e)
    case Ok(provider) =>
      match McpPart(Get(c.mcp), place)
      case Err(e) => Err(e)
      case Ok(mcp) =>
        match ToolsPart(Get(c.tools))
        case Err(e) => Err(e)
        case Ok(tools) =>
          match AgentPart(Get(c.agent), place)
          case Err(e) => Err(e)
          case Ok(agent) => Ok(Parts(provider, mcp, tools, agent))
  }

  function CheckEntries(c: Config): Option<Failure> {
    if CheckText(Get(c.schema), SCHEMA_URL, SchemaConflict).Some? then
      CheckText(Get(c.schema), SCHEMA_URL, SchemaConflict)
    else if CheckDisabled(Get(c.disabled)).Some? then CheckDisabled(Get(c.disabled))
    else if !Get(c.enabled).JNull? && !AllStrings(Get(c.enabled)) then Some(EnabledInvalid)
    else None
  }

  /** Each change with whether it is made. */
  function If(made: bool, change: Change): seq<Change> {
    if made then [change] else []
  }

  /** What is changed, entry by entry. */
  datatype Flags = Flags(schema: bool, policy: bool, provider: bool, mcp: bool, tools: bool, agent: bool, model: bool,
                         small: bool)

  function FlagsOf(c: Config, parts: Parts): Flags {
    Flags(Get(c.schema).JNull?, Get(c.enabled) != POLICY, parts.provider.changed, parts.mcp.changed,
          parts.tools.changed, parts.agent.changed, Get(c.model) != JString(AGENT_MODEL),
          Get(c.smallModel) != JString(AGENT_MODEL))
  }

  function ChangesIn(f: Flags): seq<Change> {
    If(f.schema, SchemaAdded)
    + If(f.policy, PolicyConfigured)
    + If(f.provider, ProviderConfigured)
    + If(f.mcp, McpConfigured)
    + If(f.tools, ToolsDenied)
    + If(f.agent, AgentConfigured)
    + If(f.model, ModelConfigured)
    + If(f.small, SmallModelConfigured)
  }

  function Changes(c: Config, parts: Parts): seq<Change> {
    ChangesIn(FlagsOf(c, parts))
  }

  /** The configuration with every managed entry in place. */
  function Installed(c: Config, parts: Parts): Config {
    Config(Some(JString(SCHEMA_URL)), c.disabled, Some(POLICY), Some(parts.provider.value), Some(parts.mcp.value),
           Some(parts.tools.value), Some(parts.agent.value), Some(JString(AGENT_MODEL)), Some(JString(AGENT_MODEL)),
           c.others)
  }

  function Merge(c: Config, place: Place): Result<(Config, seq<Change>), Failure> {
    if CheckEntries(c).Some? then Err(CheckEntries(c).value)
    else
      match PartsOf(c, place)
      case Err(e) => Err(e)
      case Ok(parts) => Ok((Installed(c, parts), Changes(c, parts)))
  }

  /** The schema, the provider lists and the policy. */
  method MergePolicy(existing: Config) returns (r: Result<(Config, seq<Change>), Failure>)
    ensures r.Err? <==> CheckEntries(existing).Some?
    ensures r.Err? ==> Some(r.error) == CheckEntries(existing)
    ensures r.Ok? ==> r.value.0 == existing.(schema := Some(JString(SCHEMA_URL)), enabled := Some(POLICY))
                      && r.value.1 == If(Get(existing.schema).JNull?, SchemaAdded)
                                      + If(Get(existing.enabled) != POLICY, PolicyConfigured)
  {
    var merged, changes := existing, [];
    var failure := CheckText(Get(merged.schema), SCHEMA_URL, SchemaConflict);
    if failure.Some? { return Err(failure.value); }
    if Get(merged.schema).JNull? {
      merged, changes := merged.(schema := Some(JString(SCHEMA_URL))), changes + [SchemaAdded];
    }
    failure := CheckDisabled(Get(merged.disabled));
    if failure.Some? { return Err(failure.value); }
    if !Get(merged.enabled).JNull? && !AllStrings(Get(merged.enabled)) { return Err(EnabledInvalid); }
    if Get(merged.enabled) != POLICY {
      merged, changes := merged.(enabled := Some(POLICY)), changes + [PolicyConfigured];
    }
    return Ok((merged, changes));
  }

  /** The merge as it is carried out: entry by entry on a copy, noting each change as it is made. */
  method MergeConfig(existing: Config, place: Place) returns (r: Result<(Config, seq<Change>), Failure>)
    ensures r == Merge(existing, place)
  {
    var policy := MergePolicy(existing);
    if policy.Err? { return Err(policy.error); }
    var (merged, changes) := policy.value;
    var provider := ProviderPart(Get(merged.provider));
    if provider.Err? { return Err(provider.error); }
    merged := merged.(provider := Some(provider.value.value));
    changes := changes + If(provider.value.changed, ProviderConfigured);
    var mcp := McpPart(Get(merged.mcp), place);
    if mcp.Err? { return Err(mcp.error); }
    merged, changes := merged.(mcp := Some(mcp.value.value)), changes + If(mcp.value.changed, McpConfigured);
    var tools := ToolsPart(Get(merged.tools));
    if tools.Err? { return Err(tools.error); }
    merged, changes := merged.(tools := Some(tools.value.value)), changes + If(tools.value.changed, ToolsDenied);
    var agent := AgentPart(Get(merged.agent), place);
    if agent.Err? { return Err(agent.error); }
    merged, changes := merged.(agent := Some(agent.value.value)), changes + If(agent.value.changed, AgentConfigured);
    changes := changes + If(Get(merged.model) != JString(AGENT_MODEL), ModelConfigured);
    changes := changes + If(Get(merged.smallModel) != JString(AGENT_MODEL), SmallModelConfigured);
    merged := merged.(model := Some(JString(AGENT_MODEL)), smallModel := Some(JString(AGENT_MODEL)));
    return Ok((merged, changes));
  }

  // ----- what the merge promises -----

  lemma ToolsSettle(v: Json)
    requires ToolsPart(v).Ok?
    ensures ToolsPart(ToolsPart(v).value.value) == Ok(Part(ToolsPart(v).value.value, false))
    ensures ToolsPart(v).value.changed <==> ToolsPart(v).value.value != v
  {
  }

  lemma AgentSettles(v: Json, place: Place)
    requires AgentPart(v, place).Ok?
    ensures AgentPart(AgentPart(v, place).value.value, place) == Ok(Part(AgentPart(v, place).value.value, false))
    ensures AgentPart(v, place).value.changed <==> AgentPart(v, place).value.value != v
  {
    EqualToItself(JObject(place.agent));
  }

  lemma PartsSettle(c: Config, place: Place, p: Parts)
    requires PartsOf(c, place) == Ok(p)
    ensures PartsOf(Installed(c, p), place) ==
            Ok(Parts(Part(p.provider.value, false), Part(p.mcp.value, false), Part(p.tools.value, false),
                     Part(p.agent.value, false)))
  {
    ProviderSettles(Get(c.provider));
    McpSettles(Get(c.mcp), place);
    ToolsSettle(Get(c.tools));
    AgentSettles(Get(c.agent), place);
  }

  /** Each part reports a change exactly when it makes one. */
  ghost predicate Truthful(c: Config, p: Parts) {
    && (p.provider.changed <==> c.provider != Some(p.provider.value)) && (p.mcp.changed <==> c.mcp != Some(p.mcp.value))
    && (p.tools.changed <==> c.tools != Some(p.tools.value)) && (p.agent.changed <==> c.agent != Some(p.agent.value))
  }

  lemma PartsAreTruthful(c: Config, place: Place, p: Parts)
    requires PartsOf(c, place) == Ok(p)
    ensures Truthful(c, p)
  {
    ProviderChangeIsReal(Get(c.provider));
    McpChangeIsReal(Get(c.mcp), place);
    ToolsSettle(Get(c.tools));
    AgentSettles(Get(c.agent), place);
  }

  lemma TruthfulChanges(c: Config, p: Parts)
    requires Truthful(c, p) && CheckEntries(c).None?
    ensures Changes(c, p) == [] <==> Installed(c, p) == c
  {
  }

  lemma SettledChanges(c: Config, p: Parts)
    requires !p.provider.changed && !p.mcp.changed && !p.tools.changed && !p.agent.changed
    requires CheckEntries(c).None?
    ensures CheckEntries(Installed(c, p)).None?
    ensures Changes(Installed(c, p), p) == []
    ensures Installed(Installed(c, p), p) == Installed(c, p)
  {
    assert AllStrings(POLICY);
  }

  /** Merging again succeeds, changes nothing and gives the same value. */
  lemma MergeIsIdempotent(c: Config, place: Place)
    requires Merge(c, place).Ok?
    ensures Merge(Merge(c, place).value.0, place) == Ok((Merge(c, place).value.0, []))
  {
    var p := PartsOf(c, place).value;
    PartsSettle(c, place, p);
    var q := Parts(Part(p.provider.value, false), Part(p.mcp.value, false), Part(p.tools.value, false),
                   Part(p.agent.value, false));
    assert Installed(c, p) == Installed(c, q);
    SettledChanges(c, q);
  }

  /** No change is reported exactly when the result is the very configuration that was given. */
  lemma NoChangesMeansSame(c: Config, place: Place)
    requires Merge(c, place).Ok?
    ensures Merge(c, place).value.1 == [] <==> Merge(c, place).value.0 == c
  {
    var p := PartsOf(c, place).value;
    PartsAreTruthful(c, place, p);
    TruthfulChanges(c, p);
  }

  // ----- what is installed -----

  /** The provider entry is the local provider alone. */
  ghost predicate ProviderInstalled(v: Json) {
    && v.JObject? && v.entries.Keys == {"ollama"} && v.entries["ollama"].JObject?
    && forall k :: k in LOCAL_PROVIDER ==> At(v.entries["ollama"].entries, k) == LOCAL_PROVIDER[k]
  }

  /** The company's server is started by its own command, over the right two files. */
  ghost predicate McpInstalled(v: Json, place: Place) {
    && v.JObject?
    && exists shell, launcher ::
         && Equal(At(v.entries, "local_company"), JObject(DesiredMcp(shell, launcher)))
         && place.norm(shell) == place.norm(place.shell) && place.norm(launcher) == place.norm(place.launcher)
  }

  ghost predicate Denied(v: Json) {
    v.JObject? && At(v.entries, "local_company_*") == JBool(false)
  }

  ghost predicate AgentInstalled(v: Json, place: Place) {
    v.JObject? && Equal(At(v.entries, "local-company"), JObject(place.agent))
  }

  lemma ProviderIsInstalled(v: Json)
    requires ProviderPart(v).Ok?
    ensures ProviderInstalled(ProviderPart(v).value.value)
  {
  }

  lemma McpIsInstalled(v: Json, place: Place)
    requires McpPart(v, place).Ok?
    ensures McpInstalled(McpPart(v, place).value.value, place)
  {
    var current := At(AsObject(v, McpInvalid).value, "local_company");
    var desired := McpEntry(current, place).value;
    EqualToItself(JObject(desired));
    var command := if current.JObject? then At(current.entries, COMMAND_KEY) else Command(place.shell, place.launcher);
    assert desired == DesiredMcp(command.items[0].s, command.items[3].s);
  }

  lemma AgentIsInstalled(v: Json, place: Place)
    requires AgentPart(v, place).Ok?
    ensures AgentInstalled(AgentPart(v, place).value.value, place)
  {
    EqualToItself(JObject(place.agent));
  }

  lemma PartsAreInstalled(c: Config, place: Place, p: Parts)
    requires PartsOf(c, place) == Ok(p)
    ensures ProviderInstalled(p.provider.value) && McpInstalled(p.mcp.value, place)
    ensures Denied(p.tools.value) && AgentInstalled(p.agent.value, place)
  {
    ProviderIsInstalled(Get(c.provider));
    McpIsInstalled(Get(c.mcp), place);
    AgentIsInstalled(Get(c.agent), place);
  }

  /** A merged configuration allows only the local provider, denies the company's tools globally, and
      has server, agent and models in place. */
  lemma MergeInstalls(c: Config, place: Place)
    requires Merge(c, place).Ok?
    ensures var m := Merge(c, place).value.0;
            && Get(m.schema) == JString(SCHEMA_URL) && Get(m.enabled) == POLICY
            && Get(m.model) == Get(m.smallModel) == JString(AGENT_MODEL)
            && ProviderInstalled(Get(m.provider)) && McpInstalled(Get(m.mcp), place)
            && Denied(Get(m.tools)) && AgentInstalled(Get(m.agent), place)
  {
    PartsAreInstalled(c, place, PartsOf(c, place).value);
  }

  // ----- what is kept -----

  /** The entries of an object, none for a missing or null one. */
  function Entries(o: Option<Json>): map<string, Json> {
    match Get(o)
    case JObject(entries) => entries
    case _ => map[]
  }

  predicate KeepsAllBut(before: map<string, Json>, after: map<string, Json>, key: string) {
    after - {key} == before - {key}
  }

  ghost predicate KeepsOthers(c: Config, p: Parts) {
    && p.mcp.value.JObject? && KeepsAllBut(Entries(c.mcp), p.mcp.value.entries, "local_company")
    && p.tools.value.JObject? && KeepsAllBut(Entries(c.tools), p.tools.value.entries, "local_company_*")
    && p.agent.value.JObject? && KeepsAllBut(Entries(c.agent), p.agent.value.entries, "local-company")
  }

  lemma PartsKeep(c: Config, place: Place, p: Parts)
    requires PartsOf(c, place) == Ok(p)
    ensures KeepsOthers(c, p)
  {
    McpKeeps(Get(c.mcp), place);
    ToolsKeep(Get(c.tools));
    AgentsKeep(Get(c.agent), place);
  }

  /** Every entry the merge does not manage is kept as it was. */
  lemma MergeKeepsTheRest(c: Config, place: Place)
    requires Merge(c, place).Ok?
    ensures var m := Merge(c, place).value.0;
            && m.others == c.others && m.disabled == c.disabled
            && KeepsAllBut(Entries(c.mcp), Entries(m.mcp), "local_company")
            && KeepsAllBut(Entries(c.tools), Entries(m.tools), "local_company_*")
            && KeepsAllBut(Entries(c.agent), Entries(m.agent), "local-company")
  {
    var p := PartsOf(c, place).value;
    PartsKeep(c, place, p);
    InstalledKeeps(c, p);
  }

  lemma InstalledKeeps(c: Config, p: Parts)
    requires KeepsOthers(c, p)
    ensures var m := Installed(c, p);
            && m.others == c.others && m.disabled == c.disabled
            && KeepsAllBut(Entries(c.mcp), Entries(m.mcp), "local_company")
            && KeepsAllBut(Entries(c.tools), Entries(m.tools), "local_company_*")
            && KeepsAllBut(Entries(c.agent), Entries(m.agent), "local-company")
  {
  }

  lemma ToolsKeep(v: Json)
    requires ToolsPart(v).Ok?
    ensures ToolsPart(v).value.value.JObject?
    ensures KeepsAllBut(AsObject(v, ToolsInvalid).value, ToolsPart(v).value.value.entries, "local_company_*")
  {
  }

  lemma AgentsKeep(v: Json, place: Place)
    requires AgentPart(v, place).Ok?
    ensures AgentPart(v, place).value.value.JObject?
    ensures KeepsAllBut(AsObject(v, AgentInvalid).value, AgentPart(v, place).value.value.entries, "local-company")
  {
  }

  /** An existing command keeps the spelling of its paths. */
  lemma McpKeeps(v: Json, place: Place)
    requires McpPart(v, place).Ok?
    ensures var before, after := AsObject(v, McpInvalid).value, McpPart(v, place).value.value;
            && after.JObject? && KeepsAllBut(before, after.entries, "local_company")
            && (At(before, "local_company").JObject? ==>
                  && At(after.entries, "local_company").JObject?
                  && At(At(after.entries, "local_company").entries, COMMAND_KEY)
                     == At(At(before, "local_company").entries, COMMAND_KEY))
  {
    var mcp := AsObject(v, McpInvalid).value;
    var current := At(mcp, "local_company");
    if current.JObject? {
      var command := At(current.entries, COMMAND_KEY);
      DesiredMcpCommand(command.items[0].s, command.items[3].s);
      assert command.items == [command.items[0], JString("/d"), JString("/c"), command.items[3]];
    }
  }

  // ----- changes Python's equality does not see -----

  predicate SameEntry(a: Option<Json>, b: Option<Json>) {
    a == b || (a.Some? && b.Some? && Equal(a.value, b.value))
  }

  /** Python's == between two configuration objects. */
  predicate SameConfig(c: Config, m: Config) {
    && SameEntry(c.schema, m.schema) && SameEntry(c.disabled, m.disabled) && SameEntry(c.enabled, m.enabled)
    && SameEntry(c.provider, m.provider) && SameEntry(c.mcp, m.mcp) && SameEntry(c.tools, m.tools)
    && SameEntry(c.agent, m.agent) && SameEntry(c.model, m.model) && SameEntry(c.smallModel, m.smallModel)
    && Equal(JObject(c.others), JObject(m.others))
  }

  /** The one entry tested for identity and not for equality holds a zero that is not False. */
  predicate ZeroForFalse(c: Config) {
    var v := At(Entries(c.tools), "local_company_*");
    IsNumber(v) && NumberOf(v) == 0.0 && !v.JBool?
  }

  lemma ReplacedEntryDiffers(entries: map<string, Json>, key: string, value: Json)
    ensures Equal(JObject(entries), JObject(entries[key := value])) <==> key in entries && Equal(entries[key], value)
  {
    var after := entries[key := value];
    forall k | k in entries && k != key ensures Equal(entries[k], after[k]) {
      EqualToItself(entries[k]);
    }
    assert key in after.Keys && after[key] == value;
    if key in entries && Equal(entries[key], value) {
      assert entries.Keys == after.Keys;
    }
  }

  lemma ToolsChangeSeen(v: Json)
    requires ToolsPart(v).Ok? && ToolsPart(v).value.changed
    ensures Equal(v, ToolsPart(v).value.value) <==>
              v.JObject? && var t := At(v.entries, "local_company_*"); IsNumber(t) && NumberOf(t) == 0.0
  {
    if v.JObject? {
      ReplacedEntryDiffers(v.entries, "local_company_*", JBool(false));
    }
  }

  lemma EntrySeen(o: Option<Json>, part: Part)
    requires part.changed <==> o != Some(part.value)
    requires part.changed && o.Some? ==> !Equal(o.value, part.value)
    ensures part.changed <==> !SameEntry(o, Some(part.value))
  {
  }

  lemma OtherChangesSeen(c: Config, place: Place, p: Parts)
    requires PartsOf(c, place) == Ok(p) && Truthful(c, p)
    ensures p.provider.changed <==> !SameEntry(c.provider, Some(p.provider.value))
    ensures p.mcp.changed <==> !SameEntry(c.mcp, Some(p.mcp.value))
    ensures p.agent.changed <==> !SameEntry(c.agent, Some(p.agent.value))
  {
    ProviderChangeSeen(Get(c.provider));
    EntrySeen(c.provider, p.provider);
    McpChangeSeen(Get(c.mcp), place);
    EntrySeen(c.mcp, p.mcp);
    AgentChangeSeen(Get(c.agent), place);
    EntrySeen(c.agent, p.agent);
  }

  lemma ProviderChangeSeen(v: Json)
    requires ProviderPart(v).Ok?
    ensures ProviderPart(v).value.changed ==> !Equal(v, ProviderPart(v).value.value)
  {
  }

  lemma McpChangeSeen(v: Json, place: Place)
    requires McpPart(v, place).Ok?
    ensures McpPart(v, place).value.changed ==> !Equal(v, McpPart(v, place).value.value)
  {
    if v.JObject? {
      ReplacedEntryDiffers(v.entries, "local_company", JObject(McpEntry(At(v.entries, "local_company"), place).value));
    }
  }

  lemma AgentChangeSeen(v: Json, place: Place)
    requires AgentPart(v, place).Ok?
    ensures AgentPart(v, place).value.changed ==> !Equal(v, AgentPart(v, place).value.value)
  {
    if v.JObject? {
      ReplacedEntryDiffers(v.entries, "local-company", JObject(place.agent));
    }
  }

  /** Whether anything but the tools entry changes. */
  predicate ChangesMore(c: Config, p: Parts) {
    || Get(c.schema).JNull? || Get(c.enabled) != POLICY || p.provider.changed || p.mcp.changed || p.agent.changed
    || Get(c.model) != JString(AGENT_MODEL) || Get(c.smallModel) != JString(AGENT_MODEL)
  }

  lemma OnlyToolsChange(c: Config, p: Parts)
    ensures Changes(c, p) == [] <==> !p.tools.changed && !ChangesMore(c, p)
    ensures Changes(c, p) == [ToolsDenied] <==> p.tools.changed && !ChangesMore(c, p)
  {
    var ch := Changes(c, p);
    assert p.tools.changed ==> ToolsDenied in ch;
    assert Get(c.schema).JNull? ==> SchemaAdded in ch;
    assert Get(c.enabled) != POLICY ==> PolicyConfigured in ch;
    assert p.provider.changed ==> ProviderConfigured in ch;
    assert p.mcp.changed ==> McpConfigured in ch;
    assert p.agent.changed ==> AgentConfigured in ch;
    assert Get(c.model) != JString(AGENT_MODEL) ==> ModelConfigured in ch;
    assert Get(c.smallModel) != JString(AGENT_MODEL) ==> SmallModelConfigured in ch;
  }

  lemma SameTexts(c: Config, p: Parts)
    requires SameEntry(c.schema, Installed(c, p).schema) && SameEntry(c.enabled, Installed(c, p).enabled)
    requires SameEntry(c.model, Installed(c, p).model) && SameEntry(c.smallModel, Installed(c, p).smallModel)
    ensures !Get(c.schema).JNull? && Get(c.enabled) == POLICY
    ensures Get(c.model) == JString(AGENT_MODEL) && Get(c.smallModel) == JString(AGENT_MODEL)
  {
    assert Plain(JString("ollama"));
    assert Plain(POLICY);
    PlainEqual(Get(c.enabled), POLICY);
  }

  lemma SameRest(c: Config, p: Parts)
    requires Truthful(c, p) && CheckEntries(c).None? && !ChangesMore(c, p)
    requires SameEntry(c.tools, Some(p.tools.value))
    ensures SameConfig(c, Installed(c, p))
  {
    EqualToItself(JObject(c.others));
  }

  /** A merge that reports a change can still give back an equal configuration in Python's sense, but
      only when the denied tools entry was a zero: that entry alone is tested with `is`. */
  lemma ChangesPythonDoesNotSee(c: Config, place: Place)
    requires Merge(c, place).Ok?
    ensures Merge(c, place).value.1 != [] && SameConfig(c, Merge(c, place).value.0)
            <==> Merge(c, place).value.1 == [ToolsDenied] && ZeroForFalse(c)
  {
    var p := PartsOf(c, place).value;
    OnlyToolsChange(c, p);
    PartsAreTruthful(c, place, p);
    OtherChangesSeen(c, place, p);
    ToolsSeen(c, place, p);
    if SameConfig(c, Installed(c, p)) {
      SameTexts(c, p);
    }
    if p.tools.changed && !ChangesMore(c, p) && ZeroForFalse(c) {
      SameRest(c, p);
    }
  }

  lemma ToolsSeen(c: Config, place: Place, p: Parts)
    requires PartsOf(c, place) == Ok(p)
    ensures p.tools.changed ==> (SameEntry(c.tools, Some(p.tools.value)) <==> ZeroForFalse(c))
  {
    ToolsSettle(Get(c.tools));
    if p.tools.changed {
      ToolsChangeSeen(Get(c.tools));
    }
  }

  /** A merged configuration in which the denied entry reads 0. */
  function WithZero(m: Config): Config {
    m.(tools := Some(JObject(Entries(m.tools)["local_company_*" := JInt(0)])))
  }

  lemma ZeroPart(entries: map<string, Json>)
    ensures ToolsPart(JObject(entries["local_company_*" := JInt(0)])).Ok?
    ensures ToolsPart(JObject(entries["local_company_*" := JInt(0)])).value.changed
  {
  }

  lemma PartsWithZero(c: Config, place: Place, p: Parts)
    requires PartsOf(c, place) == Ok(p)
    ensures var z := WithZero(Installed(c, p));
            && PartsOf(z, place).Ok? && PartsOf(z, place).value.tools.changed
            && !PartsOf(z, place).value.provider.changed && !PartsOf(z, place).value.mcp.changed
            && !PartsOf(z, place).value.agent.changed
  {
    ProviderSettles(Get(c.provider));
    McpSettles(Get(c.mcp), place);
    AgentSettles(Get(c.agent), place);
    ZeroPart(Entries(Installed(c, p).tools));
  }

  lemma EntriesWithZero(c: Config, p: Parts, q: Parts)
    requires CheckEntries(c).None? && q.tools.changed && !q.provider.changed && !q.mcp.changed && !q.agent.changed
    ensures var z := WithZero(Installed(c, p));
            CheckEntries(z).None? && Changes(z, q) == [ToolsDenied]
  {
    assert AllStrings(POLICY);
    OnlyToolsChange(WithZero(Installed(c, p)), q);
  }

  lemma MergeByParts(c: Config, place: Place, p: Parts)
    requires CheckEntries(c).None? && PartsOf(c, place) == Ok(p)
    ensures Merge(c, place) == Ok((Installed(c, p), Changes(c, p)))
  {
  }

  lemma ZeroChanges(c: Config, place: Place, p: Parts)
    requires CheckEntries(c).None? && PartsOf(c, place) == Ok(p)
    ensures var z := WithZero(Installed(c, p));
            Merge(z, place).Ok? && Merge(z, place).value.1 == [ToolsDenied]
  {
    PartsWithZero(c, place, p);
    var z := WithZero(Installed(c, p));
    var q := PartsOf(z, place).value;
    EntriesWithZero(c, p, q);
    MergeByParts(z, place, q);
  }

  /** Such a configuration merges with one reported change, into one that Python calls equal to it. */
  lemma ZeroIsRewritten(c: Config, place: Place)
    requires Merge(c, place).Ok?
    ensures var z := WithZero(Merge(c, place).value.0);
            Merge(z, place).Ok? && Merge(z, place).value.1 == [ToolsDenied] && SameConfig(z, Merge(z, place).value.0)
  {
    var p := PartsOf(c, place).value;
    MergeByParts(c, place, p);
    ZeroChanges(c, place, p);
    ZeroIsZero(Entries(Installed(c, p).tools));
    ChangesPythonDoesNotSee(WithZero(Installed(c, p)), place);
  }

  lemma ZeroIsZero(entries: map<string, Json>)
    ensures var v := At(entries["local_company_*" := JInt(0)], "local_company_*");
            IsNumber(v) && NumberOf(v) == 0.0 && !v.JBool?
  {
  }

  const NO_CONFIG := Config(None, None, None, None, None, None, None, None, None, map[])

  lemma EmptyMerges(place: Place)
    ensures Merge(NO_CONFIG, place).Ok?
  {
  }

  /** One of them: what is merged from nothing, with a zero in the denied entry. */
  lemma ZeroInAFreshConfig(place: Place)
    ensures Merge(NO_CONFIG, place).Ok?
    ensures var z := WithZero(Merge(NO_CONFIG, place).value.0);
            Merge(z, place).Ok? && Merge(z, place).value.1 == [ToolsDenied] && SameConfig(z, Merge(z, place).value.0)
  {
    EmptyMerges(place);
    ZeroIsRewritten(NO_CONFIG, place);
  }

  // ----- checking after writing -----

  /** What is read from the configuration file: nothing is there, or what its text decodes to. */
  function Existing(raw: Option<string>, decode: string -> Config): Config {
    if raw.None? then NO_CONFIG else decode(raw.value)
  }

  /** run_setup merges what it reads back: if the merged configuration is encoded to a text that reads back
      as it, the second merge never finds anything left to change. */
  method ApplyAndCheck(raw: Option<string>, place: Place, encode: Config -> string, decode: string -> Config)
    returns (r: Result<Config, Failure>, file: Option<string>, remaining: seq<Change>)
    requires Merge(Existing(raw, decode), place).Ok? ==>
               var merged := Merge(Existing(raw, decode), place).value.0;
               decode(encode(merged)) == merged
    ensures r.Ok? <==> Merge(Existing(raw, decode), place).Ok?
    ensures r.Ok? ==> && r.value == Merge(Existing(raw, decode), place).value.0 && remaining == []
                      && file.Some? && r.value == decode(file.value)
    ensures r.Err? ==> file == raw
    ensures r.Ok? && raw.Some? && r.value == Existing(raw, decode) ==> file == raw
  {
    file, remaining := raw, [];
    var existing := Existing(raw, decode);
    var merged := MergeConfig(existing, place);
    if merged.Err? { return Err(merged.error), file, remaining; }
    NoChangesMeansSame(existing, place);
    MergeIsIdempotent(existing, place);
    if merged.value.1 != [] || raw.None? {
      file := Some(encode(merged.value.0));
    }
    var current := Existing(file, decode);
    var again := MergeConfig(current, place);
    return Ok(current), file, again.value.1;
  }
}

/** Manifest cases, the smoke evidence they produce and the contracts that evidence is held to. */
module SmokeEvidence {
  import opened Prelude
  import opened Json

  datatype Lane = Pinned | FloatingCurrent
  datatype ExecutionMode = Host | ContainerRo | ContainerRw | RemoteApi
  datatype AuthPath = ApiKeyEnv | PreAuthenticated | ConfiguredMethod | Automatic | NotApplicable
  datatype EvidencePath = DirectCli | DirectAcp | BridgeSmoke | BridgeWorkflow
  datatype ProbeType = Minimal | Representative
  datatype EvidenceStatus = Pass | Fail | Unknown | Stale
  datatype Classification = Support | NonGoal | Canary

  function ExecutionModeWire(m: ExecutionMode): string {
    match m
    case Host => "host"
    case ContainerRo => "container_ro"
    case ContainerRw => "container_rw"
    case RemoteApi => "remote_api"
  }

  function AuthPathWire(a: AuthPath): string {
    match a
    case ApiKeyEnv => "api_key_env"
    case PreAuthenticated => "pre_authenticated"
    case ConfiguredMethod => "configured_method"
    case Automatic => "automatic"
    case NotApplicable => "not_applicable"
  }

  datatype PinSet = PinSet(
    configSha256: string,
    adapter: Option<string>,
    agentCli: Option<string>,
    components: seq<(string, string)>)

  datatype ResolvedBinding = ResolvedBinding(
    resolutionId: string,
    recipeSha256: string,
    configSha256: string,
    adapter: string,
    agentCli: string,
    imageDigest: Option<string>)

  datatype Case = Case(
    id: string,
    lane: Lane,
    evidencePath: EvidencePath,
    executionMode: ExecutionMode,
    expectedImageDigest: Option<string>,
    agent: string,
    model: string,
    effort: Option<string>,
    mode: Option<string>,
    authPath: AuthPath,
    credentialEnv: Option<string>,
    probe: ProbeType,
    timeoutSecs: nat,
    maxTokens: nat,
    maxCostUsd: Option<real>,
    expectedStatus: EvidenceStatus,
    classification: Classification,
    baselineCase: Option<string>,
    pins: Option<PinSet>,
    resolved: Option<ResolvedBinding>)

  predicate LowerHex(c: char) {
    '0' <= c <= '9' || 'a' <= c <= 'f'
  }

  predicate ValidDigest(s: string) {
    |s| == 64 && forall i :: 0 <= i < |s| ==> LowerHex(s[i])
  }

  const FIXED_PROMPT := "Reply exactly PONG. Do not use tools."

  predicate ValidSmokeShape(smoke: Json, c: Case) {
    && AsU64(Get(smoke, "schema_version")) == Some(2)
    && AsBool(Get(smoke, "success")).Some?
    && TextAt(smoke, ["attempt", "id"]).Some?
    && TextAt(smoke, ["request", "agent"]) == Some(c.agent)
    && TextAt(smoke, ["turn", "prompt"]) == Some(FIXED_PROMPT)
    && (var d := Get(smoke, "diagnostics"); d.Some? && d.value.JObject?)
    && (var d := Get(smoke, "cleanup"); d.Some? && d.value.JObject?)
  }

  // ---- The model catalog ----

  const MAX_CATALOG_ENTRIES := 128
  const MAX_CATALOG_VALUE_BYTES := 256
  const MAX_CATALOG_TOTAL_BYTES := 64 * 1024

  const EFFORT_LEVELS := ["low", "medium", "high", "xhigh", "max"]

  const CATALOG_FIELDS :=
    {"state", "current_model", "models", "model_configurable", "effort_levels", "modes", "current_mode"}

  /** Splits at the last occurrence of a character. */
  function SplitLast(s: string, c: char): Option<(string, string)> {
    if s == "" then None
    else if s[|s| - 1] == c then Some((s[..|s| - 1], ""))
    else
      match SplitLast(s[..|s| - 1], c)
      case None => None
      case Some((before, after)) => Some((before, after + [s[|s| - 1]]))
  }

  /** The base and effort level of a bracketed or slash-separated catalog model id. */
  function ModelIdParts(id: string): Option<(string, string)> {
    var bracketed := if id != "" && id[|id| - 1] == ']' then SplitLast(id[..|id| - 1], '[') else None;
    if bracketed.Some? && bracketed.value.1 in EFFORT_LEVELS then bracketed
    else
      var slashed := SplitLast(id, '/');
      if slashed.Some? && slashed.value.1 in EFFORT_LEVELS then slashed else None
  }

  predicate CurrentModelMatches(current: Option<string>, model: string, effort: Option<string>) {
    && current.Some?
    && (|| current.value == model
        || (effort.Some? && ModelIdParts(current.value) == Some((model, effort.value))))
  }

  predicate EffortMatches(efforts: seq<string>, current: Option<string>, effort: Option<string>) {
    || effort.None?
    || effort.value in efforts
    || (current.Some? && ModelIdParts(current.value).Some? && ModelIdParts(current.value).value.1 == effort.value)
  }

  /** The strings of an array field; none if any element is not a string. */
  function CatalogStrings(catalog: Json, field: string): Option<seq<string>> {
    var v := Get(catalog, field);
    if v.Some? && v.value.JArray? && (forall i :: 0 <= i < |v.value.items| ==> v.value.items[i].JString?)
    then Some(seq(|v.value.items|, i requires 0 <= i < |v.value.items| => v.value.items[i].text))
    else None
  }

  /** Every value is acceptable text of bounded size, and together they stay within the total bound. */
  predicate CatalogValuesFit(values: seq<string>, total: nat, acceptable: string -> bool)
    decreases |values|
  {
    || values == []
    || (&& 0 < |values[0]| <= MAX_CATALOG_VALUE_BYTES
        && acceptable(values[0])
        && total + |values[0]| <= MAX_CATALOG_TOTAL_BYTES
        && CatalogValuesFit(values[1..], total + |values[0]|, acceptable))
  }

  function Listed(v: Option<string>): seq<string> {
    if v.Some? then [v.value] else []
  }

  /**
   * The catalog lists what a request asked for. `acceptable` is the text heuristic applied to every value:
   * trimmed, free of control characters and not shaped like a secret.
   */
  predicate ValidAvailableCatalog(smoke: Json, model: string, effort: Option<string>, mode: Option<string>,
                                  acceptable: string -> bool)
  {
    var found := At(smoke, ["target", "model_catalog"]);
    && found.Some? && found.value.JObject?
    && var catalog := found.value;
       var models := CatalogStrings(catalog, "models");
       var efforts := CatalogStrings(catalog, "effort_levels");
       var modes := CatalogStrings(catalog, "modes");
       var configurable := AsBool(Get(catalog, "model_configurable"));
       var current := AsText(Get(catalog, "current_model"));
       var currentMode := AsText(Get(catalog, "current_mode"));
       && catalog.fields.Keys <= CATALOG_FIELDS
       && AsText(Get(catalog, "state")) == Some("available")
       && models.Some? && efforts.Some? && modes.Some? && configurable.Some?
       && (Get(catalog, "current_model").Some? ==> current.Some?)
       && (Get(catalog, "current_mode").Some? ==> currentMode.Some?)
       && |models.value| + |efforts.value| + |modes.value| <= MAX_CATALOG_ENTRIES
       && (configurable.value ==> models.value != [])
       && (current.Some? ==> current.value in models.value)
       && (currentMode.Some? ==> currentMode.value in modes.value)
       && CurrentModelMatches(current, model, effort)
       && EffortMatches(efforts.value, current, effort)
       && (mode.Some? ==> mode.value in modes.value && currentMode == mode)
       && CatalogValuesFit(Listed(current) + models.value + efforts.value + modes.value + Listed(currentMode), 0,
                           acceptable)
  }

  // ---- The floating contracts ----

  predicate FloatingSuccessContract(smoke: Json) {
    && AsBool(Get(smoke, "success")) == Some(true)
    && BoolAt(smoke, ["attempt", "timed_out"]) == Some(false)
    && AsU64(At(smoke, ["turn", "prompt_calls"])) == Some(1)
    && TextAt(smoke, ["turn", "terminal_state"]) == Some("completed")
    && BoolAt(smoke, ["turn", "exact_pong"]) == Some(true)
    && AbsentOrNull(At(smoke, ["diagnostics", "failure"]))
    && TextAt(smoke, ["cleanup", "cancel"]) == Some("not_needed")
    && TextAt(smoke, ["cleanup", "release"]) == Some("completed")
    && TextAt(smoke, ["cleanup", "retire"]) == Some("completed")
  }

  predicate FloatingFailureContract(smoke: Json, model: string, effort: Option<string>, mode: Option<string>,
                                    acceptable: string -> bool)
  {
    && AsBool(Get(smoke, "success")) == Some(false)
    && BoolAt(smoke, ["attempt", "timed_out"]) == Some(false)
    && AsU64(At(smoke, ["turn", "prompt_calls"])) == Some(1)
    && TextAt(smoke, ["diagnostics", "failure", "class"]) in {Some("config"), Some("model"), Some("protocol")}
    && TextAt(smoke, ["diagnostics", "failure", "disposition"]) == Some("fatal")
    && BoolAt(smoke, ["diagnostics", "failure", "prompt_may_have_been_accepted"]).Some?
    && ValidAvailableCatalog(smoke, model, effort, mode, acceptable)
    && TextAt(smoke, ["cleanup", "cancel"]) in {Some("not_needed"), Some("completed")}
    && TextAt(smoke, ["cleanup", "release"]) == Some("completed")
    && TextAt(smoke, ["cleanup", "retire"]) == Some("completed")
  }

  // ---- Provenance ----

  predicate AsciiSpace(c: char) {
    c == ' ' || c == '\t' || c == '\n' || c == '\r' || c == '\U{000C}'
  }

  /** The maximal runs of non-space characters, where `word` is the run already begun. */
  function Words(text: string, word: string): seq<string>
    decreases |text|
  {
    var ended := if word == "" then [] else [word];
    if text == "" then ended
    else if AsciiSpace(text[0]) then ended + Words(text[1..], "")
    else Words(text[1..], word + [text[0]])
  }

  /** The value of `field=value`, if the part names that field and the value is not empty. */
  function FieldValue(part: string, field: string): Option<string> {
    if |field| + 1 < |part| && part[..|field|] == field && part[|field|] == '=' && '=' !in field
    then Some(part[|field| + 1..]) else None
  }

  function FieldValues(parts: seq<string>, field: string): seq<string> {
    if parts == [] then []
    else
      var value := FieldValue(parts[0], field);
      (if value.Some? then [value.value] else []) + FieldValues(parts[1..], field)
  }

  function UniqueDetailField(detail: string, field: string): Option<string> {
    var values := FieldValues(Words(detail, ""), field);
    if |values| == 1 then Some(values[0]) else None
  }

  function RowsWithCheck(rows: seq<Json>, check: string): seq<Json> {
    if rows == [] then []
    else (if AsText(Get(rows[0], "check")) == Some(check) then [rows[0]] else []) + RowsWithCheck(rows[1..], check)
  }

  function ProvenanceDetail(smoke: Json, agent: string, component: string): Option<string> {
    var rows := At(smoke, ["target", "provenance"]);
    if rows.None? || !rows.value.JArray? then None
    else
      var matching := RowsWithCheck(rows.value.items, "provenance:" + agent + ":" + component);
      if |matching| != 1 || AsText(Get(matching[0], "status")) != Some("ok") then None
      else AsText(Get(matching[0], "detail"))
  }

  function ProvenanceField(smoke: Json, agent: string, component: string, field: string): Option<string> {
    match ProvenanceDetail(smoke, agent, component)
    case None => None
    case Some(detail) => UniqueDetailField(detail, field)
  }

  predicate ProvenancePackageMatches(smoke: Json, agent: string, component: string, expected: string) {
    var package := ProvenanceField(smoke, agent, component, "package");
    var version := ProvenanceField(smoke, agent, component, "version");
    package.Some? && version.Some? && package.value + "=" + version.value == expected
  }

  // ---- Drift ----

  datatype Drift =
    | CapabilityModel
    | CapabilityEffort
    | CapabilityMode
    | EffectiveModel
    | EffectiveEffort
    | EffectiveMode
    | ProvenanceExecutionMode
    | AuthenticationPath
    | AuthenticationCredentialEnv
    | ProvenanceImage
    | ProvenanceConfigSha256
    | ProvenanceAdapter
    | ProvenanceAgentCli
    | ProvenanceComponent(component: string)
    | ResolutionConfigSha256
    | ResolutionAdapter
    | ResolutionAgentCli
    | ResolutionImage
    | OutcomeSmokeContract
    | CapabilityModelCatalog
    | OutcomeCancellation

  function When(condition: bool, drift: Drift): seq<Drift> {
    if condition then [drift] else []
  }

  predicate RequestFieldMatches(smoke: Json, field: string, expected: Option<string>) {
    var actual := At(smoke, ["request", field]);
    match expected
    case Some(text) => AsText(actual) == Some(text)
    case None => AbsentOrNull(actual)
  }

  predicate ApiKeyAuthenticationMatches(smoke: Json, env: string) {
    && TextAt(smoke, ["target", "authentication", "name", "state"]) == Some("value")
    && TextAt(smoke, ["target", "authentication", "name", "value"]) == Some(env)
    && BoolAt(smoke, ["target", "authentication", "present"]) == Some(true)
  }

  function ComponentDrift(c: Case, smoke: Json, components: seq<(string, string)>): seq<Drift> {
    if components == [] then []
    else
      When(ProvenanceDetail(smoke, c.agent, components[0].0) != Some(components[0].1),
           ProvenanceComponent(components[0].0))
      + ComponentDrift(c, smoke, components[1..])
  }

  predicate Succeeded(smoke: Json) {
    AsBool(Get(smoke, "success")) == Some(true)
  }

  predicate HasTarget(smoke: Json) {
    Succeeded(smoke) || !AbsentOrNull(Get(smoke, "target"))
  }

  function RequestDrift(c: Case, smoke: Json): seq<Drift> {
    When(TextAt(smoke, ["request", "model"]) != Some(c.model), CapabilityModel)
    + When(!RequestFieldMatches(smoke, "effort", c.effort), CapabilityEffort)
    + When(!RequestFieldMatches(smoke, "mode", c.mode), CapabilityMode)
  }

  function EffectiveDrift(c: Case, smoke: Json): seq<Drift> {
    if !Succeeded(smoke) then []
    else
      When(TextAt(smoke, ["session", "effective_request", "model"]) != Some(c.model), EffectiveModel)
      + When(c.effort.Some? && TextAt(smoke, ["session", "effective_request", "effort"]) != c.effort, EffectiveEffort)
      + When(c.mode.Some? && TextAt(smoke, ["session", "effective_request", "mode"]) != c.mode, EffectiveMode)
  }

  function TargetDrift(c: Case, smoke: Json): seq<Drift> {
    if !HasTarget(smoke) then []
    else
      When(TextAt(smoke, ["target", "execution_mode"]) != Some(ExecutionModeWire(c.executionMode)),
           ProvenanceExecutionMode)
      + (if TextAt(smoke, ["target", "authentication", "path"]) != Some(AuthPathWire(c.authPath))
           then [AuthenticationPath]
         else When(c.authPath == ApiKeyEnv
                   && (c.credentialEnv.None? || !ApiKeyAuthenticationMatches(smoke, c.credentialEnv.value)),
                   AuthenticationCredentialEnv))
      + When(c.expectedImageDigest.Some?
             && ProvenanceField(smoke, c.agent, "image", "immutable_id") != c.expectedImageDigest,
             ProvenanceImage)
  }

  function PinDrift(c: Case, smoke: Json): seq<Drift> {
    match c.pins
    case None => []
    case Some(pins) =>
      When(TextAt(smoke, ["request", "config_sha256"]) != Some(pins.configSha256), ProvenanceConfigSha256)
      + When(pins.adapter.Some? && !ProvenancePackageMatches(smoke, c.agent, "adapter", pins.adapter.value),
             ProvenanceAdapter)
      + When(pins.agentCli.Some? && !ProvenancePackageMatches(smoke, c.agent, "agent-cli", pins.agentCli.value),
             ProvenanceAgentCli)
      + ComponentDrift(c, smoke, pins.components)
  }

  function ResolutionDrift(c: Case, smoke: Json): seq<Drift> {
    match c.resolved
    case None => []
    case Some(resolved) =>
      When(TextAt(smoke, ["request", "config_sha256"]) != Some(resolved.configSha256), ResolutionConfigSha256)
      + (if !HasTarget(smoke) then []
         else
           When(!ProvenancePackageMatches(smoke, c.agent, "adapter", resolved.adapter), ResolutionAdapter)
           + When(!ProvenancePackageMatches(smoke, c.agent, "agent-cli", resolved.agentCli), ResolutionAgentCli)
           + When(resolved.imageDigest.Some?
                  && ProvenanceField(smoke, c.agent, "image", "immutable_id") != resolved.imageDigest,
                  ResolutionImage))
  }

  function DriftFor(c: Case, smoke: Json): seq<Drift> {
    RequestDrift(c, smoke) + EffectiveDrift(c, smoke) + TargetDrift(c, smoke) + PinDrift(c, smoke)
        + ResolutionDrift(c, smoke)
  }

  /** The further dimensions of a floating case: its outcome contract and its catalog. */
  function FloatingDrift(c: Case, smoke: Json, acceptable: string -> bool): seq<Drift> {
    if c.lane != FloatingCurrent then []
    else if Succeeded(smoke) then
      When(!FloatingSuccessContract(smoke), OutcomeSmokeContract)
      + When(!ValidAvailableCatalog(smoke, c.model, c.effort, c.mode, acceptable), CapabilityModelCatalog)
    else When(!FloatingFailureContract(smoke, c.model, c.effort, c.mode, acceptable), OutcomeSmokeContract)
  }

  // ---- Observed usage ----

  function ObservedTokens(smoke: Json): Option<nat> {
    var terminal := AsU64(At(smoke, ["turn", "usage", "terminal", "totalTokens"]));
    if terminal.Some? then terminal else AsU64(At(smoke, ["turn", "usage", "used"]))
  }

  datatype CostObservation = Missing | Invalid | Usd(amount: real)

  function ObservedCost(smoke: Json): (cost: CostObservation)
    ensures cost.Usd? ==> cost.amount >= 0.0
  {
    if !AbsentOrNull(At(smoke, ["turn", "usage", "cost_rejected"])) then Invalid
    else
      var cost := At(smoke, ["turn", "usage", "cost"]);
      if AbsentOrNull(cost) then Missing
      else
        var amount := AsNumber(Get(cost.value, "amount"));
        if amount.Some? && amount.value >= 0.0 && AsText(Get(cost.value, "currency")) == Some("USD")
        then Usd(amount.value) else Invalid
  }
}

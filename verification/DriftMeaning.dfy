/** When each dimension of drift is reported, and what a verdict on a floating candidate has shown. */
module DriftMeaning {
  import opened Prelude
  import opened Json
  import opened SmokeEvidence
  import opened Runner
  import opened EvidenceMeaning

  // ---- What each dimension is about ----

  ghost predicate Ran(smoke: Json) {
    Has(smoke, ["success"], JBool(true))
  }

  /** The evidence got as far as a target. */
  ghost predicate Reached(smoke: Json) {
    Ran(smoke) || !NothingAt(smoke, ["target"])
  }

  ghost predicate Asked(smoke: Json, field: string, expected: Option<string>) {
    if expected.Some? then Has(smoke, ["request", field], JString(expected.value))
    else NothingAt(smoke, ["request", field])
  }

  ghost predicate AskedModel(smoke: Json, model: string) {
    Has(smoke, ["request", "model"], JString(model))
  }

  ghost predicate StatesConfig(smoke: Json, sha256: string) {
    Has(smoke, ["request", "config_sha256"], JString(sha256))
  }

  ghost predicate ExecutedIn(smoke: Json, mode: string) {
    Has(smoke, ["target", "execution_mode"], JString(mode))
  }

  ghost predicate AuthenticatedBy(smoke: Json, path: string) {
    Has(smoke, ["target", "authentication", "path"], JString(path))
  }

  ghost predicate Effective(smoke: Json, field: string, expected: string) {
    Has(smoke, ["session", "effective_request", field], JString(expected))
  }

  ghost predicate HasKey(smoke: Json, env: string) {
    && Has(smoke, ["target", "authentication", "name", "state"], JString("value"))
    && Has(smoke, ["target", "authentication", "name", "value"], JString(env))
    && Has(smoke, ["target", "authentication", "present"], JBool(true))
  }

  ghost predicate Image(smoke: Json, agent: string, digest: string) {
    ProvenanceField(smoke, agent, "image", "immutable_id") == Some(digest)
  }

  /** A difference in what was asked for. */
  ghost predicate DiffersInRequest(c: Case, smoke: Json, d: Drift) {
    match d
    case CapabilityModel => !AskedModel(smoke, c.model)
    case CapabilityEffort => !Asked(smoke, "effort", c.effort)
    case CapabilityMode => !Asked(smoke, "mode", c.mode)
    case _ => false
  }

  /** A difference in what took effect. */
  ghost predicate DiffersInEffect(c: Case, smoke: Json, d: Drift) {
    match d
    case EffectiveModel => Ran(smoke) && !Effective(smoke, "model", c.model)
    case EffectiveEffort => Ran(smoke) && c.effort.Some? && !Effective(smoke, "effort", c.effort.value)
    case EffectiveMode => Ran(smoke) && c.mode.Some? && !Effective(smoke, "mode", c.mode.value)
    case _ => false
  }

  /** A difference in where and how it ran. */
  ghost predicate DiffersInTarget(c: Case, smoke: Json, d: Drift) {
    match d
    case ProvenanceExecutionMode =>
      Reached(smoke) && !ExecutedIn(smoke, ExecutionModeWire(c.executionMode))
    case AuthenticationPath =>
      Reached(smoke) && !AuthenticatedBy(smoke, AuthPathWire(c.authPath))
    case AuthenticationCredentialEnv =>
      && Reached(smoke) && AuthenticatedBy(smoke, AuthPathWire(c.authPath))
      && c.authPath == ApiKeyEnv && (c.credentialEnv.Some? ==> !HasKey(smoke, c.credentialEnv.value))
    case ProvenanceImage =>
      Reached(smoke) && c.expectedImageDigest.Some? && !Image(smoke, c.agent, c.expectedImageDigest.value)
    case _ => false
  }

  /** A difference in what it was pinned to. */
  ghost predicate DiffersInPins(c: Case, smoke: Json, d: Drift) {
    match d
    case ProvenanceConfigSha256 =>
      c.pins.Some? && !StatesConfig(smoke, c.pins.value.configSha256)
    case ProvenanceAdapter =>
      && c.pins.Some? && c.pins.value.adapter.Some?
      && !ProvenancePackageMatches(smoke, c.agent, "adapter", c.pins.value.adapter.value)
    case ProvenanceAgentCli =>
      && c.pins.Some? && c.pins.value.agentCli.Some?
      && !ProvenancePackageMatches(smoke, c.agent, "agent-cli", c.pins.value.agentCli.value)
    case ProvenanceComponent(name) =>
      c.pins.Some? && exists pin :: pin in c.pins.value.components && pin.0 == name
                                    && ProvenanceDetail(smoke, c.agent, name) != Some(pin.1)
    case _ => false
  }

  /** A difference in what it was resolved to. */
  ghost predicate DiffersInResolution(c: Case, smoke: Json, d: Drift) {
    match d
    case ResolutionConfigSha256 =>
      c.resolved.Some? && !StatesConfig(smoke, c.resolved.value.configSha256)
    case ResolutionAdapter =>
      && c.resolved.Some? && Reached(smoke)
      && !ProvenancePackageMatches(smoke, c.agent, "adapter", c.resolved.value.adapter)
    case ResolutionAgentCli =>
      && c.resolved.Some? && Reached(smoke)
      && !ProvenancePackageMatches(smoke, c.agent, "agent-cli", c.resolved.value.agentCli)
    case ResolutionImage =>
      && c.resolved.Some? && Reached(smoke) && c.resolved.value.imageDigest.Some?
      && !Image(smoke, c.agent, c.resolved.value.imageDigest.value)
    case _ => false
  }

  /** A difference in what a floating case is also held to. */
  ghost predicate DiffersInOutcome(c: Case, smoke: Json, acceptable: string -> bool, d: Drift) {
    match d
    case OutcomeSmokeContract =>
      && c.lane == FloatingCurrent
      && if Ran(smoke) then !AnsweredCleanly(smoke)
         else !(FailedCleanly(smoke) && ValidAvailableCatalog(smoke, c.model, c.effort, c.mode, acceptable))
    case CapabilityModelCatalog =>
      c.lane == FloatingCurrent && Ran(smoke) && !ValidAvailableCatalog(smoke, c.model, c.effort, c.mode, acceptable)
    case _ => false
  }

  /** The evidence differs from its case in one dimension. */
  ghost predicate Differs(c: Case, smoke: Json, acceptable: string -> bool, d: Drift) {
    || DiffersInRequest(c, smoke, d) || DiffersInEffect(c, smoke, d) || DiffersInTarget(c, smoke, d)
    || DiffersInPins(c, smoke, d) || DiffersInResolution(c, smoke, d) || DiffersInOutcome(c, smoke, acceptable, d)
  }

  /** The one package a component's detail names, with its version, is the expected one. */
  lemma PackageExactly(smoke: Json, agent: string, component: string, expected: string)
    ensures ProvenancePackageMatches(smoke, agent, component, expected) <==>
              exists detail, package, version ::
                && ProvenanceDetail(smoke, agent, component) == Some(detail)
                && StatedOnce(Words(detail, ""), "package", package)
                && StatedOnce(Words(detail, ""), "version", version)
                && expected == package + "=" + version
  {
    var found := ProvenanceDetail(smoke, agent, component);
    hide ProvenanceDetail;
    hide Words;
    hide UniqueDetailField;
    hide StatedOnce;
    if found.Some? {
      var detail := found.value;
      forall value ensures UniqueDetailField(detail, "package") == Some(value) <==>
                             StatedOnce(Words(detail, ""), "package", value)
      {
        DetailFieldExactly(detail, "package", value);
      }
      forall value ensures UniqueDetailField(detail, "version") == Some(value) <==>
                             StatedOnce(Words(detail, ""), "version", value)
      {
        DetailFieldExactly(detail, "version", value);
      }
    }
  }

  // ---- Where it is reported ----

  lemma InWhen(condition: bool, x: Drift, d: Drift)
    ensures d in When(condition, x) <==> condition && d == x
  {
  }

  lemma InThree(p: bool, x: Drift, q: bool, y: Drift, r: bool, z: Drift, d: Drift)
    ensures d in When(p, x) + When(q, y) + When(r, z) <==> (p && d == x) || (q && d == y) || (r && d == z)
  {
  }

  lemma RanExactly(smoke: Json)
    ensures Succeeded(smoke) <==> Ran(smoke)
    ensures HasTarget(smoke) <==> Reached(smoke)
  {
    FieldIsPath(smoke, "success");
    FieldIsPath(smoke, "target");
    BoolExactly(smoke, ["success"], true);
    NothingExactly(smoke, ["target"]);
    hide At;
    hide Has;
    hide Get;
    hide NothingAt;
  }

  lemma AskedExactly(smoke: Json, field: string, expected: Option<string>)
    ensures RequestFieldMatches(smoke, field, expected) <==> Asked(smoke, field, expected)
  {
    if expected.Some? {
      TextExactly(smoke, ["request", field], expected.value);
    }
    NothingExactly(smoke, ["request", field]);
    hide At;
    hide Has;
    hide NothingAt;
  }

  lemma RequestDriftExactly(c: Case, smoke: Json, d: Drift)
    ensures d in RequestDrift(c, smoke) <==> DiffersInRequest(c, smoke, d)
  {
    hide TextAt;
    hide Has;
    hide RequestFieldMatches;
    hide Asked;
    hide AskedModel;
    hide When;
    AskedModelExactly(smoke, c.model);
    AskedExactly(smoke, "effort", c.effort);
    AskedExactly(smoke, "mode", c.mode);
    InThree(TextAt(smoke, ["request", "model"]) != Some(c.model), CapabilityModel,
            !RequestFieldMatches(smoke, "effort", c.effort), CapabilityEffort,
            !RequestFieldMatches(smoke, "mode", c.mode), CapabilityMode, d);
  }

  lemma AskedModelExactly(smoke: Json, model: string)
    ensures TextAt(smoke, ["request", "model"]) == Some(model) <==> AskedModel(smoke, model)
  {
    TextExactly(smoke, ["request", "model"], model);
  }

  lemma ConfigExactly(smoke: Json, sha256: string)
    ensures TextAt(smoke, ["request", "config_sha256"]) == Some(sha256) <==> StatesConfig(smoke, sha256)
  {
    TextExactly(smoke, ["request", "config_sha256"], sha256);
  }

  lemma ExecutedExactly(smoke: Json, mode: string)
    ensures TextAt(smoke, ["target", "execution_mode"]) == Some(mode) <==> ExecutedIn(smoke, mode)
  {
    TextExactly(smoke, ["target", "execution_mode"], mode);
  }

  lemma AuthenticatedExactly(smoke: Json, path: string)
    ensures TextAt(smoke, ["target", "authentication", "path"]) == Some(path) <==> AuthenticatedBy(smoke, path)
  {
    TextExactly(smoke, ["target", "authentication", "path"], path);
  }

  lemma EffectiveDriftIs(c: Case, smoke: Json)
    ensures EffectiveDrift(c, smoke)
         == if !Ran(smoke) then []
            else When(!Effective(smoke, "model", c.model), EffectiveModel)
                 + When(c.effort.Some? && !Effective(smoke, "effort", c.effort.value), EffectiveEffort)
                 + When(c.mode.Some? && !Effective(smoke, "mode", c.mode.value), EffectiveMode)
  {
    hide TextAt;
    hide Succeeded;
    hide Ran;
    hide Effective;
    hide When;
    RanExactly(smoke);
    EffectiveExactly(smoke, "model", c.model);
    if c.effort.Some? {
      EffectiveExactly(smoke, "effort", c.effort.value);
    }
    if c.mode.Some? {
      EffectiveExactly(smoke, "mode", c.mode.value);
    }
  }

  lemma EffectDiffersIs(c: Case, smoke: Json, d: Drift)
    ensures DiffersInEffect(c, smoke, d) <==>
              && Ran(smoke)
              && (|| (d == EffectiveModel && !Effective(smoke, "model", c.model))
                  || (d == EffectiveEffort && c.effort.Some? && !Effective(smoke, "effort", c.effort.value))
                  || (d == EffectiveMode && c.mode.Some? && !Effective(smoke, "mode", c.mode.value)))
  {
    hide Ran;
    hide Effective;
  }

  lemma EffectiveDriftExactly(c: Case, smoke: Json, d: Drift)
    ensures d in EffectiveDrift(c, smoke) <==> DiffersInEffect(c, smoke, d)
  {
    hide *;
    EffectiveDriftIs(c, smoke);
    EffectDiffersIs(c, smoke, d);
    InThree(!Effective(smoke, "model", c.model), EffectiveModel,
            c.effort.Some? && !Effective(smoke, "effort", c.effort.value), EffectiveEffort,
            c.mode.Some? && !Effective(smoke, "mode", c.mode.value), EffectiveMode, d);
  }

  lemma EffectiveExactly(smoke: Json, field: string, expected: string)
    ensures TextAt(smoke, ["session", "effective_request", field]) == Some(expected) <==>
              Effective(smoke, field, expected)
  {
    TextExactly(smoke, ["session", "effective_request", field], expected);
    hide TextAt;
    hide Has;
  }

  lemma KeyExactly(smoke: Json, env: string)
    ensures ApiKeyAuthenticationMatches(smoke, env) <==> HasKey(smoke, env)
  {
    TextExactly(smoke, ["target", "authentication", "name", "state"], "value");
    TextExactly(smoke, ["target", "authentication", "name", "value"], env);
    BoolExactly(smoke, ["target", "authentication", "present"], true);
    hide TextAt;
    hide BoolAt;
    hide Has;
  }

  ghost predicate LacksKey(c: Case, smoke: Json) {
    c.authPath == ApiKeyEnv && (c.credentialEnv.Some? ==> !HasKey(smoke, c.credentialEnv.value))
  }

  lemma TargetDriftIs(c: Case, smoke: Json)
    ensures TargetDrift(c, smoke)
         == if !Reached(smoke) then []
            else When(!ExecutedIn(smoke, ExecutionModeWire(c.executionMode)), ProvenanceExecutionMode)
                 + (if !AuthenticatedBy(smoke, AuthPathWire(c.authPath)) then [AuthenticationPath]
                    else When(LacksKey(c, smoke), AuthenticationCredentialEnv))
                 + When(c.expectedImageDigest.Some? && !Image(smoke, c.agent, c.expectedImageDigest.value),
                        ProvenanceImage)
  {
    hide TextAt;
    hide HasTarget;
    hide Reached;
    hide ExecutedIn;
    hide AuthenticatedBy;
    hide ExecutionModeWire;
    hide AuthPathWire;
    hide ApiKeyAuthenticationMatches;
    hide HasKey;
    hide ProvenanceField;
    hide When;
    RanExactly(smoke);
    ExecutedExactly(smoke, ExecutionModeWire(c.executionMode));
    AuthenticatedExactly(smoke, AuthPathWire(c.authPath));
    if c.credentialEnv.Some? {
      KeyExactly(smoke, c.credentialEnv.value);
    }
  }

  lemma TargetDriftExactly(c: Case, smoke: Json, d: Drift)
    ensures d in TargetDrift(c, smoke) <==> DiffersInTarget(c, smoke, d)
  {
    hide TargetDrift;
    hide Reached;
    hide ExecutedIn;
    hide AuthenticatedBy;
    hide ExecutionModeWire;
    hide AuthPathWire;
    hide HasKey;
    hide Image;
    hide When;
    TargetDriftIs(c, smoke);
    InWhen(!ExecutedIn(smoke, ExecutionModeWire(c.executionMode)), ProvenanceExecutionMode, d);
    InWhen(LacksKey(c, smoke), AuthenticationCredentialEnv, d);
    InWhen(c.expectedImageDigest.Some? && !Image(smoke, c.agent, c.expectedImageDigest.value), ProvenanceImage, d);
  }

  lemma {:induction false} ComponentDriftExactly(c: Case, smoke: Json, components: seq<(string, string)>, d: Drift)
    ensures d in ComponentDrift(c, smoke, components) <==>
              && d.ProvenanceComponent?
              && exists pin :: pin in components && pin.0 == d.component
                               && ProvenanceDetail(smoke, c.agent, pin.0) != Some(pin.1)
  {
    hide ProvenanceDetail;
    if components != [] {
      var first := components[0];
      ComponentDriftExactly(c, smoke, components[1..], d);
      InWhen(ProvenanceDetail(smoke, c.agent, first.0) != Some(first.1), ProvenanceComponent(first.0), d);
      hide When;
      assert forall pin :: pin in components <==> pin == first || pin in components[1..];
    }
  }

  lemma PinDriftIs(c: Case, smoke: Json, pins: PinSet)
    requires c.pins == Some(pins)
    ensures PinDrift(c, smoke)
         == When(!StatesConfig(smoke, pins.configSha256), ProvenanceConfigSha256)
            + When(pins.adapter.Some? && !ProvenancePackageMatches(smoke, c.agent, "adapter", pins.adapter.value),
                   ProvenanceAdapter)
            + When(pins.agentCli.Some? && !ProvenancePackageMatches(smoke, c.agent, "agent-cli", pins.agentCli.value),
                   ProvenanceAgentCli)
            + ComponentDrift(c, smoke, pins.components)
  {
    hide TextAt;
    hide StatesConfig;
    hide ProvenancePackageMatches;
    hide ComponentDrift;
    hide When;
    ConfigExactly(smoke, pins.configSha256);
  }

  lemma PinsDifferIs(c: Case, smoke: Json, pins: PinSet, d: Drift)
    requires c.pins == Some(pins)
    ensures DiffersInPins(c, smoke, d) <==>
              || (d == ProvenanceConfigSha256 && !StatesConfig(smoke, pins.configSha256))
              || (d == ProvenanceAdapter && pins.adapter.Some?
                  && !ProvenancePackageMatches(smoke, c.agent, "adapter", pins.adapter.value))
              || (d == ProvenanceAgentCli && pins.agentCli.Some?
                  && !ProvenancePackageMatches(smoke, c.agent, "agent-cli", pins.agentCli.value))
              || (d.ProvenanceComponent?
                  && exists pin :: pin in pins.components && pin.0 == d.component
                                   && ProvenanceDetail(smoke, c.agent, d.component) != Some(pin.1))
  {
    hide StatesConfig;
    hide ProvenancePackageMatches;
    hide ProvenanceDetail;
  }

  lemma PinDriftExactly(c: Case, smoke: Json, d: Drift)
    ensures d in PinDrift(c, smoke) <==> DiffersInPins(c, smoke, d)
  {
    if c.pins.None? {
      assert PinDrift(c, smoke) == [];
    } else {
      hide *;
      var pins := c.pins.value;
      PinDriftIs(c, smoke, pins);
      PinsDifferIs(c, smoke, pins, d);
      ComponentDriftExactly(c, smoke, pins.components, d);
      InThree(!StatesConfig(smoke, pins.configSha256), ProvenanceConfigSha256,
              pins.adapter.Some? && !ProvenancePackageMatches(smoke, c.agent, "adapter", pins.adapter.value),
              ProvenanceAdapter,
              pins.agentCli.Some? && !ProvenancePackageMatches(smoke, c.agent, "agent-cli", pins.agentCli.value),
              ProvenanceAgentCli, d);
    }
  }

  lemma ResolutionDriftIs(c: Case, smoke: Json, resolved: ResolvedBinding)
    requires c.resolved == Some(resolved)
    ensures ResolutionDrift(c, smoke)
         == When(!StatesConfig(smoke, resolved.configSha256), ResolutionConfigSha256)
            + if !Reached(smoke) then []
              else When(!ProvenancePackageMatches(smoke, c.agent, "adapter", resolved.adapter), ResolutionAdapter)
                   + When(!ProvenancePackageMatches(smoke, c.agent, "agent-cli", resolved.agentCli), ResolutionAgentCli)
                   + When(resolved.imageDigest.Some? && !Image(smoke, c.agent, resolved.imageDigest.value),
                          ResolutionImage)
  {
    hide TextAt;
    hide StatesConfig;
    hide HasTarget;
    hide Reached;
    hide ProvenancePackageMatches;
    hide ProvenanceField;
    hide When;
    RanExactly(smoke);
    ConfigExactly(smoke, resolved.configSha256);
  }

  lemma ResolutionDiffersIs(c: Case, smoke: Json, resolved: ResolvedBinding, d: Drift)
    requires c.resolved == Some(resolved)
    ensures DiffersInResolution(c, smoke, d) <==>
              || (d == ResolutionConfigSha256 && !StatesConfig(smoke, resolved.configSha256))
              || (Reached(smoke)
                  && (|| (d == ResolutionAdapter
                          && !ProvenancePackageMatches(smoke, c.agent, "adapter", resolved.adapter))
                      || (d == ResolutionAgentCli
                          && !ProvenancePackageMatches(smoke, c.agent, "agent-cli", resolved.agentCli))
                      || (d == ResolutionImage && resolved.imageDigest.Some?
                          && !Image(smoke, c.agent, resolved.imageDigest.value))))
  {
    hide StatesConfig;
    hide Reached;
    hide ProvenancePackageMatches;
    hide Image;
  }

  lemma ResolutionDriftExactly(c: Case, smoke: Json, d: Drift)
    ensures d in ResolutionDrift(c, smoke) <==> DiffersInResolution(c, smoke, d)
  {
    if c.resolved.None? {
      assert ResolutionDrift(c, smoke) == [];
    } else {
      hide *;
      var resolved := c.resolved.value;
      ResolutionDriftIs(c, smoke, resolved);
      ResolutionDiffersIs(c, smoke, resolved, d);
      InWhen(!StatesConfig(smoke, resolved.configSha256), ResolutionConfigSha256, d);
      InThree(!ProvenancePackageMatches(smoke, c.agent, "adapter", resolved.adapter), ResolutionAdapter,
              !ProvenancePackageMatches(smoke, c.agent, "agent-cli", resolved.agentCli), ResolutionAgentCli,
              resolved.imageDigest.Some? && !Image(smoke, c.agent, resolved.imageDigest.value), ResolutionImage, d);
    }
  }

  lemma FloatingDriftExactly(c: Case, smoke: Json, acceptable: string -> bool, d: Drift)
    ensures d in FloatingDrift(c, smoke, acceptable) <==> DiffersInOutcome(c, smoke, acceptable, d)
  {
    RanExactly(smoke);
    SuccessContractExactly(smoke);
    FailureContractExactly(smoke, c.model, c.effort, c.mode, acceptable);
    hide Succeeded;
    hide Ran;
    hide FloatingSuccessContract;
    hide FloatingFailureContract;
    hide AnsweredCleanly;
    hide FailedCleanly;
    hide ValidAvailableCatalog;
    hide When;
    InWhen(!FloatingSuccessContract(smoke), OutcomeSmokeContract, d);
    InWhen(!ValidAvailableCatalog(smoke, c.model, c.effort, c.mode, acceptable), CapabilityModelCatalog, d);
    InWhen(!FloatingFailureContract(smoke, c.model, c.effort, c.mode, acceptable), OutcomeSmokeContract, d);
  }

  /** Each dimension is reported exactly when the evidence differs from its case in it. */
  lemma DriftListsExactly(c: Case, smoke: Json, acceptable: string -> bool, d: Drift)
    ensures d in DriftFor(c, smoke) + FloatingDrift(c, smoke, acceptable) <==> Differs(c, smoke, acceptable, d)
  {
    RequestDriftExactly(c, smoke, d);
    EffectiveDriftExactly(c, smoke, d);
    TargetDriftExactly(c, smoke, d);
    PinDriftExactly(c, smoke, d);
    ResolutionDriftExactly(c, smoke, d);
    FloatingDriftExactly(c, smoke, acceptable, d);
    hide RequestDrift;
    hide EffectiveDrift;
    hide TargetDrift;
    hide PinDrift;
    hide ResolutionDrift;
    hide FloatingDrift;
    hide DiffersInRequest;
    hide DiffersInEffect;
    hide DiffersInTarget;
    hide DiffersInPins;
    hide DiffersInResolution;
    hide DiffersInOutcome;
  }

  // ---- What a verdict has shown ----

  /** The evidence agrees with its case in every dimension. */
  ghost predicate NothingDiffers(c: Case, smoke: Json, acceptable: string -> bool) {
    forall d :: !Differs(c, smoke, acceptable, d)
  }

  lemma NoDriftMeansNothingDiffers(c: Case, smoke: Json, acceptable: string -> bool)
    ensures DriftFor(c, smoke) + FloatingDrift(c, smoke, acceptable) == [] <==> NothingDiffers(c, smoke, acceptable)
  {
    var drift := DriftFor(c, smoke) + FloatingDrift(c, smoke, acceptable);
    hide DriftFor;
    hide FloatingDrift;
    hide Differs;
    forall d ensures d in drift <==> Differs(c, smoke, acceptable, d) {
      DriftListsExactly(c, smoke, acceptable, d);
    }
    if drift != [] {
      assert drift[0] in drift;
    }
  }

  /**
   * A floating candidate passes exactly when its evidence agrees with its case in every dimension, violates no
   * budget, and shows one prompt answered exactly, in time and put away cleanly, with a catalog that offers the
   * model. It fails exactly when the evidence shows a failure of the candidate's own, as cleanly. Everything else
   * is unknown.
   */
  lemma VerdictsExactly(c: Case, smoke: Json, violations: seq<Violation>, acceptable: string -> bool)
    requires c.lane == FloatingCurrent && WellShaped(smoke, c.agent)
    ensures var verdict := CompletedResult(c, smoke, violations, acceptable).candidateOutcome;
            var catalog := ValidAvailableCatalog(smoke, c.model, c.effort, c.mode, acceptable);
            var agrees := NothingDiffers(c, smoke, acceptable) && violations == [];
            && (verdict == Some(CandidatePass) <==> agrees && AnsweredCleanly(smoke) && catalog)
            && (verdict == Some(CandidateFail) <==> agrees && FailedCleanly(smoke) && catalog)
            && (verdict == Some(CandidateUnknown) <==> !agrees)
  {
    hide *;
    NoDriftMeansNothingDiffers(c, smoke, acceptable);
    RanExactly(smoke);
    CleanlyMeans(smoke);
    if NothingDiffers(c, smoke, acceptable) {
      OutcomesAgree(c, smoke, acceptable);
    }
    VerdictOf(c, smoke, violations, acceptable);
  }

  lemma VerdictOf(c: Case, smoke: Json, violations: seq<Violation>, acceptable: string -> bool)
    requires c.lane == FloatingCurrent
    ensures CompletedResult(c, smoke, violations, acceptable).candidateOutcome
         == Some(if DriftFor(c, smoke) + FloatingDrift(c, smoke, acceptable) != [] || violations != []
                   then CandidateUnknown
                 else if Succeeded(smoke) then CandidatePass else CandidateFail)
  {
    hide DriftFor;
    hide FloatingDrift;
    hide Succeeded;
  }

  lemma CleanlyMeans(smoke: Json)
    ensures AnsweredCleanly(smoke) ==> Ran(smoke)
    ensures FailedCleanly(smoke) ==> !Ran(smoke)
  {
    HasExactly(smoke, ["success"], JBool(true));
    HasExactly(smoke, ["success"], JBool(false));
    hide Has;
    hide At;
    hide NothingAt;
  }

  lemma OutcomesAgree(c: Case, smoke: Json, acceptable: string -> bool)
    requires c.lane == FloatingCurrent && NothingDiffers(c, smoke, acceptable)
    ensures ValidAvailableCatalog(smoke, c.model, c.effort, c.mode, acceptable)
    ensures Ran(smoke) ==> AnsweredCleanly(smoke)
    ensures !Ran(smoke) ==> FailedCleanly(smoke)
  {
    hide AnsweredCleanly;
    hide FailedCleanly;
    hide ValidAvailableCatalog;
    hide Ran;
    var contract, catalog := OutcomeSmokeContract, CapabilityModelCatalog;
    assert !Differs(c, smoke, acceptable, contract) && !DiffersInOutcome(c, smoke, acceptable, contract);
    assert !Differs(c, smoke, acceptable, catalog) && !DiffersInOutcome(c, smoke, acceptable, catalog);
    hide NothingDiffers;
  }
}

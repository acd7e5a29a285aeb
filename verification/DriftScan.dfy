/** The scan that collects a case's drift dimension by dimension. */
module DriftScan {
  import opened Prelude
  import opened Json
  import opened SmokeEvidence

  predicate ImageMatches(c: Case, smoke: Json, digest: string) {
    ProvenanceField(smoke, c.agent, "image", "immutable_id") == Some(digest)
  }

  /** The evidence states the case's own identity, pins and resolution, as far as it got. */
  ghost predicate EvidenceMatches(c: Case, smoke: Json) {
    && TextAt(smoke, ["request", "model"]) == Some(c.model)
    && RequestFieldMatches(smoke, "effort", c.effort)
    && RequestFieldMatches(smoke, "mode", c.mode)
    && (Succeeded(smoke) ==> EffectiveMatches(c, smoke))
    && (HasTarget(smoke) ==> TargetMatches(c, smoke))
    && (c.pins.Some? ==> PinsMatch(c, c.pins.value, smoke))
    && (c.resolved.Some? ==> ResolutionMatches(c, c.resolved.value, smoke))
  }

  ghost predicate EffectiveMatches(c: Case, smoke: Json) {
    && TextAt(smoke, ["session", "effective_request", "model"]) == Some(c.model)
    && (c.effort.Some? ==> TextAt(smoke, ["session", "effective_request", "effort"]) == c.effort)
    && (c.mode.Some? ==> TextAt(smoke, ["session", "effective_request", "mode"]) == c.mode)
  }

  ghost predicate TargetMatches(c: Case, smoke: Json) {
    && TextAt(smoke, ["target", "execution_mode"]) == Some(ExecutionModeWire(c.executionMode))
    && TextAt(smoke, ["target", "authentication", "path"]) == Some(AuthPathWire(c.authPath))
    && (c.authPath == ApiKeyEnv ==> c.credentialEnv.Some? && ApiKeyAuthenticationMatches(smoke, c.credentialEnv.value))
    && (c.expectedImageDigest.Some? ==> ImageMatches(c, smoke, c.expectedImageDigest.value))
  }

  ghost predicate PinsMatch(c: Case, pins: PinSet, smoke: Json) {
    && TextAt(smoke, ["request", "config_sha256"]) == Some(pins.configSha256)
    && (pins.adapter.Some? ==> ProvenancePackageMatches(smoke, c.agent, "adapter", pins.adapter.value))
    && (pins.agentCli.Some? ==> ProvenancePackageMatches(smoke, c.agent, "agent-cli", pins.agentCli.value))
    && forall pin :: pin in pins.components ==> ProvenanceDetail(smoke, c.agent, pin.0) == Some(pin.1)
  }

  ghost predicate ResolutionMatches(c: Case, resolved: ResolvedBinding, smoke: Json) {
    && TextAt(smoke, ["request", "config_sha256"]) == Some(resolved.configSha256)
    && (HasTarget(smoke) ==>
          && ProvenancePackageMatches(smoke, c.agent, "adapter", resolved.adapter)
          && ProvenancePackageMatches(smoke, c.agent, "agent-cli", resolved.agentCli)
          && (resolved.imageDigest.Some? ==> ImageMatches(c, smoke, resolved.imageDigest.value)))
  }

  lemma {:induction false} ComponentsMatchExactly(c: Case, smoke: Json, components: seq<(string, string)>)
    ensures ComponentDrift(c, smoke, components) == []
            <==> forall pin :: pin in components ==> ProvenanceDetail(smoke, c.agent, pin.0) == Some(pin.1)
  {
    hide ProvenanceDetail;
    if components != [] {
      assert components == [components[0]] + components[1..];
      ComponentsMatchExactly(c, smoke, components[1..]);
    }
  }

  /** No drift is reported exactly when everything the evidence states is what the case expects. */
  lemma NoDriftExactly(c: Case, smoke: Json)
    ensures DriftFor(c, smoke) == [] <==> EvidenceMatches(c, smoke)
  {
    hide TextAt;
    hide RequestFieldMatches;
    hide ProvenanceField;
    hide ProvenanceDetail;
    hide ProvenancePackageMatches;
    hide ApiKeyAuthenticationMatches;
    hide Succeeded;
    hide HasTarget;
    hide ComponentDrift;
    hide ExecutionModeWire;
    hide AuthPathWire;
    if c.pins.Some? { ComponentsMatchExactly(c, smoke, c.pins.value.components); }
  }

  // ---- What evidence without drift says about its case ----

  lemma ExecutionModesDiffer(a: ExecutionMode, b: ExecutionMode)
    requires ExecutionModeWire(a) == ExecutionModeWire(b)
    ensures a == b
  {
    assert ExecutionModeWire(Host)[0] == 'h' && ExecutionModeWire(RemoteApi)[0] == 'r';
    assert ExecutionModeWire(ContainerRo)[11] == 'o' && ExecutionModeWire(ContainerRw)[11] == 'w';
    assert ExecutionModeWire(ContainerRo)[0] == ExecutionModeWire(ContainerRw)[0] == 'c';
  }

  lemma AuthPathsDiffer(a: AuthPath, b: AuthPath)
    requires AuthPathWire(a) == AuthPathWire(b)
    ensures a == b
  {
    assert AuthPathWire(ApiKeyEnv)[..2] == "ap" && AuthPathWire(Automatic)[..2] == "au";
    assert AuthPathWire(PreAuthenticated)[..2] == "pr" && AuthPathWire(ConfiguredMethod)[..2] == "co";
    assert AuthPathWire(NotApplicable)[..2] == "no";
  }

  lemma RequestFieldIdentifies(smoke: Json, field: string, a: Option<string>, b: Option<string>)
    requires RequestFieldMatches(smoke, field, a) && RequestFieldMatches(smoke, field, b)
    ensures a == b
  {
    hide At;
  }

  predicate Agree(a: Option<string>, b: Option<string>) {
    a.Some? && b.Some? ==> a == b
  }

  /** Two cases of one agent that expect the same of a run that got as far as its target. */
  ghost predicate SameTarget(a: Case, b: Case) {
    && a.executionMode == b.executionMode && a.authPath == b.authPath
    && (a.authPath == ApiKeyEnv ==> a.credentialEnv == b.credentialEnv)
    && Agree(a.expectedImageDigest, b.expectedImageDigest)
  }

  ghost predicate SamePins(a: PinSet, b: PinSet) {
    && a.configSha256 == b.configSha256 && Agree(a.adapter, b.adapter) && Agree(a.agentCli, b.agentCli)
    && forall x, y :: x in a.components && y in b.components && x.0 == y.0 ==> x.1 == y.1
  }

  ghost predicate SameResolution(a: ResolvedBinding, b: ResolvedBinding, reached: bool) {
    && a.configSha256 == b.configSha256
    && (reached ==> a.adapter == b.adapter && a.agentCli == b.agentCli && Agree(a.imageDigest, b.imageDigest))
  }

  lemma TargetIdentifies(a: Case, b: Case, smoke: Json)
    requires a.agent == b.agent && TargetMatches(a, smoke) && TargetMatches(b, smoke)
    ensures SameTarget(a, b)
  {
    hide TextAt;
    hide ProvenanceField;
    assert ExecutionModeWire(a.executionMode) == ExecutionModeWire(b.executionMode);
    assert AuthPathWire(a.authPath) == AuthPathWire(b.authPath);
    hide ExecutionModeWire;
    hide AuthPathWire;
    ExecutionModesDiffer(a.executionMode, b.executionMode);
    AuthPathsDiffer(a.authPath, b.authPath);
  }

  lemma PinsIdentify(a: Case, b: Case, smoke: Json)
    requires a.agent == b.agent && a.pins.Some? && b.pins.Some?
    requires PinsMatch(a, a.pins.value, smoke) && PinsMatch(b, b.pins.value, smoke)
    ensures SamePins(a.pins.value, b.pins.value)
  {
    hide TextAt;
    hide ProvenanceField;
    hide ProvenanceDetail;
  }

  lemma ResolutionIdentifies(a: Case, b: Case, smoke: Json)
    requires a.agent == b.agent && a.resolved.Some? && b.resolved.Some?
    requires ResolutionMatches(a, a.resolved.value, smoke) && ResolutionMatches(b, b.resolved.value, smoke)
    ensures SameResolution(a.resolved.value, b.resolved.value, HasTarget(smoke))
  {
    hide TextAt;
    hide ProvenanceField;
    hide HasTarget;
  }

  /**
   * Evidence without drift identifies its case: one artifact is accepted without drift for two cases of an agent
   * only if they agree in everything it was checked against, so evidence of one cannot pass for the other.
   */
  lemma DriftFreeEvidenceIdentifies(a: Case, b: Case, smoke: Json)
    requires a.agent == b.agent && DriftFor(a, smoke) == [] && DriftFor(b, smoke) == []
    ensures a.model == b.model && a.effort == b.effort && a.mode == b.mode
    ensures HasTarget(smoke) ==> SameTarget(a, b)
    ensures a.pins.Some? && b.pins.Some? ==> SamePins(a.pins.value, b.pins.value)
    ensures a.resolved.Some? && b.resolved.Some? ==>
              SameResolution(a.resolved.value, b.resolved.value, HasTarget(smoke))
  {
    NoDriftExactly(a, smoke);
    NoDriftExactly(b, smoke);
    hide DriftFor;
    hide TextAt;
    hide RequestFieldMatches;
    hide HasTarget;
    hide Succeeded;
    hide EffectiveMatches;
    hide TargetMatches;
    hide PinsMatch;
    hide ResolutionMatches;
    hide SameTarget;
    hide SamePins;
    hide SameResolution;
    RequestFieldIdentifies(smoke, "effort", a.effort, b.effort);
    RequestFieldIdentifies(smoke, "mode", a.mode, b.mode);
    if HasTarget(smoke) { TargetIdentifies(a, b, smoke); }
    if a.pins.Some? && b.pins.Some? { PinsIdentify(a, b, smoke); }
    if a.resolved.Some? && b.resolved.Some? { ResolutionIdentifies(a, b, smoke); }
  }

  // ---- No dimension is listed twice ----

  predicate NoRepeats(drift: seq<Drift>) {
    forall i, j :: 0 <= i < j < |drift| ==> drift[i] != drift[j]
  }

  /** The place of a dimension in the order they are looked at. */
  function Rank(d: Drift): nat {
    match d
    case CapabilityModel => 0
    case CapabilityEffort => 1
    case CapabilityMode => 2
    case EffectiveModel => 3
    case EffectiveEffort => 4
    case EffectiveMode => 5
    case ProvenanceExecutionMode => 6
    case AuthenticationPath => 7
    case AuthenticationCredentialEnv => 8
    case ProvenanceImage => 9
    case ProvenanceConfigSha256 => 10
    case ProvenanceAdapter => 11
    case ProvenanceAgentCli => 12
    case ProvenanceComponent(_) => 13
    case ResolutionConfigSha256 => 14
    case ResolutionAdapter => 15
    case ResolutionAgentCli => 16
    case ResolutionImage => 17
    case OutcomeSmokeContract => 18
    case CapabilityModelCatalog => 19
    case OutcomeCancellation => 20
  }

  /** Distinct dimensions, all of them in a range of the order. */
  predicate Ranked(drift: seq<Drift>, low: nat, high: nat) {
    NoRepeats(drift) && forall i :: 0 <= i < |drift| ==> low <= Rank(drift[i]) < high
  }

  lemma RankedTogether(a: seq<Drift>, b: seq<Drift>, low: nat, middle: nat, high: nat)
    requires low <= middle <= high && Ranked(a, low, middle) && Ranked(b, middle, high)
    ensures Ranked(a + b, low, high)
  {
    hide Rank;
  }

  lemma RankedOnce(condition: bool, d: Drift)
    ensures Ranked(When(condition, d), Rank(d), Rank(d) + 1)
  {
  }

  lemma RankedThrice(x: bool, a: Drift, y: bool, b: Drift, z: bool, c: Drift)
    requires Rank(b) == Rank(a) + 1 && Rank(c) == Rank(b) + 1
    ensures Ranked(When(x, a) + When(y, b) + When(z, c), Rank(a), Rank(c) + 1)
  {
    hide Rank;
    hide Ranked;
    hide When;
    RankedOnce(x, a);
    RankedOnce(y, b);
    RankedOnce(z, c);
    RankedTogether(When(x, a), When(y, b), Rank(a), Rank(b), Rank(c));
    RankedTogether(When(x, a) + When(y, b), When(z, c), Rank(a), Rank(c), Rank(c) + 1);
  }

  predicate DistinctNames(components: seq<(string, string)>) {
    forall i, j :: 0 <= i < j < |components| ==> components[i].0 != components[j].0
  }

  predicate DistinctComponents(c: Case) {
    c.pins.Some? ==> DistinctNames(c.pins.value.components)
  }

  function ComponentNames(components: seq<(string, string)>): set<string> {
    set i | 0 <= i < |components| :: components[i].0
  }

  predicate OnlyComponents(drift: seq<Drift>, names: set<string>) {
    NoRepeats(drift) && forall i :: 0 <= i < |drift| ==> drift[i].ProvenanceComponent? && drift[i].component in names
  }

  lemma FirstName(components: seq<(string, string)>)
    requires components != [] && DistinctNames(components)
    ensures DistinctNames(components[1..]) && components[0].0 !in ComponentNames(components[1..])
    ensures ComponentNames(components) == {components[0].0} + ComponentNames(components[1..])
  {
    forall i | 0 < i < |components| ensures components[i].0 in ComponentNames(components[1..]) {
      assert components[i] == components[1..][i - 1];
    }
  }

  lemma {:induction false} ComponentsListed(c: Case, smoke: Json, components: seq<(string, string)>)
    requires DistinctNames(components)
    ensures OnlyComponents(ComponentDrift(c, smoke, components), ComponentNames(components))
  {
    hide ProvenanceDetail;
    if components != [] {
      FirstName(components);
      hide DistinctNames;
      hide ComponentNames;
      ComponentsListed(c, smoke, components[1..]);
    }
  }

  lemma ComponentsRanked(c: Case, smoke: Json, components: seq<(string, string)>)
    requires DistinctNames(components)
    ensures Ranked(ComponentDrift(c, smoke, components), 13, 14)
  {
    ComponentsListed(c, smoke, components);
    hide ComponentDrift;
    hide ComponentNames;
  }

  lemma RequestRanked(c: Case, smoke: Json)
    ensures Ranked(RequestDrift(c, smoke), 0, 3) && Ranked(EffectiveDrift(c, smoke), 3, 6)
  {
    hide TextAt;
    hide RequestFieldMatches;
    hide Succeeded;
    hide Ranked;
    RankedThrice(TextAt(smoke, ["request", "model"]) != Some(c.model), CapabilityModel,
                 !RequestFieldMatches(smoke, "effort", c.effort), CapabilityEffort,
                 !RequestFieldMatches(smoke, "mode", c.mode), CapabilityMode);
    if Succeeded(smoke) {
      RankedThrice(TextAt(smoke, ["session", "effective_request", "model"]) != Some(c.model), EffectiveModel,
                   c.effort.Some? && TextAt(smoke, ["session", "effective_request",
                                                    "effort"]) != c.effort, EffectiveEffort,
                   c.mode.Some? && TextAt(smoke, ["session", "effective_request", "mode"]) != c.mode, EffectiveMode);
    } else {
      NothingRanked(3, 6);
    }
  }

  lemma NothingRanked(low: nat, high: nat)
    ensures Ranked([], low, high)
  {
  }

  lemma TargetRanked(c: Case, smoke: Json)
    ensures Ranked(TargetDrift(c, smoke), 6, 10)
  {
    hide TextAt;
    hide ProvenanceField;
    hide ApiKeyAuthenticationMatches;
    hide HasTarget;
    hide ExecutionModeWire;
    hide AuthPathWire;
  }

  lemma PinRanked(c: Case, smoke: Json)
    requires DistinctComponents(c)
    ensures Ranked(PinDrift(c, smoke), 10, 14)
  {
    hide TextAt;
    hide ProvenancePackageMatches;
    hide ComponentDrift;
    hide Ranked;
    if c.pins.None? {
      NothingRanked(10, 14);
    } else {
      var pins := c.pins.value;
      var config := TextAt(smoke, ["request", "config_sha256"]) != Some(pins.configSha256);
      var adapter := pins.adapter.Some? && !ProvenancePackageMatches(smoke, c.agent, "adapter", pins.adapter.value);
      var agentCli :=
        pins.agentCli.Some? && !ProvenancePackageMatches(smoke, c.agent, "agent-cli", pins.agentCli.value);
      RankedThrice(config, ProvenanceConfigSha256, adapter, ProvenanceAdapter, agentCli, ProvenanceAgentCli);
      ComponentsRanked(c, smoke, pins.components);
      RankedTogether(When(config, ProvenanceConfigSha256) + When(adapter, ProvenanceAdapter)
                       + When(agentCli, ProvenanceAgentCli),
                     ComponentDrift(c, smoke, pins.components), 10, 13, 14);
    }
  }

  lemma ResolutionRanked(c: Case, smoke: Json)
    ensures Ranked(ResolutionDrift(c, smoke), 14, 18)
  {
    hide TextAt;
    hide ProvenancePackageMatches;
    hide ProvenanceField;
    hide HasTarget;
    hide Ranked;
    if c.resolved.None? {
      NothingRanked(14, 18);
    } else {
      var resolved := c.resolved.value;
      var config := TextAt(smoke, ["request", "config_sha256"]) != Some(resolved.configSha256);
      RankedOnce(config, ResolutionConfigSha256);
      NothingRanked(15, 18);
      RankedTogether(When(config, ResolutionConfigSha256), [], 14, 15, 18);
      var adapter := !ProvenancePackageMatches(smoke, c.agent, "adapter", resolved.adapter);
      var agentCli := !ProvenancePackageMatches(smoke, c.agent, "agent-cli", resolved.agentCli);
      var image := resolved.imageDigest.Some?
                   && ProvenanceField(smoke, c.agent, "image", "immutable_id") != resolved.imageDigest;
      RankedThrice(adapter, ResolutionAdapter, agentCli, ResolutionAgentCli, image, ResolutionImage);
      RankedTogether(When(config, ResolutionConfigSha256),
                     When(adapter, ResolutionAdapter) + When(agentCli, ResolutionAgentCli)
                         + When(image, ResolutionImage), 14, 15, 18);
    }
  }

  lemma FloatingRanked(c: Case, smoke: Json, acceptable: string -> bool)
    ensures Ranked(FloatingDrift(c, smoke, acceptable), 18, 20)
  {
    hide FloatingSuccessContract;
    hide FloatingFailureContract;
    hide ValidAvailableCatalog;
    hide Succeeded;
  }

  /** With distinct component names, no dimension of a case's drift is listed twice, the floating ones included. */
  lemma DriftHasNoRepeats(c: Case, smoke: Json, acceptable: string -> bool)
    requires DistinctComponents(c)
    ensures Ranked(DriftFor(c, smoke), 0, 18)
    ensures Ranked(DriftFor(c, smoke) + FloatingDrift(c, smoke, acceptable), 0, 20)
  {
    hide Ranked;
    hide RequestDrift;
    hide EffectiveDrift;
    hide TargetDrift;
    hide PinDrift;
    hide ResolutionDrift;
    hide FloatingDrift;
    RequestRanked(c, smoke);
    TargetRanked(c, smoke);
    PinRanked(c, smoke);
    ResolutionRanked(c, smoke);
    FloatingRanked(c, smoke, acceptable);
    var first := RequestDrift(c, smoke) + EffectiveDrift(c, smoke);
    RankedTogether(RequestDrift(c, smoke), EffectiveDrift(c, smoke), 0, 3, 6);
    RankedTogether(first, TargetDrift(c, smoke), 0, 6, 10);
    RankedTogether(first + TargetDrift(c, smoke), PinDrift(c, smoke), 0, 10, 14);
    RankedTogether(first + TargetDrift(c, smoke) + PinDrift(c, smoke), ResolutionDrift(c, smoke), 0, 14, 18);
    RankedTogether(DriftFor(c, smoke), FloatingDrift(c, smoke, acceptable), 0, 18, 20);
  }

  // ---- The scan ----

  lemma Appending(a: seq<Drift>, b: seq<Drift>, c: seq<Drift>)
    ensures (a + b) + c == a + (b + c)
  {
  }

  lemma AppendingThree(before: seq<Drift>, a: seq<Drift>, b: seq<Drift>, c: seq<Drift>)
    ensures before + a + b + c == before + (a + b + c)
  {
    Appending(before, a, b);
    Appending(before, a + b, c);
  }

  function PinDimension(c: Case, smoke: Json, pin: (string, string)): seq<Drift> {
    When(ProvenanceDetail(smoke, c.agent, pin.0) != Some(pin.1), ProvenanceComponent(pin.0))
  }

  lemma {:induction false} ComponentDriftOneMore(c: Case, smoke: Json, components: seq<(string, string)>, i: nat)
    requires i < |components|
    ensures ComponentDrift(c, smoke, components[..i + 1])
         == ComponentDrift(c, smoke, components[..i]) + PinDimension(c, smoke, components[i])
  {
    var first := PinDimension(c, smoke, components[0]);
    assert components[..i + 1][1..] == components[1..][..i];
    assert ComponentDrift(c, smoke, components[..i + 1]) == first + ComponentDrift(c, smoke, components[1..][..i]);
    if i > 0 {
      assert components[..i][1..] == components[1..][..i - 1];
      assert ComponentDrift(c, smoke, components[..i]) == first + ComponentDrift(c, smoke, components[1..][..i - 1]);
      hide ComponentDrift;
      hide PinDimension;
      ComponentDriftOneMore(c, smoke, components[1..], i - 1);
      Appending(first, ComponentDrift(c, smoke, components[1..][..i - 1]), PinDimension(c, smoke, components[i]));
    }
  }

  method PushWhen(condition: bool, dimension: Drift, drift: seq<Drift>) returns (pushed: seq<Drift>)
    ensures pushed == drift + When(condition, dimension)
  {
    pushed := drift;
    if condition {
      pushed := pushed + [dimension];
    }
  }

  method PushRequestDrift(c: Case, smoke: Json, before: seq<Drift>) returns (drift: seq<Drift>)
    ensures drift == before + RequestDrift(c, smoke)
  {
    hide TextAt;
    hide RequestFieldMatches;
    hide When;
    var model := TextAt(smoke, ["request", "model"]) != Some(c.model);
    var effort := !RequestFieldMatches(smoke, "effort", c.effort);
    var mode := !RequestFieldMatches(smoke, "mode", c.mode);
    AppendingThree(before, When(model, CapabilityModel), When(effort, CapabilityEffort), When(mode, CapabilityMode));
    drift := PushWhen(model, CapabilityModel, before);
    drift := PushWhen(effort, CapabilityEffort, drift);
    drift := PushWhen(mode, CapabilityMode, drift);
  }

  method PushEffectiveDrift(c: Case, smoke: Json, before: seq<Drift>) returns (drift: seq<Drift>)
    ensures drift == before + EffectiveDrift(c, smoke)
  {
    hide TextAt;
    hide When;
    drift := before;
    if !Succeeded(smoke) {
      return;
    }
    var model := TextAt(smoke, ["session", "effective_request", "model"]) != Some(c.model);
    var effort := c.effort.Some? && TextAt(smoke, ["session", "effective_request", "effort"]) != c.effort;
    var mode := c.mode.Some? && TextAt(smoke, ["session", "effective_request", "mode"]) != c.mode;
    AppendingThree(before, When(model, EffectiveModel), When(effort, EffectiveEffort), When(mode, EffectiveMode));
    drift := PushWhen(model, EffectiveModel, drift);
    drift := PushWhen(effort, EffectiveEffort, drift);
    drift := PushWhen(mode, EffectiveMode, drift);
  }

  method PushTargetDrift(c: Case, smoke: Json, before: seq<Drift>) returns (drift: seq<Drift>)
    ensures drift == before + TargetDrift(c, smoke)
  {
    hide TextAt;
    hide ProvenanceField;
    hide ApiKeyAuthenticationMatches;
    hide ExecutionModeWire;
    hide AuthPathWire;
    drift := before;
    if !HasTarget(smoke) {
      return;
    }
    drift := PushWhen(TextAt(smoke, ["target", "execution_mode"]) != Some(ExecutionModeWire(c.executionMode)),
                      ProvenanceExecutionMode, drift);
    if TextAt(smoke, ["target", "authentication", "path"]) != Some(AuthPathWire(c.authPath)) {
      drift := drift + [AuthenticationPath];
    } else if c.authPath == ApiKeyEnv && (c.credentialEnv.None?
                                            || !ApiKeyAuthenticationMatches(smoke, c.credentialEnv.value)) {
      drift := drift + [AuthenticationCredentialEnv];
    }
    var image := c.expectedImageDigest.Some?
                 && ProvenanceField(smoke, c.agent, "image", "immutable_id") != c.expectedImageDigest;
    drift := PushWhen(image, ProvenanceImage, drift);
  }

  method PushComponentDrift(c: Case, smoke: Json, components: seq<(string, string)>,
                            before: seq<Drift>) returns (drift: seq<Drift>)
    ensures drift == before + ComponentDrift(c, smoke, components)
  {
    hide ProvenanceDetail;
    drift := before;
    for i := 0 to |components|
      invariant drift == before + ComponentDrift(c, smoke, components[..i])
    {
      var (component, expected) := components[i];
      ComponentDriftOneMore(c, smoke, components, i);
      hide ComponentDrift;
      Appending(before, ComponentDrift(c, smoke, components[..i]), PinDimension(c, smoke, components[i]));
      drift := PushWhen(ProvenanceDetail(smoke, c.agent, component) != Some(expected), ProvenanceComponent(component),
                        drift);
    }
    assert components[..|components|] == components;
  }

  method PushPinDrift(c: Case, smoke: Json, before: seq<Drift>) returns (drift: seq<Drift>)
    ensures drift == before + PinDrift(c, smoke)
  {
    hide TextAt;
    hide ProvenancePackageMatches;
    hide ComponentDrift;
    hide When;
    drift := before;
    if c.pins.None? {
      return;
    }
    var pins := c.pins.value;
    var config := TextAt(smoke, ["request", "config_sha256"]) != Some(pins.configSha256);
    var adapter := pins.adapter.Some? && !ProvenancePackageMatches(smoke, c.agent, "adapter", pins.adapter.value);
    var agentCli := pins.agentCli.Some? && !ProvenancePackageMatches(smoke, c.agent, "agent-cli", pins.agentCli.value);
    ghost var a, b := When(config, ProvenanceConfigSha256), When(adapter, ProvenanceAdapter);
    ghost var d := When(agentCli, ProvenanceAgentCli);
    AppendingThree(before, a, b, d);
    Appending(before, a + b + d, ComponentDrift(c, smoke, pins.components));
    drift := PushWhen(config, ProvenanceConfigSha256, drift);
    drift := PushWhen(adapter, ProvenanceAdapter, drift);
    drift := PushWhen(agentCli, ProvenanceAgentCli, drift);
    drift := PushComponentDrift(c, smoke, pins.components, drift);
  }

  method PushResolutionDrift(c: Case, smoke: Json, before: seq<Drift>) returns (drift: seq<Drift>)
    ensures drift == before + ResolutionDrift(c, smoke)
  {
    hide TextAt;
    hide ProvenanceField;
    hide ProvenancePackageMatches;
    hide When;
    drift := before;
    if c.resolved.None? {
      return;
    }
    var resolved := c.resolved.value;
    var config := TextAt(smoke, ["request", "config_sha256"]) != Some(resolved.configSha256);
    drift := PushWhen(config, ResolutionConfigSha256, drift);
    if HasTarget(smoke) {
      var adapter := !ProvenancePackageMatches(smoke, c.agent, "adapter", resolved.adapter);
      var agentCli := !ProvenancePackageMatches(smoke, c.agent, "agent-cli", resolved.agentCli);
      var image := resolved.imageDigest.Some?
                   && ProvenanceField(smoke, c.agent, "image", "immutable_id") != resolved.imageDigest;
      ghost var a, b := When(adapter, ResolutionAdapter), When(agentCli, ResolutionAgentCli);
      ghost var d := When(image, ResolutionImage);
      AppendingThree(drift, a, b, d);
      Appending(before, When(config, ResolutionConfigSha256), a + b + d);
      drift := PushWhen(adapter, ResolutionAdapter, drift);
      drift := PushWhen(agentCli, ResolutionAgentCli, drift);
      drift := PushWhen(image, ResolutionImage, drift);
    }
  }

  /** The dimensions a floating case is also held to. */
  method PushFloatingDrift(c: Case, smoke: Json, acceptable: string -> bool,
                           before: seq<Drift>) returns (drift: seq<Drift>)
    ensures drift == before + FloatingDrift(c, smoke, acceptable)
  {
    hide FloatingSuccessContract;
    hide FloatingFailureContract;
    hide ValidAvailableCatalog;
    drift := before;
    if c.lane == FloatingCurrent {
      if Succeeded(smoke) {
        drift := PushWhen(!FloatingSuccessContract(smoke), OutcomeSmokeContract, drift);
        drift := PushWhen(!ValidAvailableCatalog(smoke, c.model, c.effort, c.mode, acceptable), CapabilityModelCatalog,
                          drift);
      } else {
        drift := PushWhen(!FloatingFailureContract(smoke, c.model, c.effort, c.mode, acceptable), OutcomeSmokeContract,
                          drift);
      }
    }
  }

  method CollectDrift(c: Case, smoke: Json, acceptable: string -> bool) returns (drift: seq<Drift>)
    ensures drift == DriftFor(c, smoke) + FloatingDrift(c, smoke, acceptable)
    ensures DistinctComponents(c) ==> NoRepeats(drift)
  {
    hide RequestDrift;
    hide EffectiveDrift;
    hide TargetDrift;
    hide PinDrift;
    hide ResolutionDrift;
    hide FloatingDrift;
    hide DistinctComponents;
    drift := PushRequestDrift(c, smoke, []);
    drift := PushEffectiveDrift(c, smoke, drift);
    drift := PushTargetDrift(c, smoke, drift);
    drift := PushPinDrift(c, smoke, drift);
    drift := PushResolutionDrift(c, smoke, drift);
    drift := PushFloatingDrift(c, smoke, acceptable, drift);
    if DistinctComponents(c) { DriftHasNoRepeats(c, smoke, acceptable); }
  }
}

/** Comparing a run with the pinned baseline: projections and the exact report of what changed. */
module Comparison {
  import opened Prelude
  import opened Json
  import opened Ordering
  import opened SmokeEvidence
  import opened Runner

  // ---- Projections ----

  /** Drops the event times of a diagnostic, at every depth. */
  function DiagnosticProjection(v: Json): Json {
    match v
    case JArray(items) => JArray(seq(|items|, i requires 0 <= i < |items| => DiagnosticProjection(items[i])))
    case JObject(fields) => JObject(map k | k in fields && k != "at_ms" :: DiagnosticProjection(fields[k]))
    case _ => v
  }

  /** Two diagnostics that differ at most in event times, at any depth. */
  predicate SameButTimes(a: Json, b: Json) {
    match (a, b)
    case (JArray(xs), JArray(ys)) => |xs| == |ys| && forall i :: 0 <= i < |xs| ==> SameButTimes(xs[i], ys[i])
    case (JObject(xs), JObject(ys)) =>
      && xs.Keys - {"at_ms"} == ys.Keys - {"at_ms"}
      && forall k :: k in xs && k in ys && k != "at_ms" ==> SameButTimes(xs[k], ys[k])
    case _ => a == b
  }

  lemma {:induction false} ProjectionIsIdempotent(v: Json)
    ensures DiagnosticProjection(DiagnosticProjection(v)) == DiagnosticProjection(v)
  {
    match v
    case JArray(items) =>
      forall i | 0 <= i < |items|
        ensures DiagnosticProjection(DiagnosticProjection(items[i])) == DiagnosticProjection(items[i])
      {
        ProjectionIsIdempotent(items[i]);
      }
    case JObject(fields) =>
      forall k | k in fields
        ensures DiagnosticProjection(DiagnosticProjection(fields[k])) == DiagnosticProjection(fields[k])
      {
        ProjectionIsIdempotent(fields[k]);
      }
    case _ =>
  }

  /** The projection forgets exactly the event times: it identifies what differs in nothing else, and only that. */
  lemma {:induction false} ProjectionForgetsExactlyTimes(a: Json, b: Json)
    ensures DiagnosticProjection(a) == DiagnosticProjection(b) <==> SameButTimes(a, b)
  {
    match (a, b)
    case (JArray(xs), JArray(ys)) =>
      if |xs| == |ys| {
        forall i | 0 <= i < |xs|
          ensures DiagnosticProjection(xs[i]) == DiagnosticProjection(ys[i]) <==> SameButTimes(xs[i], ys[i])
        {
          ProjectionForgetsExactlyTimes(xs[i], ys[i]);
        }
        ArraysAgree(xs, ys);
      } else {
        assert |DiagnosticProjection(a).items| != |DiagnosticProjection(b).items|;
      }
    case (JObject(xs), JObject(ys)) =>
      forall k | k in xs && k in ys
        ensures DiagnosticProjection(xs[k]) == DiagnosticProjection(ys[k]) <==> SameButTimes(xs[k], ys[k])
      {
        ProjectionForgetsExactlyTimes(xs[k], ys[k]);
      }
      ObjectsAgree(xs, ys);
    case _ =>
  }

  lemma ArraysAgree(xs: seq<Json>, ys: seq<Json>)
    requires |xs| == |ys|
    ensures DiagnosticProjection(JArray(xs)) == DiagnosticProjection(JArray(ys))
       <==> forall i :: 0 <= i < |xs| ==> DiagnosticProjection(xs[i]) == DiagnosticProjection(ys[i])
  {
    var px, py := DiagnosticProjection(JArray(xs)).items, DiagnosticProjection(JArray(ys)).items;
    assert forall i :: 0 <= i < |xs| ==> px[i] == DiagnosticProjection(xs[i]) && py[i] == DiagnosticProjection(ys[i]);
    if forall i :: 0 <= i < |xs| ==> DiagnosticProjection(xs[i]) == DiagnosticProjection(ys[i]) {
      assert px == py;
    }
  }

  lemma ObjectsAgree(xs: map<string, Json>, ys: map<string, Json>)
    ensures DiagnosticProjection(JObject(xs)) == DiagnosticProjection(JObject(ys))
       <==> && xs.Keys - {"at_ms"} == ys.Keys - {"at_ms"}
            && forall k :: k in xs && k in ys && k != "at_ms" ==>
                DiagnosticProjection(xs[k]) == DiagnosticProjection(ys[k])
  {
    var px, py := DiagnosticProjection(JObject(xs)).fields, DiagnosticProjection(JObject(ys)).fields;
    assert px.Keys == xs.Keys - {"at_ms"} && py.Keys == ys.Keys - {"at_ms"};
    if && xs.Keys - {"at_ms"} == ys.Keys - {"at_ms"}
       && forall k :: k in xs && k in ys && k != "at_ms" ==> DiagnosticProjection(xs[k]) == DiagnosticProjection(ys[k])
    {
      forall k | k in px ensures k in py && px[k] == py[k] {
        assert k in ys.Keys - {"at_ms"};
      }
      assert px == py;
    } else if px == py {
      forall k | k in xs && k in ys && k != "at_ms" ensures DiagnosticProjection(xs[k]) == DiagnosticProjection(ys[k]) {
        assert px[k] == py[k];
      }
    }
  }

  // ---- Baselines ----

  datatype CaseBaseline = CaseBaseline(
    caseId: string,
    outcome: Json,
    status: EvidenceStatus,
    executionMode: Json,
    provenance: Json,
    capability: Json,
    authentication: Json,
    phase: Json,
    terminal: Json,
    diagnostic: Json)

  datatype AggregateBaseline = AggregateBaseline(
    success: bool,
    cancelled: bool,
    budgetExhausted: bool,
    tokenObservationMissingCases: nat,
    costObservationMissingCases: nat)

  datatype ManifestIdentity = ManifestIdentity(schemaVersion: nat, sha256: string)

  datatype Baseline = Baseline(
    schemaVersion: nat,
    manifest: ManifestIdentity,
    aggregate: AggregateBaseline,
    cases: seq<CaseBaseline>)

  /** The parts of an aggregate artifact that comparison reads. */
  datatype Artifact = Artifact(
    schemaVersion: nat,
    candidateSha256: string,
    candidateBytes: nat,
    manifest: ManifestIdentity,
    aggregate: Aggregate)

  function OrNull(v: Option<Json>): Json {
    if v.Some? then v.value else JNull
  }

  function ObjectSubset(v: Json, names: set<string>): Json {
    JObject(map name | name in names :: OrNull(Get(v, name)))
  }

  function ExecutionWire(e: ExecutionState): string {
    match e
    case Completed => "completed"
    case NotRun => "not_run"
    case RunnerFailure => "runner_failure"
  }

  function DriftWire(d: Drift): string {
    match d
    case CapabilityModel => "capability.model"
    case CapabilityEffort => "capability.effort"
    case CapabilityMode => "capability.mode"
    case EffectiveModel => "capability.effective_model"
    case EffectiveEffort => "capability.effective_effort"
    case EffectiveMode => "capability.effective_mode"
    case ProvenanceExecutionMode => "provenance.execution_mode"
    case AuthenticationPath => "authentication.path"
    case AuthenticationCredentialEnv => "authentication.credential_env"
    case ProvenanceImage => "provenance.image"
    case ProvenanceConfigSha256 => "provenance.config_sha256"
    case ProvenanceAdapter => "provenance.adapter"
    case ProvenanceAgentCli => "provenance.agent_cli"
    case ProvenanceComponent(name) => "provenance.component." + name
    case ResolutionConfigSha256 => "resolution.config_sha256"
    case ResolutionAdapter => "resolution.adapter"
    case ResolutionAgentCli => "resolution.agent_cli"
    case ResolutionImage => "resolution.image"
    case OutcomeSmokeContract => "outcome.smoke_contract"
    case CapabilityModelCatalog => "capability.model_catalog"
    case OutcomeCancellation => "outcome.cancellation"
  }

  function ViolationWire(v: Violation): string {
    match v
    case CaseTokenCapExceeded => "case_token_cap_exceeded"
    case TotalCostOverflow => "total_cost_overflow"
    case CaseCostCapExceeded => "case_cost_cap_exceeded"
    case CaseCostObservationInvalid => "case_cost_observation_invalid"
    case TotalTimeoutExceeded => "total_timeout_exceeded"
  }

  function TextOrNull(v: Option<string>): Json {
    if v.Some? then JString(v.value) else JNull
  }

  function DriftTexts(row: CaseResult): Json {
    JArray(seq(|row.drift|, i requires 0 <= i < |row.drift| => JString(DriftWire(row.drift[i]))))
  }

  function ViolationTexts(row: CaseResult): Json {
    JArray(seq(|row.budgetViolations|, i requires 0 <= i < |row.budgetViolations| =>
                 JString(ViolationWire(row.budgetViolations[i]))))
  }

  const REQUEST_PARTS := {"model", "effort", "mode"}
  const ATTEMPT_PARTS := {"timeout_secs", "timed_out", "prompt_may_have_been_accepted"}
  const TURN_PARTS := {"prompt", "prompt_calls", "terminal_state", "stop_reason", "exact_pong", "text_bytes",
                       "tool_event_count", "permission_update_count"}

  /** One field of one section of the evidence. */
  function Part(row: CaseResult, section: string, name: string): Json {
    OrNull(Get(OrNull(Get(OrNull(row.smoke), section)), name))
  }

  function DiagnosticOf(row: CaseResult, name: string): Json {
    Part(row, "diagnostics", name)
  }

  function FailureOf(row: CaseResult): Json {
    OrNull(At(OrNull(row.smoke), ["diagnostics", "failure"]))
  }

  function Diagnosis(lifecycle: Json, dropped: Json, failure: Json, stderr: Json): Json {
    JObject(map["lifecycle" := lifecycle, "dropped_events" := dropped, "failure" := failure, "stderr_text" := stderr])
  }

  function Outcome(execution: string, met: bool, reason: Json, code: Json, drift: Json, violations: Json): Json {
    JObject(map["execution" := JString(execution), "expectation_met" := JBool(met), "not_run_reason" := reason,
                "runner_error_code" := code, "drift" := drift, "budget_violations" := violations])
  }

  function OutcomeOf(row: CaseResult): Json {
    Outcome(ExecutionWire(row.execution), row.expectationMet, TextOrNull(row.notRunReason),
            TextOrNull(row.runnerErrorCode), DriftTexts(row), ViolationTexts(row))
  }

  /** The given fields of a section, null where they are absent. */
  function Section(row: CaseResult, section: string, names: set<string>): Json {
    ObjectSubset(OrNull(Get(OrNull(row.smoke), section)), names)
  }

  function Capability(request: Json, effective: Json, catalog: Json): Json {
    JObject(map["request" := request, "effective" := effective, "model_catalog" := catalog])
  }

  function Terminal(attempt: Json, turn: Json, cleanup: Json): Json {
    JObject(map["attempt" := attempt, "turn" := turn, "cleanup" := cleanup])
  }

  function BaselineFromResult(row: CaseResult): CaseBaseline {
    CaseBaseline(
      row.caseId,
      OutcomeOf(row),
      row.actualStatus,
      Part(row, "target", "execution_mode"),
      Part(row, "target", "provenance"),
      Capability(Section(row, "request", REQUEST_PARTS), Part(row, "session", "effective_request"),
                 Part(row, "target", "model_catalog")),
      Part(row, "target", "authentication"),
      OrNull(Get(FailureOf(row), "failed_phase")),
      Terminal(Section(row, "attempt", ATTEMPT_PARTS), Section(row, "turn", TURN_PARTS),
               OrNull(Get(OrNull(row.smoke), "cleanup"))),
      Diagnosis(DiagnosticProjection(DiagnosticOf(row, "lifecycle")), DiagnosticOf(row, "dropped_events"),
                DiagnosticProjection(FailureOf(row)), DiagnosticOf(row, "stderr_text")))
  }

  function BaselineFromAggregate(a: Aggregate): AggregateBaseline {
    AggregateBaseline(a.success, a.cancelled, a.budget.exhausted, a.budget.tokenObservationMissingCases,
                      a.budget.costObservationMissingCases)
  }

  /** The projected pinned rows, in order. */
  function PinnedCases(rows: seq<CaseResult>): seq<CaseBaseline> {
    if rows == [] then []
    else
      PinnedCases(rows[..|rows| - 1])
      + if rows[|rows| - 1].lane == Pinned then [BaselineFromResult(rows[|rows| - 1])] else []
  }

  /** The baseline that a run itself projects to. */
  function ProjectionOf(current: Artifact): Baseline {
    Baseline(1, current.manifest, BaselineFromAggregate(current.aggregate), PinnedCases(current.aggregate.results))
  }

  // ---- Well-formed inputs ----

  predicate WellFormedArtifact(a: Artifact) {
    && a.schemaVersion == 1 && ValidDigest(a.candidateSha256) && a.candidateBytes != 0
    && a.manifest.schemaVersion == 1 && ValidDigest(a.manifest.sha256)
  }

  predicate WellFormedBaseline(b: Baseline) {
    b.schemaVersion == 1 && b.manifest.schemaVersion == 1 && ValidDigest(b.manifest.sha256)
  }

  ghost predicate DistinctIds(cases: seq<CaseBaseline>) {
    forall i, j :: 0 <= i < j < |cases| ==> cases[i].caseId != cases[j].caseId
  }

  ghost predicate Comparable(current: Artifact, baseline: Baseline) {
    && WellFormedArtifact(current) && WellFormedBaseline(baseline)
    && DistinctIds(baseline.cases) && DistinctIds(PinnedCases(current.aggregate.results))
  }

  function ById(cases: seq<CaseBaseline>): map<string, CaseBaseline> {
    if cases == [] then map[]
    else ById(cases[..|cases| - 1])[cases[|cases| - 1].caseId := cases[|cases| - 1]]
  }

  // ---- The report ----

  datatype Change = Change(caseId: string, dimensions: seq<string>)
  datatype Report = Report(equal: bool, changes: seq<Change>)

  function Dimension(changed: bool, name: string): seq<string> {
    if changed then [name] else []
  }

  function CaseDimensions(before: CaseBaseline, after: CaseBaseline): seq<string> {
    ResultDimensions(before, after) + TargetDimensions(before, after) + TurnDimensions(before, after)
  }

  function ResultDimensions(before: CaseBaseline, after: CaseBaseline): seq<string> {
    Dimension(before.outcome != after.outcome, "outcome")
    + Dimension(before.status != after.status, "status")
    + Dimension(before.executionMode != after.executionMode, "execution_mode")
  }

  function TargetDimensions(before: CaseBaseline, after: CaseBaseline): seq<string> {
    Dimension(before.provenance != after.provenance, "provenance")
    + Dimension(before.capability != after.capability, "capability")
    + Dimension(before.authentication != after.authentication, "authentication")
  }

  function TurnDimensions(before: CaseBaseline, after: CaseBaseline): seq<string> {
    Dimension(before.phase != after.phase, "phase")
    + Dimension(before.terminal != after.terminal, "terminal")
    + Dimension(before.diagnostic != after.diagnostic, "diagnostic")
  }

  /** What changed for one case id; nothing exactly when both sides agree on it. */
  function DimensionsAt(before: map<string, CaseBaseline>, after: map<string, CaseBaseline>, id: string): seq<string> {
    if id !in before && id !in after then []
    else if id !in before then ["case_added"]
    else if id !in after then ["case_missing"]
    else CaseDimensions(before[id], after[id])
  }

  function AggregateDimensions(before: AggregateBaseline, after: AggregateBaseline): seq<string> {
    Dimension(before.success != after.success, "success")
    + Dimension(before.cancelled != after.cancelled, "cancelled")
    + Dimension(before.budgetExhausted != after.budgetExhausted
                || before.tokenObservationMissingCases != after.tokenObservationMissingCases
                || before.costObservationMissingCases != after.costObservationMissingCases, "budget")
  }

  function HeaderChanges(current: Artifact, baseline: Baseline): seq<Change> {
    (if baseline.manifest != current.manifest then [Change("__manifest__", ["manifest"])] else [])
    + var dimensions := AggregateDimensions(baseline.aggregate, BaselineFromAggregate(current.aggregate));
      if dimensions != [] then [Change("__aggregate__", dimensions)] else []
  }

  /** Both sides say the same: manifest identity, aggregate projection and the map of projected pinned cases. */
  ghost predicate SameEvidence(current: Artifact, baseline: Baseline) {
    && baseline.manifest == current.manifest
    && baseline.aggregate == BaselineFromAggregate(current.aggregate)
    && ById(baseline.cases) == ById(PinnedCases(current.aggregate.results))
  }

  /** Exactly the case ids that differ are listed, once each and in order, with exactly the dimensions that differ. */
  ghost predicate ExactCaseChanges(changes: seq<Change>, before: map<string, CaseBaseline>, after: map<string,
                                   CaseBaseline>,
                                   ids: set<string>)
  {
    && (forall i :: 0 <= i < |changes| ==>
          changes[i].caseId in ids && changes[i].dimensions == DimensionsAt(before, after, changes[i].caseId) != [])
    && (forall i, j :: 0 <= i < j < |changes| ==>
          changes[i].caseId != changes[j].caseId && TextAtMost(changes[i].caseId, changes[j].caseId))
    && (forall id :: id in ids && DimensionsAt(before, after, id) != [] ==>
          exists i :: 0 <= i < |changes| && changes[i].caseId == id)
  }

  method IndexCases(cases: seq<CaseBaseline>) returns (m: Option<map<string, CaseBaseline>>)
    ensures m.Some? <==> DistinctIds(cases)
    ensures m.Some? ==> m.value == ById(cases)
  {
    var found: map<string, CaseBaseline> := map[];
    for i := 0 to |cases|
      invariant DistinctIds(cases[..i]) && found == ById(cases[..i])
      invariant forall id :: id in found <==> exists j :: 0 <= j < i && cases[j].caseId == id
    {
      if cases[i].caseId in found {
        return None;
      }
      assert cases[..i + 1][..i] == cases[..i];
      found := found[cases[i].caseId := cases[i]];
    }
    assert cases[..|cases|] == cases;
    m := Some(found);
  }

  method IndexPinned(rows: seq<CaseResult>) returns (m: Option<map<string, CaseBaseline>>)
    ensures m.Some? <==> DistinctIds(PinnedCases(rows))
    ensures m.Some? ==> m.value == ById(PinnedCases(rows))
  {
    hide BaselineFromResult;
    var projected: seq<CaseBaseline> := [];
    for i := 0 to |rows|
      invariant projected == PinnedCases(rows[..i])
    {
      assert rows[..i + 1][..i] == rows[..i];
      if rows[i].lane == Pinned {
        projected := projected + [BaselineFromResult(rows[i])];
      }
    }
    assert rows[..|rows|] == rows;
    m := IndexCases(projected);
  }

  lemma OneMoreId(changes: seq<Change>, before: map<string, CaseBaseline>, after: map<string, CaseBaseline>,
                  ids: set<string>,
                  id: string)
    requires ExactCaseChanges(changes, before, after, ids) && id !in ids
    requires forall earlier :: earlier in ids ==> TextAtMost(earlier, id)
    ensures var dimensions := DimensionsAt(before, after, id);
            ExactCaseChanges(if dimensions != [] then changes + [Change(id, dimensions)] else changes, before, after,
                             ids + {id})
  {
    hide DimensionsAt;
    hide TextAtMost;
    var dimensions := DimensionsAt(before, after, id);
    if dimensions != [] {
      var more := changes + [Change(id, dimensions)];
      assert more[|changes|].caseId == id;
      forall other | other in ids + {id} && DimensionsAt(before, after, other) != []
        ensures exists i :: 0 <= i < |more| && more[i].caseId == other
      {
        if other != id {
          var i :| 0 <= i < |changes| && changes[i].caseId == other;
          assert more[i].caseId == other;
        }
      }
    }
  }

  /** Compares each case id of either side, in text order. */
  method CompareCases(before: map<string, CaseBaseline>, after: map<string,
                      CaseBaseline>) returns (changes: seq<Change>)
    ensures ExactCaseChanges(changes, before, after, before.Keys + after.Keys)
  {
    hide *;
    changes := [];
    var ids := before.Keys + after.Keys;
    ghost var all, done := ids, {};
    NoIdsYet(before, after);
    NoneVisited(all);
    while ids != {}
      invariant Visiting(all, done, ids)
      invariant ExactCaseChanges(changes, before, after, done)
      decreases |ids|
    {
      var id := LeastOf(ids);
      VisitLeast(all, done, ids, id);
      OneMoreId(changes, before, after, done, id);
      var dimensions := DimensionsAt(before, after, id);
      if dimensions != [] {
        changes := changes + [Change(id, dimensions)];
      }
      ids, done := ids - {id}, done + {id};
    }
    AllVisited(all, done);
  }

  lemma NoIdsYet(before: map<string, CaseBaseline>, after: map<string, CaseBaseline>)
    ensures ExactCaseChanges([], before, after, {})
  {
  }

  lemma HeaderIsExact(current: Artifact, baseline: Baseline)
    ensures HeaderChanges(current, baseline) == []
       <==> baseline.manifest == current.manifest && baseline.aggregate == BaselineFromAggregate(current.aggregate)
  {
  }

  lemma NoCaseChanges(changes: seq<Change>, before: seq<CaseBaseline>, after: seq<CaseBaseline>)
    requires ExactCaseChanges(changes, ById(before), ById(after), ById(before).Keys + ById(after).Keys)
    ensures changes == [] <==> ById(before) == ById(after)
  {
    hide DimensionsAt;
    NoChangesMeansSameCases(before, after);
    if changes != [] {
      assert changes[0].caseId in ById(before).Keys + ById(after).Keys;
    }
  }

  lemma NoDimensionMeansEqual(before: CaseBaseline, after: CaseBaseline)
    requires before.caseId == after.caseId
    ensures CaseDimensions(before, after) == [] <==> before == after
  {
  }

  lemma {:induction false} ByIdKeys(cases: seq<CaseBaseline>)
    ensures forall id :: id in ById(cases) ==> ById(cases)[id].caseId == id
  {
    if cases != [] {
      ByIdKeys(cases[..|cases| - 1]);
    }
  }

  lemma NoChangesMeansSameCases(before: seq<CaseBaseline>, after: seq<CaseBaseline>)
    ensures (forall id :: id in ById(before).Keys + ById(after).Keys ==>
               DimensionsAt(ById(before), ById(after), id) == [])
       <==> ById(before) == ById(after)
  {
    hide CaseDimensions;
    ByIdKeys(before);
    ByIdKeys(after);
    var b, a := ById(before), ById(after);
    if forall id :: id in b.Keys + a.Keys ==> DimensionsAt(b, a, id) == [] {
      forall id | id in b.Keys + a.Keys ensures id in b && id in a && b[id] == a[id] {
        assert DimensionsAt(b, a, id) == [];
        NoDimensionMeansEqual(b[id], a[id]);
      }
      assert b == a;
    }
    if b == a {
      forall id | id in b.Keys + a.Keys ensures DimensionsAt(b, a, id) == [] {
        NoDimensionMeansEqual(b[id], a[id]);
      }
    }
  }

  /**
   * Refuses exactly the malformed or duplicated inputs; otherwise reports equality exactly when both sides
   * say the same, and lists exactly the case ids that differ with exactly their differing dimensions.
   */
  method CompareArtifacts(current: Artifact, baseline: Baseline) returns (r: Option<Report>)
    ensures r.Some? <==> Comparable(current, baseline)
    ensures r.Some? ==> (r.value.equal <==> SameEvidence(current, baseline))
    ensures r.Some? ==>
              var header := HeaderChanges(current, baseline);
              && header <= r.value.changes
              && ExactCaseChanges(r.value.changes[|header|..], ById(baseline.cases),
                                  ById(PinnedCases(current.aggregate.results)),
                                  ById(baseline.cases).Keys + ById(PinnedCases(current.aggregate.results)).Keys)
  {
    hide CaseDimensions;
    hide BaselineFromResult;
    hide ValidDigest;
    if !WellFormedArtifact(current) || !WellFormedBaseline(baseline) {
      return None;
    }
    var changes := [];
    if baseline.manifest != current.manifest {
      changes := changes + [Change("__manifest__", ["manifest"])];
    }
    var dimensions := AggregateDimensions(baseline.aggregate, BaselineFromAggregate(current.aggregate));
    if dimensions != [] {
      changes := changes + [Change("__aggregate__", dimensions)];
    }
    var before := IndexCases(baseline.cases);
    if before.None? {
      return None;
    }
    var after := IndexPinned(current.aggregate.results);
    if after.None? {
      return None;
    }
    var caseChanges := CompareCases(before.value, after.value);
    NoCaseChanges(caseChanges, baseline.cases, PinnedCases(current.aggregate.results));
    assert changes == HeaderChanges(current, baseline);
    HeaderIsExact(current, baseline);
    hide HeaderChanges;
    assert (changes + caseChanges)[|changes|..] == caseChanges;
    r := Some(Report(changes + caseChanges == [], changes + caseChanges));
  }

  // ---- Reruns ----

  /** The diagnostics of two rows differ at most in event times. */
  ghost predicate DiagnosedAlike(a: CaseResult, b: CaseResult) {
    && SameButTimes(DiagnosticOf(a, "lifecycle"), DiagnosticOf(b, "lifecycle"))
    && SameButTimes(FailureOf(a), FailureOf(b))
    && DiagnosticOf(a, "dropped_events") == DiagnosticOf(b, "dropped_events")
    && DiagnosticOf(a, "stderr_text") == DiagnosticOf(b, "stderr_text")
  }

  lemma DiagnosisHasParts(l: Json, d: Json, f: Json, s: Json, l': Json, d': Json, f': Json, s': Json)
    ensures Diagnosis(l, d, f, s) == Diagnosis(l', d', f', s') <==> l == l' && d == d' && f == f' && s == s'
  {
    var x, y := Diagnosis(l, d, f, s).fields, Diagnosis(l', d', f', s').fields;
    assert x["lifecycle"] == l && y["lifecycle"] == l' && x["failure"] == f && y["failure"] == f';
    assert x["dropped_events"] == d && y["dropped_events"] == d' && x["stderr_text"] == s && y["stderr_text"] == s';
  }

  lemma DiagnosticIsListed(before: CaseBaseline, after: CaseBaseline)
    ensures "diagnostic" in CaseDimensions(before, after) <==> before.diagnostic != after.diagnostic
  {
    assert "diagnostic"[0] == 'd' && "outcome"[0] == 'o' && "status"[0] == 's' && "execution_mode"[0] == 'e';
    assert "provenance"[0] == 'p' && "capability"[0] == 'c' && "authentication"[0] == 'a' && "phase"[0] == 'p';
    assert "terminal"[0] == 't';
  }

  /** The diagnostic dimension is reported exactly when the diagnostics differ in more than event times. */
  lemma DiagnosticChangesExactly(before: CaseResult, after: CaseResult)
    ensures "diagnostic" in CaseDimensions(BaselineFromResult(before), BaselineFromResult(after))
       <==> !DiagnosedAlike(before, after)
  {
    hide CaseDimensions;
    hide OutcomeOf;
    hide Part;
    hide Section;
    hide Capability;
    hide Terminal;
    hide DiagnosticProjection;
    hide SameButTimes;
    hide DiagnosticOf;
    hide FailureOf;
    hide Diagnosis;
    DiagnosticIsListed(BaselineFromResult(before), BaselineFromResult(after));
    var l, l' := DiagnosticOf(before, "lifecycle"), DiagnosticOf(after, "lifecycle");
    var d, d' := DiagnosticOf(before, "dropped_events"), DiagnosticOf(after, "dropped_events");
    var f, f' := FailureOf(before), FailureOf(after);
    var e, e' := DiagnosticOf(before, "stderr_text"), DiagnosticOf(after, "stderr_text");
    ProjectionForgetsExactlyTimes(l, l');
    ProjectionForgetsExactlyTimes(f, f');
    DiagnosisHasParts(DiagnosticProjection(l), d, DiagnosticProjection(f), e,
                      DiagnosticProjection(l'), d', DiagnosticProjection(f'), e');
  }

  /** Two rows agree in the fields of a section. */
  ghost predicate PartsAlike(a: CaseResult, b: CaseResult, section: string, names: set<string>) {
    forall name :: name in names ==> Part(a, section, name) == Part(b, section, name)
  }

  /** The rows report the same outcome: how it ran, and the texts of its drift and violations. */
  ghost predicate OutcomesAlike(a: CaseResult, b: CaseResult) {
    && a.execution == b.execution && a.expectationMet == b.expectationMet
    && a.notRunReason == b.notRunReason && a.runnerErrorCode == b.runnerErrorCode
    && DriftTexts(a) == DriftTexts(b) && ViolationTexts(a) == ViolationTexts(b)
  }

  /** All that a comparison reads of two rows of one case is the same; everything else may differ. */
  ghost predicate ReadsAlike(a: CaseResult, b: CaseResult) {
    && OutcomesAlike(a, b) && a.actualStatus == b.actualStatus
    && PartsAlike(a, b, "request", REQUEST_PARTS)
    && PartsAlike(a, b, "session", {"effective_request"})
    && PartsAlike(a, b, "target", {"execution_mode", "provenance", "model_catalog", "authentication"})
    && PartsAlike(a, b, "attempt", ATTEMPT_PARTS)
    && PartsAlike(a, b, "turn", TURN_PARTS)
    && OrNull(Get(OrNull(a.smoke), "cleanup")) == OrNull(Get(OrNull(b.smoke), "cleanup"))
    && OrNull(Get(FailureOf(a), "failed_phase")) == OrNull(Get(FailureOf(b), "failed_phase"))
    && DiagnosedAlike(a, b)
  }

  lemma OutcomeParts(e: string, m: bool, r: Json, c: Json, d: Json, v: Json)
    ensures var x := Outcome(e, m, r, c, d, v);
            && x.JObject?
            && "execution" in x.fields && x.fields["execution"] == JString(e)
            && "expectation_met" in x.fields && x.fields["expectation_met"] == JBool(m)
            && "not_run_reason" in x.fields && x.fields["not_run_reason"] == r
            && "runner_error_code" in x.fields && x.fields["runner_error_code"] == c
            && "drift" in x.fields && x.fields["drift"] == d
            && "budget_violations" in x.fields && x.fields["budget_violations"] == v
  {
  }

  lemma OutcomeHasParts(e: string, m: bool, r: Json, c: Json, d: Json, v: Json, e': string, m': bool, r': Json,
                        c': Json, d': Json, v': Json)
    ensures Outcome(e, m, r, c, d, v) == Outcome(e', m', r', c', d', v')
       <==> e == e' && m == m' && r == r' && c == c' && d == d' && v == v'
  {
    hide Outcome;
    OutcomeParts(e, m, r, c, d, v);
    OutcomeParts(e', m', r', c', d', v');
  }

  lemma ExecutionsDiffer(a: ExecutionState, b: ExecutionState)
    ensures ExecutionWire(a) == ExecutionWire(b) <==> a == b
  {
    assert "completed"[0] == 'c' && "not_run"[0] == 'n' && "runner_failure"[0] == 'r';
  }

  lemma OutcomesExactly(a: CaseResult, b: CaseResult)
    ensures OutcomeOf(a) == OutcomeOf(b) <==> OutcomesAlike(a, b)
  {
    ExecutionsDiffer(a.execution, b.execution);
    hide ExecutionWire;
    hide Outcome;
    hide DriftTexts;
    hide ViolationTexts;
    OutcomeHasParts(ExecutionWire(a.execution), a.expectationMet, TextOrNull(a.notRunReason),
                    TextOrNull(a.runnerErrorCode), DriftTexts(a), ViolationTexts(a),
                    ExecutionWire(b.execution), b.expectationMet, TextOrNull(b.notRunReason),
                    TextOrNull(b.runnerErrorCode), DriftTexts(b), ViolationTexts(b));
  }

  lemma SectionsExactly(a: CaseResult, b: CaseResult, section: string, names: set<string>)
    ensures Section(a, section, names) == Section(b, section, names) <==> PartsAlike(a, b, section, names)
  {
    var x, y := Section(a, section, names).fields, Section(b, section, names).fields;
    assert forall name :: name in names ==> x[name] == Part(a, section, name) && y[name] == Part(b, section, name);
    if PartsAlike(a, b, section, names) {
      assert x == y;
    }
  }

  lemma CapabilityParts(r: Json, e: Json, c: Json)
    ensures var x, y := Capability(r, e, c), Terminal(r, e, c);
            && x.JObject? && "request" in x.fields && x.fields["request"] == r
            && "effective" in x.fields && x.fields["effective"] == e
            && "model_catalog" in x.fields && x.fields["model_catalog"] == c
            && y.JObject? && "attempt" in y.fields && y.fields["attempt"] == r
            && "turn" in y.fields && y.fields["turn"] == e && "cleanup" in y.fields && y.fields["cleanup"] == c
  {
  }

  lemma CapabilityHasParts(r: Json, e: Json, c: Json, r': Json, e': Json, c': Json)
    ensures Capability(r, e, c) == Capability(r', e', c') <==> r == r' && e == e' && c == c'
    ensures Terminal(r, e, c) == Terminal(r', e', c') <==> r == r' && e == e' && c == c'
  {
    hide Capability;
    hide Terminal;
    CapabilityParts(r, e, c);
    CapabilityParts(r', e', c');
  }

  lemma TargetParts(a: CaseResult, b: CaseResult)
    ensures PartsAlike(a, b, "target", {"execution_mode", "provenance", "model_catalog", "authentication"})
       <==> && Part(a, "target", "execution_mode") == Part(b, "target", "execution_mode")
            && Part(a, "target", "provenance") == Part(b, "target", "provenance")
            && Part(a, "target", "model_catalog") == Part(b, "target", "model_catalog")
            && Part(a, "target", "authentication") == Part(b, "target", "authentication")
    ensures PartsAlike(a, b, "session", {"effective_request"})
       <==> Part(a, "session", "effective_request") == Part(b, "session", "effective_request")
  {
    hide Part;
  }

  /** Two rows of one case project alike exactly when all that a comparison reads of them is the same. */
  lemma ComparisonReadsExactly(a: CaseResult, b: CaseResult)
    requires a.caseId == b.caseId
    ensures BaselineFromResult(a) == BaselineFromResult(b) <==> ReadsAlike(a, b)
  {
    OutcomesExactly(a, b);
    SectionsExactly(a, b, "request", REQUEST_PARTS);
    SectionsExactly(a, b, "attempt", ATTEMPT_PARTS);
    SectionsExactly(a, b, "turn", TURN_PARTS);
    CapabilityHasParts(Section(a, "request", REQUEST_PARTS), Part(a, "session", "effective_request"),
                       Part(a, "target", "model_catalog"), Section(b, "request", REQUEST_PARTS),
                       Part(b, "session", "effective_request"), Part(b, "target", "model_catalog"));
    CapabilityHasParts(Section(a, "attempt", ATTEMPT_PARTS), Section(a, "turn", TURN_PARTS),
                       OrNull(Get(OrNull(a.smoke), "cleanup")), Section(b, "attempt", ATTEMPT_PARTS),
                       Section(b, "turn", TURN_PARTS), OrNull(Get(OrNull(b.smoke), "cleanup")));
    TargetParts(a, b);
    DiagnosticChangesExactly(a, b);
    DiagnosticIsListed(BaselineFromResult(a), BaselineFromResult(b));
    hide CaseDimensions;
    hide OutcomeOf;
    hide OutcomesAlike;
    hide PartsAlike;
    hide Part;
    hide Section;
    hide Capability;
    hide Terminal;
    hide Diagnosis;
    hide DiagnosedAlike;
    hide DiagnosticOf;
    hide FailureOf;
    hide Get;
  }

  /** Two runs of one manifest with the same cases in the same order, and the same totals. */
  ghost predicate SameCases(current: Artifact, previous: Artifact) {
    && current.manifest == previous.manifest
    && BaselineFromAggregate(current.aggregate) == BaselineFromAggregate(previous.aggregate)
    && SameRows(current.aggregate.results, previous.aggregate.results)
  }

  ghost predicate SameRows(rows: seq<CaseResult>, again: seq<CaseResult>) {
    && |rows| == |again|
    && forall i :: 0 <= i < |rows| ==> rows[i].caseId == again[i].caseId && rows[i].lane == again[i].lane
  }

  /** Every pinned row reads like the one of the run before. */
  ghost predicate PinnedReadAlike(rows: seq<CaseResult>, again: seq<CaseResult>)
    requires |rows| == |again|
  {
    forall i :: 0 <= i < |rows| && rows[i].lane == Pinned ==> ReadsAlike(rows[i], again[i])
  }

  lemma AppendExactly(p: seq<CaseBaseline>, q: seq<CaseBaseline>, x: CaseBaseline, y: CaseBaseline)
    requires |p| == |q|
    ensures p + [x] == q + [y] <==> p == q && x == y
  {
    if p + [x] == q + [y] {
      assert p == (p + [x])[..|p|] && q == (q + [y])[..|q|];
      assert x == (p + [x])[|p|] && y == (q + [y])[|q|];
    }
  }

  lemma LastReadsAlike(rows: seq<CaseResult>, again: seq<CaseResult>)
    requires |rows| == |again| != 0
    ensures var last := |rows| - 1;
            PinnedReadAlike(rows, again) <==>
              && PinnedReadAlike(rows[..last], again[..last])
              && (rows[last].lane == Pinned ==> ReadsAlike(rows[last], again[last]))
  {
    hide ReadsAlike;
    var last := |rows| - 1;
    if PinnedReadAlike(rows[..last], again[..last]) {
      forall i | 0 <= i < last && rows[i].lane == Pinned ensures ReadsAlike(rows[i], again[i]) {
        assert ReadsAlike(rows[..last][i], again[..last][i]);
      }
    }
  }

  lemma {:induction false} SamePinnedIds(rows: seq<CaseResult>, again: seq<CaseResult>)
    requires SameRows(rows, again)
    ensures |PinnedCases(rows)| == |PinnedCases(again)|
    ensures forall i :: 0 <= i < |PinnedCases(rows)| ==> PinnedCases(rows)[i].caseId == PinnedCases(again)[i].caseId
  {
    if rows != [] {
      var last := |rows| - 1;
      SamePinnedIds(rows[..last], again[..last]);
      ProjectionKeepsId(rows[last]);
      ProjectionKeepsId(again[last]);
      hide BaselineFromResult;
    }
  }

  lemma PinnedUnfolds(rows: seq<CaseResult>)
    requires rows != []
    ensures var last := |rows| - 1;
            PinnedCases(rows) == if rows[last].lane == Pinned
                                 then PinnedCases(rows[..last]) + [BaselineFromResult(rows[last])]
                                 else PinnedCases(rows[..last])
  {
    hide BaselineFromResult;
  }

  lemma RowsUnfold(rows: seq<CaseResult>, again: seq<CaseResult>)
    requires SameRows(rows, again)
    ensures |rows| == |again| && (rows == [] ==> PinnedReadAlike(rows, again))
    ensures rows != [] ==>
              var last := |rows| - 1;
              && SameRows(rows[..last], again[..last])
              && rows[last].caseId == again[last].caseId && rows[last].lane == again[last].lane
  {
    hide ReadsAlike;
  }

  lemma {:induction false} PinnedExactly(rows: seq<CaseResult>, again: seq<CaseResult>)
    requires SameRows(rows, again)
    ensures |rows| == |again|
    ensures PinnedCases(rows) == PinnedCases(again) <==> PinnedReadAlike(rows, again)
  {
    RowsUnfold(rows, again);
    hide *;
    if rows == [] {
      assert again == [];
    } else {
      var last := |rows| - 1;
      PinnedExactly(rows[..last], again[..last]);
      SamePinnedIds(rows[..last], again[..last]);
      LastReadsAlike(rows, again);
      ComparisonReadsExactly(rows[last], again[last]);
      PinnedUnfolds(rows);
      PinnedUnfolds(again);
      AppendExactly(PinnedCases(rows[..last]), PinnedCases(again[..last]), BaselineFromResult(rows[last]),
                    BaselineFromResult(again[last]));
    }
  }

  lemma ProjectionKeepsId(row: CaseResult)
    ensures BaselineFromResult(row).caseId == row.caseId
  {
  }

  lemma {:induction false} ByIdHolds(a: seq<CaseBaseline>)
    requires DistinctIds(a)
    ensures ById(a).Keys == set i | 0 <= i < |a| :: a[i].caseId
    ensures forall i :: 0 <= i < |a| ==> a[i].caseId in ById(a) && ById(a)[a[i].caseId] == a[i]
  {
    if a != [] {
      var last := |a| - 1;
      var before := ById(a[..last]);
      ByIdHolds(a[..last]);
      forall i | 0 <= i < last ensures a[i].caseId in before && before[a[i].caseId] == a[i] {
        assert a[..last][i] == a[i];
      }
    }
  }

  lemma ByIdExactly(a: seq<CaseBaseline>, b: seq<CaseBaseline>)
    requires |a| == |b| && DistinctIds(a) && forall i :: 0 <= i < |a| ==> a[i].caseId == b[i].caseId
    ensures ById(a) == ById(b) <==> a == b
  {
    if ById(a) == ById(b) {
      forall i | 0 <= i < |a| ensures a[i] == b[i] {
        ByIdAt(a, i);
        ByIdAt(b, i);
      }
    }
  }

  lemma ByIdAt(a: seq<CaseBaseline>, i: nat)
    requires DistinctIds(a) && i < |a|
    ensures a[i].caseId in ById(a) && ById(a)[a[i].caseId] == a[i]
  {
    ByIdHolds(a);
    hide ById;
  }

  /**
   * A run of the same cases compares equal to the projection of the run before exactly when every pinned row reads
   * like the row before; a run compares equal to its own projection.
   */
  lemma RerunsCompareExactly(current: Artifact, previous: Artifact)
    requires WellFormedArtifact(current) && DistinctIds(PinnedCases(current.aggregate.results))
    requires SameCases(current, previous)
    ensures Comparable(current, ProjectionOf(previous))
    ensures SameEvidence(current, ProjectionOf(previous))
       <==> PinnedReadAlike(current.aggregate.results, previous.aggregate.results)
    ensures SameEvidence(current, ProjectionOf(current))
  {
    hide PinnedCases;
    hide ById;
    hide ValidDigest;
    hide ReadsAlike;
    hide SameRows;
    var rows, again := current.aggregate.results, previous.aggregate.results;
    PinnedExactly(rows, again);
    SamePinnedIds(rows, again);
    ByIdExactly(PinnedCases(rows), PinnedCases(again));
  }

  /** Only event times apart: everything else of the evidence is the same, so the rows read alike. */
  lemma EventTimesDoNotShow(a: CaseResult, b: CaseResult)
    requires b == a.(smoke := b.smoke) && DiagnosedAlike(a, b)
    requires forall name :: name != "diagnostics" ==> Get(OrNull(a.smoke), name) == Get(OrNull(b.smoke), name)
    requires Get(FailureOf(a), "failed_phase") == Get(FailureOf(b), "failed_phase")
    ensures ReadsAlike(a, b)
  {
    assert "request"[0] == 'r' && "session"[0] == 's' && "target"[0] == 't' && "attempt"[0] == 'a' && "turn"[0] == 't';
    assert "diagnostics"[0] == 'd' && "cleanup"[0] == 'c';
    SameSection(a, b, "request", REQUEST_PARTS);
    SameSection(a, b, "session", {"effective_request"});
    SameSection(a, b, "target", {"execution_mode", "provenance", "model_catalog", "authentication"});
    SameSection(a, b, "attempt", ATTEMPT_PARTS);
    SameSection(a, b, "turn", TURN_PARTS);
    hide DiagnosedAlike;
    hide PartsAlike;
    hide DriftTexts;
    hide ViolationTexts;
    hide FailureOf;
    hide Get;
  }

  lemma SameSection(a: CaseResult, b: CaseResult, section: string, names: set<string>)
    ensures Get(OrNull(a.smoke), section) == Get(OrNull(b.smoke), section) ==> PartsAlike(a, b, section, names)
  {
  }
}

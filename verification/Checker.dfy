/** The independent checker of floating aggregates, and why it always agrees with the runner. */
module Checker {
  import opened Prelude
  import opened Json
  import opened SmokeEvidence
  import opened DriftScan
  import opened Runner
  import opened RunnerSafety

  /** The verdict of a row, recomputed from its recorded evidence alone. */
  function RecomputeCandidateOutcome(row: CaseResult, acceptable: string -> bool): CandidateOutcome {
    if row.execution != Completed || row.drift != [] || row.budgetViolations != [] || row.smoke.None?
        then CandidateUnknown
    else
      var smoke := row.smoke.value;
      var model := TextAt(smoke, ["request", "model"]);
      var effort := TextAt(smoke, ["request", "effort"]);
      var mode := TextAt(smoke, ["request", "mode"]);
      if row.actualStatus == Fail && AsBool(Get(smoke, "success")) == Some(false) then
        if model.Some? && FloatingFailureContract(smoke, model.value, effort, mode, acceptable) then CandidateFail
        else CandidateUnknown
      else if row.actualStatus == Pass then
        if model.Some? && row.resolved.Some? && ResolvedMatches(smoke, row.resolved.value)
           && FloatingSuccessContract(smoke)
           && ValidAvailableCatalog(smoke, model.value, effort, mode, acceptable)
        then CandidatePass else CandidateUnknown
      else CandidateUnknown
  }

  predicate ResolvedMatches(smoke: Json, resolved: ResolvedBinding) {
    var agent := TextAt(smoke, ["request", "agent"]);
    && TextAt(smoke, ["request", "config_sha256"]) == Some(resolved.configSha256)
    && agent.Some?
    && ProvenancePackageMatches(smoke, agent.value, "adapter", resolved.adapter)
    && ProvenancePackageMatches(smoke, agent.value, "agent-cli", resolved.agentCli)
    && (resolved.imageDigest.Some? ==>
          ProvenanceField(smoke, agent.value, "image", "immutable_id") == resolved.imageDigest)
  }

  datatype ResolutionRecord = ResolutionRecord(
    resolutionId: string, artifactSha256: string, recipeSha256: string, productionManifestSha256: string)

  /** What an artifact says of itself beside its rows. */
  datatype Header = Header(
    schemaVersion: nat,
    candidateSha256: string,
    candidateBytes: nat,
    manifestSchemaVersion: nat,
    manifestSha256: string,
    selectsAll: bool,
    selectedLane: Option<Lane>,
    selectedCases: seq<string>)

  /** The rules for stable ids and for resolved bindings, which look at one value each. */
  datatype ShapeRules = ShapeRules(stableId: string -> bool, binding: ResolvedBinding -> bool)

  predicate ValidHeader(h: Header, resolution: ResolutionRecord, rules: ShapeRules) {
    && rules.stableId(resolution.resolutionId)
    && ValidDigest(resolution.artifactSha256) && ValidDigest(resolution.recipeSha256)
    && ValidDigest(resolution.productionManifestSha256)
    && h.schemaVersion == 1 && ValidDigest(h.candidateSha256) && h.candidateBytes != 0
    && h.manifestSchemaVersion == 1 && ValidDigest(h.manifestSha256)
    && h.selectsAll && h.selectedLane.None? && h.selectedCases == []
  }

  predicate ResolvedRow(row: CaseResult, resolution: ResolutionRecord, acceptable: string -> bool) {
    && row.lane == FloatingCurrent
    && row.baselineCaseId.Some? && row.candidateOutcome.Some? && row.resolved.Some?
    && row.resolved.value.resolutionId == resolution.resolutionId
    && row.resolved.value.recipeSha256 == resolution.recipeSha256
    && row.candidateOutcome == Some(RecomputeCandidateOutcome(row, acceptable))
  }

  predicate BoundRow(row: CaseResult, rules: ShapeRules) {
    row.resolved.Some? && rules.binding(row.resolved.value)
  }

  /** What the checker demands of the rows and totals of an aggregate whose every case floats. */
  predicate ValidFloatingRows(a: Aggregate, resolution: ResolutionRecord, acceptable: string -> bool) {
    && a.results != []
    && (forall i :: 0 <= i < |a.results| ==> ResolvedRow(a.results[i], resolution, acceptable))
    && a.floatingSummary == SummaryOf(a.results)
    && (forall i, j :: 0 <= i < j < |a.results| ==> a.results[i].caseId != a.results[j].caseId)
    && (forall i, j :: 0 <= i < j < |a.results| ==> a.results[i].baselineCaseId != a.results[j].baselineCaseId)
    && (a.success <==>
          && (forall i :: 0 <= i < |a.results| ==> a.results[i].candidateOutcome == Some(CandidatePass))
          && !a.cancelled && !a.budget.exhausted)
  }

  /** Everything the checker demands of a floating artifact. */
  predicate ValidFloatingAggregate(h: Header, a: Aggregate, resolution: ResolutionRecord, rules: ShapeRules,
                                   acceptable: string -> bool)
  {
    && ValidHeader(h, resolution, rules)
    && ValidFloatingRows(a, resolution, acceptable)
    && forall i :: 0 <= i < |a.results| ==> BoundRow(a.results[i], rules)
  }

  // ---- Agreement on one row ----

  /** Evidence without drift states the case's own request, and its resolution if it succeeded. */
  lemma NoDriftMeans(c: Case, smoke: Json)
    requires DriftFor(c, smoke) == []
    ensures TextAt(smoke, ["request", "model"]) == Some(c.model)
    ensures TextAt(smoke, ["request", "effort"]) == c.effort
    ensures TextAt(smoke, ["request", "mode"]) == c.mode
    ensures Succeeded(smoke) && c.resolved.Some? && TextAt(smoke, ["request", "agent"]) == Some(c.agent) ==>
              ResolvedMatches(smoke, c.resolved.value)
  {
    NoDriftExactly(c, smoke);
    hide DriftFor;
    RequestedText(smoke, "effort", c.effort);
    RequestedText(smoke, "mode", c.mode);
    hide TextAt;
    hide RequestFieldMatches;
    hide ProvenancePackageMatches;
    hide ProvenanceField;
    hide Succeeded;
  }

  lemma RequestedText(smoke: Json, field: string, expected: Option<string>)
    ensures RequestFieldMatches(smoke, field, expected) ==> TextAt(smoke, ["request", field]) == expected
  {
    hide At;
  }

  lemma ShapeMeans(c: Case, smoke: Json)
    requires ValidSmokeShape(smoke, c)
    ensures TextAt(smoke, ["request", "agent"]) == Some(c.agent)
    ensures Succeeded(smoke) || AsBool(Get(smoke, "success")) == Some(false)
  {
    hide TextAt;
  }

  /** The verdict the runner writes into a completed floating row is the one its evidence implies. */
  lemma CompletedRowAgrees(c: Case, smoke: Json, violations: seq<Violation>, acceptable: string -> bool)
    requires c.lane == FloatingCurrent && c.resolved.Some? && ValidSmokeShape(smoke, c)
    ensures var row := CompletedResult(c, smoke, violations, acceptable);
            row.candidateOutcome == Some(RecomputeCandidateOutcome(row, acceptable))
  {
    hide DriftFor;
    hide TextAt;
    hide ValidSmokeShape;
    hide FloatingSuccessContract;
    hide FloatingFailureContract;
    hide ValidAvailableCatalog;
    hide ResolvedMatches;
    ShapeMeans(c, smoke);
    var row := CompletedResult(c, smoke, violations, acceptable);
    if row.drift == [] {
      assert DriftFor(c, smoke) == [] && FloatingDrift(c, smoke, acceptable) == [];
      NoDriftMeans(c, smoke);
    }
  }

  // ---- Agreement over whole runs ----

  /** A floating row carries the verdict its evidence implies; no row lists a dimension of drift twice. */
  ghost predicate Agrees(row: CaseResult, acceptable: string -> bool) {
    && (row.lane == FloatingCurrent ==> row.candidateOutcome == Some(RecomputeCandidateOutcome(row, acceptable)))
    && NoRepeats(row.drift)
  }

  lemma UnrunRowAgrees(c: Case, text: string, acceptable: string -> bool)
    ensures Agrees(NotRunResult(c, text), acceptable)
    ensures Agrees(RunnerFailureResult(c, text), acceptable)
  {
  }

  lemma SettledRowAgrees(c: Case, b: ManifestBudget, s: RunState, o: Observation, processSuccess: bool, smoke: Json,
                         acceptable: string -> bool)
    requires (c.lane == FloatingCurrent ==> c.resolved.Some?) && DistinctComponents(c)
    ensures var s' := Settle(c, b, s, o, processSuccess, smoke, acceptable);
            |s'.results| == |s.results| + 1 && Agrees(s'.results[|s.results|], acceptable)
  {
    hide ValidSmokeShape;
    hide Succeeded;
    hide Account;
    hide CompletedResult;
    hide RunnerFailureResult;
    hide Agrees;
    var violations := Account(c, b, s.budget, smoke, o).1;
    if !ValidSmokeShape(smoke, c) {
      UnrunRowAgrees(c, "smoke_artifact_schema_mismatch", acceptable);
    } else if o.holdsSecret {
      UnrunRowAgrees(c, "smoke_artifact_secret_rejected", acceptable);
    } else if o.serializedBytes.None? {
      UnrunRowAgrees(c, "smoke_artifact_serialization_failed", acceptable);
    } else if s.embeddedSmokeBytes + o.serializedBytes.value > MAX_EMBEDDED_SMOKE_BYTES {
      UnrunRowAgrees(c, "aggregate_smoke_evidence_limit_exceeded", acceptable);
    } else if processSuccess != Succeeded(smoke) {
      UnrunRowAgrees(c, "smoke_exit_artifact_mismatch", acceptable);
    } else {
      CompletedAgrees(c, smoke, violations, acceptable);
    }
  }

  lemma CompletedAgrees(c: Case, smoke: Json, violations: seq<Violation>, acceptable: string -> bool)
    requires ValidSmokeShape(smoke, c) && (c.lane == FloatingCurrent ==> c.resolved.Some?) && DistinctComponents(c)
    ensures Agrees(CompletedResult(c, smoke, violations, acceptable), acceptable)
  {
    hide ValidSmokeShape;
    hide CompletedResult;
    hide RecomputeCandidateOutcome;
    CompletedFacts(c, smoke, violations, acceptable);
    CompletedDrift(c, smoke, violations, acceptable);
    if c.lane == FloatingCurrent {
      CompletedRowAgrees(c, smoke, violations, acceptable);
    }
  }

  lemma CompletedDrift(c: Case, smoke: Json, violations: seq<Violation>, acceptable: string -> bool)
    requires DistinctComponents(c)
    ensures NoRepeats(CompletedResult(c, smoke, violations, acceptable).drift)
  {
    hide DriftFor;
    hide FloatingDrift;
    hide DistinctComponents;
    hide Succeeded;
    DriftHasNoRepeats(c, smoke, acceptable);
  }

  lemma StepRowAgrees(c: Case, b: ManifestBudget, s: RunState, o: Observation, acceptable: string -> bool)
    requires (c.lane == FloatingCurrent ==> c.resolved.Some?) && DistinctComponents(c)
    ensures var s' := RunCase(c, b, s, o, acceptable);
            |s'.results| == |s.results| + 1 && Agrees(s'.results[|s.results|], acceptable)
  {
    hide Settle;
    hide Invoke;
    hide NotRunResult;
    hide RunnerFailureResult;
    hide Agrees;
    var s' := RunCase(c, b, s, o, acceptable);
    match GateOf(c, b, s, o)
    case Skip(reason) => UnrunRowAgrees(c, reason, acceptable);
    case SkipExhausted(reason) => UnrunRowAgrees(c, reason, acceptable);
    case Fails(code) => UnrunRowAgrees(c, code, acceptable);
    case Open =>
      var call := Invocation(|s.results|, s.budget.observedTokens, s.budget.observedCostUsd, Spawns(c, b, o));
      var called := s.(invocations := s.invocations + [call]);
      var invocation := Invoke(c, b, o);
      if invocation.notRunReason.Some? {
        UnrunRowAgrees(c, invocation.notRunReason.value, acceptable);
      } else if invocation.artifact.None? {
        UnrunRowAgrees(c, "smoke_artifact_unavailable", acceptable);
        if invocation.runnerErrorCode.Some? {
          UnrunRowAgrees(c, invocation.runnerErrorCode.value, acceptable);
        }
      } else {
        SettledRowAgrees(c, b, called, o, invocation.processSuccess, invocation.artifact.value, acceptable);
      }
  }

  lemma {:induction false} RunRowsAgree(r: Run, n: nat, acceptable: string -> bool)
    requires ValidRun(r) && n <= |r.selected|
    ensures var rows := StateAfter(r, n, acceptable).results;
            |rows| == n && forall i :: 0 <= i < n ==> Agrees(rows[i], acceptable)
  {
    hide RunCase;
    hide Agrees;
    hide StepFacts;
    if n > 0 {
      var c, b, o := CaseAt(r, n - 1), r.manifest.budget, r.observations[n - 1];
      var s := StateAfter(r, n - 1, acceptable);
      assert ValidCase(c, b);
      hide ValidManifest;
      RunRowsAgree(r, n - 1, acceptable);
      StepRowAgrees(c, b, s, o, acceptable);
      BudgetIsConfigured(r, n - 1, acceptable);
      RunCaseFacts(c, b, s, o, acceptable);
      RowsKept(c, b, s, o, StateAfter(r, n, acceptable));
    }
  }

  lemma InterruptedAgrees(row: CaseResult, acceptable: string -> bool)
    requires Agrees(row, acceptable)
    ensures Agrees(Interrupted(row), acceptable)
  {
  }

  /**
   * For every validated manifest and everything the world may answer, every floating row of the aggregate,
   * the one rewritten on cancellation included, carries the verdict that its own evidence implies.
   */
  lemma ProducerAndCheckerAgree(r: Run, acceptable: string -> bool)
    requires ValidRun(r)
    ensures forall i :: 0 <= i < |AggregateOf(r, acceptable).results| ==>
            Agrees(AggregateOf(r, acceptable).results[i], acceptable)
  {
    hide StateAfter;
    hide Agrees;
    hide RewriteOnCancellation;
    hide Interrupted;
    hide SummaryOf;
    hide Succeeds;
    hide ValidManifest;
    var s := StateAfter(r, |r.selected|, acceptable);
    RunRowsAgree(r, |r.selected|, acceptable);
    RewriteKeepsRows(s.results);
    forall i | 0 <= i < |s.results| ensures Agrees(RewriteOnCancellation(s.results)[i], acceptable) {
      InterruptedAgrees(s.results[i], acceptable);
    }
  }

  lemma PassImpliesCompleted(row: CaseResult, acceptable: string -> bool)
    requires RecomputeCandidateOutcome(row, acceptable) == CandidatePass
    ensures row.execution == Completed
  {
    hide FloatingSuccessContract;
    hide FloatingFailureContract;
    hide ValidAvailableCatalog;
    hide ResolvedMatches;
    hide TextAt;
  }

  /** For floating rows that agree with their evidence, the runner's and the checker's notion of success coincide. */
  lemma SameSuccess(rows: seq<CaseResult>, exhausted: bool, cancelled: bool, acceptable: string -> bool)
    requires forall i :: 0 <= i < |rows| ==> rows[i].lane == FloatingCurrent && Agrees(rows[i], acceptable)
    ensures Succeeds(rows, exhausted, cancelled)
       <==> && (forall i :: 0 <= i < |rows| ==> rows[i].candidateOutcome == Some(CandidatePass))
            && !cancelled && !exhausted
  {
    hide RecomputeCandidateOutcome;
    if forall i :: 0 <= i < |rows| ==> rows[i].candidateOutcome == Some(CandidatePass) {
      forall i | 0 <= i < |rows| ensures rows[i].execution != RunnerFailure {
        PassImpliesCompleted(rows[i], acceptable);
      }
    }
  }

  lemma DistinctRows(r: Run, rows: seq<CaseResult>, i: nat, j: nat)
    requires ValidRun(r) && |rows| == |r.selected| && i < j < |rows|
    requires forall k :: 0 <= k < |rows| ==> RowFor(CaseAt(r, k), rows[k])
    requires CaseAt(r, i).lane == CaseAt(r, j).lane == FloatingCurrent
    ensures rows[i].caseId != rows[j].caseId && rows[i].baselineCaseId != rows[j].baselineCaseId
  {
    hide ValidCase;
    assert r.selected[i] < r.selected[j];
  }

  lemma AcceptedRow(r: Run, i: nat, row: CaseResult, resolution: ResolutionRecord, acceptable: string -> bool)
    requires ValidRun(r) && i < |r.selected| && RowFor(CaseAt(r, i), row) && Agrees(row, acceptable)
    requires var c := CaseAt(r, i);
             && c.lane == FloatingCurrent && c.resolved.Some?
             && c.resolved.value.resolutionId == resolution.resolutionId
             && c.resolved.value.recipeSha256 == resolution.recipeSha256
    ensures ResolvedRow(row, resolution, acceptable)
  {
    hide RecomputeCandidateOutcome;
    assert ValidCase(CaseAt(r, i), r.manifest.budget);
  }

  /** The rows and totals of an all-floating run of a resolved manifest always satisfy the checker. */
  lemma FloatingRowsAreAccepted(r: Run, resolution: ResolutionRecord, acceptable: string -> bool)
    requires ValidRun(r) && r.selected != []
    requires forall i :: 0 <= i < |r.selected| ==>
               && CaseAt(r, i).lane == FloatingCurrent
               && CaseAt(r, i).resolved.Some?
               && CaseAt(r, i).resolved.value.resolutionId == resolution.resolutionId
               && CaseAt(r, i).resolved.value.recipeSha256 == resolution.recipeSha256
    ensures ValidFloatingRows(AggregateOf(r, acceptable), resolution, acceptable)
  {
    hide StateAfter;
    hide RowFor;
    hide RewriteOnCancellation;
    var a := AggregateOf(r, acceptable);
    assert a.floatingSummary == SummaryOf(a.results)
        && a.success == Succeeds(a.results, a.budget.exhausted, a.cancelled);
    hide AggregateOf;
    hide SummaryOf;
    hide Succeeds;
    hide Agrees;
    hide ResolvedRow;
    hide ValidManifest;
    ProducerAndCheckerAgree(r, acceptable);
    AggregateIsSafe(r, acceptable);
    forall i | 0 <= i < |a.results| ensures ResolvedRow(a.results[i], resolution, acceptable) {
      AcceptedRow(r, i, a.results[i], resolution, acceptable);
    }
    forall i, j | 0 <= i < j < |a.results|
      ensures a.results[i].caseId != a.results[j].caseId && a.results[i].baselineCaseId != a.results[j].baselineCaseId
    {
      DistinctRows(r, a.results, i, j);
    }
    SameSuccess(a.results, a.budget.exhausted, a.cancelled, acceptable);
  }

  lemma RowsAreBound(r: Run, rules: ShapeRules, acceptable: string -> bool)
    requires ValidRun(r)
    requires forall i :: 0 <= i < |r.selected| ==> CaseAt(r, i).resolved.Some?
    ensures var rows := AggregateOf(r, acceptable).results;
            && |rows| == |r.selected|
            && ((forall i :: 0 <= i < |rows| ==> BoundRow(rows[i], rules)) <==>
                forall i :: 0 <= i < |r.selected| ==> rules.binding(CaseAt(r, i).resolved.value))
  {
    hide AggregateOf;
    hide ValidManifest;
    AggregateIsSafe(r, acceptable);
    var rows := AggregateOf(r, acceptable).results;
    forall i | 0 <= i < |rows|
      ensures BoundRow(rows[i], rules) <==> rules.binding(CaseAt(r, i).resolved.value)
    {
      assert RowFor(CaseAt(r, i), rows[i]);
    }
  }

  /**
   * The checker accepts an all-floating run of a resolved manifest exactly when the artifact's own header and the
   * bindings of the manifest are well formed: nothing that happens in a run can make it refuse.
   */
  lemma FloatingRunIsAccepted(r: Run, h: Header, resolution: ResolutionRecord, rules: ShapeRules,
                              acceptable: string -> bool)
    requires ValidRun(r) && r.selected != []
    requires forall i :: 0 <= i < |r.selected| ==>
               && CaseAt(r, i).lane == FloatingCurrent
               && CaseAt(r, i).resolved.Some?
               && CaseAt(r, i).resolved.value.resolutionId == resolution.resolutionId
               && CaseAt(r, i).resolved.value.recipeSha256 == resolution.recipeSha256
    ensures ValidFloatingAggregate(h, AggregateOf(r, acceptable), resolution, rules, acceptable) <==>
            && ValidHeader(h, resolution, rules)
            && forall i :: 0 <= i < |r.selected| ==> rules.binding(CaseAt(r, i).resolved.value)
  {
    hide AggregateOf;
    hide ValidManifest;
    hide ValidHeader;
    hide ValidFloatingRows;
    hide BoundRow;
    FloatingRowsAreAccepted(r, resolution, acceptable);
    RowsAreBound(r, rules, acceptable);
  }
}

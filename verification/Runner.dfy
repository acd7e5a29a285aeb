/** The bounded canary runner: one row per selected case, under sticky budgets, failures and cancellation. */
module Runner {
  import opened Prelude
  import opened Json
  import opened SmokeEvidence
  import opened DriftScan

  const MAX_EMBEDDED_SMOKE_BYTES := 8 * 1024 * 1024
  const MAX_TOTAL_TOKENS := 10_000_000

  /** The largest finite double. Costs are exact reals below it; beyond it the accumulator saturates. */
  const F64_MAX: real := 179769313486231570814527423731704356798070567525844996598917476803157260780028538760589558632766878171540458953514382464234321326889464182768467546703537516986049910576551282076245490090389328944075868508455133942304583236903222948165808559332123347764797926204144723168738177180919299881250404026184124858368.0

  // ---- Manifests ----

  datatype ManifestBudget = ManifestBudget(timeoutSecs: nat, maxTokens: nat, maxCostUsd: Option<real>)
  datatype Manifest = Manifest(budget: ManifestBudget, cases: seq<Case>)

  /** What validation establishes of a case that the runner relies on. */
  predicate ValidCase(c: Case, budget: ManifestBudget) {
    && 0 < c.timeoutSecs <= budget.timeoutSecs
    && 0 < c.maxTokens <= budget.maxTokens
    && (c.maxCostUsd.Some? ==>
          c.maxCostUsd.value > 0.0 && budget.maxCostUsd.Some? && c.maxCostUsd.value <= budget.maxCostUsd.value)
    && (match c.lane
        case Pinned => c.baselineCase.None? && c.pins.Some? && c.resolved.None? && c.classification != Canary
        case FloatingCurrent =>
          && c.baselineCase.Some? && c.pins.None? && c.resolved.Some? && c.classification == Canary
          && c.evidencePath == BridgeSmoke && c.probe == Minimal && c.expectedStatus == Pass)
    && DistinctComponents(c)
  }

  predicate ValidManifest(m: Manifest) {
    && 0 < m.budget.maxTokens <= MAX_TOTAL_TOKENS
    && (m.budget.maxCostUsd.Some? ==> m.budget.maxCostUsd.value > 0.0)
    && (forall i :: 0 <= i < |m.cases| ==> ValidCase(m.cases[i], m.budget))
    && (forall i, j :: 0 <= i < j < |m.cases| ==> m.cases[i].id != m.cases[j].id)
    && (forall i, j :: 0 <= i < j < |m.cases| && m.cases[i].lane == m.cases[j].lane == FloatingCurrent ==>
          m.cases[i].baselineCase != m.cases[j].baselineCase)
  }

  // ---- Rows and aggregates ----

  datatype ExecutionState = Completed | NotRun | RunnerFailure
  datatype CandidateOutcome = CandidatePass | CandidateFail | CandidateUnknown

  datatype Violation =
    | CaseTokenCapExceeded
    | TotalCostOverflow
    | CaseCostCapExceeded
    | CaseCostObservationInvalid
    | TotalTimeoutExceeded

  datatype CaseResult = CaseResult(
    caseId: string,
    baselineCaseId: Option<string>,
    lane: Lane,
    execution: ExecutionState,
    expectedStatus: EvidenceStatus,
    actualStatus: EvidenceStatus,
    expectationMet: bool,
    classification: Classification,
    candidateOutcome: Option<CandidateOutcome>,
    resolved: Option<ResolvedBinding>,
    notRunReason: Option<string>,
    runnerErrorCode: Option<string>,
    drift: seq<Drift>,
    budgetViolations: seq<Violation>,
    smoke: Option<Json>)

  datatype BudgetOutcome = BudgetOutcome(
    maxTokens: nat,
    maxCostUsd: Option<real>,
    observedTokens: nat,
    observedCostUsd: real,
    tokenObservationMissingCases: nat,
    costObservationMissingCases: nat,
    exhausted: bool)

  datatype FloatingSummary = FloatingSummary(pass: nat, fail: nat, unknown: nat)

  datatype Aggregate = Aggregate(
    cancelled: bool,
    success: bool,
    budget: BudgetOutcome,
    results: seq<CaseResult>,
    floatingSummary: Option<FloatingSummary>)

  function InitialBudget(b: ManifestBudget): BudgetOutcome {
    BudgetOutcome(b.maxTokens, b.maxCostUsd, 0, 0.0, 0, 0, false)
  }

  function FloatingUnknown(c: Case): Option<CandidateOutcome> {
    if c.lane == FloatingCurrent then Some(CandidateUnknown) else None
  }

  function NotRunResult(c: Case, reason: string): CaseResult {
    var actual := if c.expectedStatus == Stale then Stale else Unknown;
    CaseResult(c.id, c.baselineCase, c.lane, NotRun, c.expectedStatus, actual, actual == c.expectedStatus,
               c.classification, FloatingUnknown(c), c.resolved, Some(reason), None, [], [], None)
  }

  function RunnerFailureResult(c: Case, code: string): CaseResult {
    CaseResult(c.id, c.baselineCase, c.lane, RunnerFailure, c.expectedStatus, Unknown, false,
               c.classification, FloatingUnknown(c), c.resolved, None, Some(code), [], [], None)
  }

  // ---- What the runner observes of the world ----

  datatype InvocationResult = InvocationResult(
    artifact: Option<Json>,
    processSuccess: bool,
    runnerErrorCode: Option<string>,
    notRunReason: Option<string>)

  /** Everything outside the runner that it consults while handling one case. */
  datatype Observation = Observation(
    cancelledAtHead: bool,
    notReady: Option<string>,
    configPinFailure: Option<string>,
    elapsedMs: nat,
    revalidationFailure: Option<string>,
    launchFailure: Option<string>,
    cancelledAtAdmission: bool,
    elapsedAtAdmissionMs: nat,
    child: InvocationResult,
    holdsSecret: bool,
    serializedBytes: Option<nat>,
    elapsedAfterMs: nat)

  /** Why a spawn is refused at the last moment, if it is. */
  function SpawnRefusal(c: Case, b: ManifestBudget, o: Observation): Option<string> {
    if o.cancelledAtAdmission then Some("cancellation_requested")
    else if b.timeoutSecs * 1_000 < o.elapsedAtAdmissionMs + c.timeoutSecs * 1_000 then
      Some("total_budget_insufficient_for_case")
    else None
  }

  /** A child process is spawned exactly when nothing stops the invocation before it. */
  predicate Spawns(c: Case, b: ManifestBudget, o: Observation) {
    o.launchFailure.None? && SpawnRefusal(c, b, o).None?
  }

  function Invoke(c: Case, b: ManifestBudget, o: Observation): InvocationResult {
    if o.launchFailure.Some? then InvocationResult(None, false, o.launchFailure, None)
    else
      match SpawnRefusal(c, b, o)
      case Some(reason) => InvocationResult(None, false, None, Some(reason))
      case None => o.child
  }

  // ---- One case ----

  /** A call of the invoker: for which row, with which usage observed before it, and whether it spawned. */
  datatype Invocation = Invocation(ordinal: nat, tokensBefore: nat, costBefore: real, spawned: bool)

  datatype RunState = RunState(
    budget: BudgetOutcome,
    results: seq<CaseResult>,
    priorRunnerFailure: bool,
    embeddedSmokeBytes: nat,
    invocations: seq<Invocation>)

  function InitialState(b: ManifestBudget): RunState {
    RunState(InitialBudget(b), [], false, 0, [])
  }

  function WithRow(s: RunState, row: CaseResult): RunState {
    s.(results := s.results + [row])
  }

  function WithFailure(s: RunState, c: Case, code: string): RunState {
    s.(results := s.results + [RunnerFailureResult(c, code)], priorRunnerFailure := true)
  }

  function Exhaust(s: RunState): RunState {
    s.(budget := s.budget.(exhausted := true))
  }

  predicate TotalReached(b: BudgetOutcome) {
    || b.exhausted
    || b.observedTokens >= b.maxTokens
    || (b.maxCostUsd.Some? && b.observedCostUsd >= b.maxCostUsd.value)
  }

  predicate HeadroomInsufficient(c: Case, b: ManifestBudget, budget: BudgetOutcome, o: Observation) {
    || (if budget.observedTokens <= b.maxTokens then b.maxTokens - budget.observedTokens else 0) < c.maxTokens
    || (b.maxCostUsd.Some? && c.maxCostUsd.Some? && b.maxCostUsd.value - budget.observedCostUsd < c.maxCostUsd.value)
    || b.timeoutSecs * 1_000 < o.elapsedMs + c.timeoutSecs * 1_000
  }

  function SaturatingTokens(observed: nat, tokens: nat): nat {
    if observed + tokens <= U64_MAX then observed + tokens else U64_MAX
  }

  function TokenViolations(c: Case, smoke: Json): seq<Violation> {
    match ObservedTokens(smoke)
    case Some(tokens) => if tokens > c.maxTokens then [CaseTokenCapExceeded] else []
    case None => []
  }

  function CostViolations(c: Case, smoke: Json, observed: real): seq<Violation> {
    match ObservedCost(smoke)
    case Usd(cost) =>
      (if observed + cost > F64_MAX then [TotalCostOverflow] else [])
      + (if c.maxCostUsd.Some? && cost > c.maxCostUsd.value then [CaseCostCapExceeded] else [])
    case Missing => []
    case Invalid => [CaseCostObservationInvalid]
  }

  function TimeViolations(b: ManifestBudget, o: Observation): seq<Violation> {
    if o.elapsedAfterMs > b.timeoutSecs * 1_000 then [TotalTimeoutExceeded] else []
  }

  function SaturatingCost(total: real, cost: real): real {
    if total + cost > F64_MAX then F64_MAX else total + cost
  }

  /** The budget after a completed case, with the violations of that case. */
  function Account(c: Case, b: ManifestBudget, budget: BudgetOutcome, smoke: Json, o: Observation)
    : (BudgetOutcome, seq<Violation>)
  {
    var tokens := ObservedTokens(smoke);
    var cost := ObservedCost(smoke);
    var violations := TokenViolations(c, smoke) + CostViolations(c, smoke, budget.observedCostUsd)
        + TimeViolations(b, o);
    var observedTokens :=
      if tokens.Some? then SaturatingTokens(budget.observedTokens, tokens.value) else budget.observedTokens;
    var observedCost :=
      if cost.Usd? then SaturatingCost(budget.observedCostUsd, cost.amount) else budget.observedCostUsd;
    var over :=
      || observedTokens > budget.maxTokens
      || (budget.maxCostUsd.Some? && observedCost > budget.maxCostUsd.value)
      || violations != [];
    (budget.(observedTokens := observedTokens,
             observedCostUsd := observedCost,
             tokenObservationMissingCases := budget.tokenObservationMissingCases + if tokens.None? then 1 else 0,
             costObservationMissingCases := budget.costObservationMissingCases + if cost.Missing? then 1 else 0,
             exhausted := budget.exhausted || over),
     violations)
  }

  function CompletedResult(c: Case, smoke: Json, violations: seq<Violation>, acceptable: string -> bool): CaseResult {
    CompletedRow(c, smoke, DriftFor(c, smoke) + FloatingDrift(c, smoke, acceptable), violations)
  }

  function CompletedRow(c: Case, smoke: Json, drift: seq<Drift>, violations: seq<Violation>): CaseResult {
    var actual := if Succeeded(smoke) then Pass else Fail;
    var outcome :=
      if c.lane != FloatingCurrent then None
      else if drift != [] || violations != [] then Some(CandidateUnknown)
      else if actual == Pass then Some(CandidatePass)
      else Some(CandidateFail);
    CaseResult(c.id, c.baselineCase, c.lane, Completed, c.expectedStatus, actual,
               actual == c.expectedStatus && drift == [] && violations == [],
               c.classification, outcome, c.resolved, None, None, drift, violations, Some(smoke))
  }

  /** What becomes of an artifact that the invocation produced. */
  function Settle(c: Case, b: ManifestBudget, s: RunState, o: Observation, processSuccess: bool, smoke: Json,
                  acceptable: string -> bool): RunState
  {
    if !ValidSmokeShape(smoke, c) then WithFailure(s, c, "smoke_artifact_schema_mismatch")
    else if o.holdsSecret then WithFailure(s, c, "smoke_artifact_secret_rejected")
    else if o.serializedBytes.None? then WithFailure(s, c, "smoke_artifact_serialization_failed")
    else if s.embeddedSmokeBytes + o.serializedBytes.value > MAX_EMBEDDED_SMOKE_BYTES then
      WithFailure(s, c, "aggregate_smoke_evidence_limit_exceeded")
    else
      var counted := s.(embeddedSmokeBytes := s.embeddedSmokeBytes + o.serializedBytes.value);
      if processSuccess != Succeeded(smoke) then WithFailure(counted, c, "smoke_exit_artifact_mismatch")
      else
        var (budget, violations) := Account(c, b, s.budget, smoke, o);
        WithRow(counted.(budget := budget), CompletedResult(c, smoke, violations, acceptable))
  }

  function AfterInvocation(c: Case, b: ManifestBudget, s: RunState, o: Observation,
                           acceptable: string -> bool): RunState {
    var invocation := Invoke(c, b, o);
    if invocation.notRunReason.Some? then
      var reason := invocation.notRunReason.value;
      WithRow(if reason == "total_budget_insufficient_for_case" then Exhaust(s) else s, NotRunResult(c, reason))
    else if invocation.artifact.None? then
      WithFailure(s, c, if invocation.runnerErrorCode.Some? then invocation.runnerErrorCode.value
                        else "smoke_artifact_unavailable")
    else Settle(c, b, s, o, invocation.processSuccess, invocation.artifact.value, acceptable)
  }

  /** Why a case does not reach the invoker; none if it does. */
  datatype Gate = Open | Skip(reason: string) | SkipExhausted(reason: string) | Fails(code: string)

  function GateOf(c: Case, b: ManifestBudget, s: RunState, o: Observation): Gate {
    if o.cancelledAtHead then Skip("cancellation_requested")
    else if s.priorRunnerFailure then Skip("prior_runner_failure")
    else if o.notReady.Some? then Skip(o.notReady.value)
    else if c.pins.Some? && o.configPinFailure.Some? then Fails(o.configPinFailure.value)
    else if TotalReached(s.budget) then SkipExhausted("total_budget_exhausted")
    else if HeadroomInsufficient(c, b, s.budget, o) then SkipExhausted("total_budget_insufficient_for_case")
    else if o.revalidationFailure.Some? then Skip(o.revalidationFailure.value)
    else Open
  }

  function RunCase(c: Case, b: ManifestBudget, s: RunState, o: Observation, acceptable: string -> bool): RunState {
    match GateOf(c, b, s, o)
    case Skip(reason) => WithRow(s, NotRunResult(c, reason))
    case SkipExhausted(reason) => WithRow(Exhaust(s), NotRunResult(c, reason))
    case Fails(code) => WithFailure(s, c, code)
    case Open =>
      var call := Invocation(|s.results|, s.budget.observedTokens, s.budget.observedCostUsd, Spawns(c, b, o));
      AfterInvocation(c, b, s.(invocations := s.invocations + [call]), o, acceptable)
  }

  // ---- A whole run ----

  /** A run: a validated manifest, the selected indices and what is observed for each of them. */
  datatype Run = Run(
    manifest: Manifest,
    selected: seq<nat>,
    observations: seq<Observation>,
    finalElapsedMs: nat,
    cancelledAtEnd: bool)

  predicate ValidRun(r: Run) {
    && ValidManifest(r.manifest)
    && |r.observations| == |r.selected|
    && (forall i :: 0 <= i < |r.selected| ==> r.selected[i] < |r.manifest.cases|)
    && (forall i, j :: 0 <= i < j < |r.selected| ==> r.selected[i] < r.selected[j])
  }

  function CaseAt(r: Run, i: nat): Case
    requires ValidRun(r) && i < |r.selected|
  {
    r.manifest.cases[r.selected[i]]
  }

  function StateAfter(r: Run, n: nat, acceptable: string -> bool): RunState
    requires ValidRun(r) && n <= |r.selected|
  {
    if n == 0 then InitialState(r.manifest.budget)
    else RunCase(CaseAt(r, n - 1), r.manifest.budget, StateAfter(r, n - 1, acceptable), r.observations[n - 1],
                 acceptable)
  }

  /** The most recent completed row at or before `n`, counted from one; zero if there is none. */
  function LastCompleted(rows: seq<CaseResult>, n: nat): (last: nat)
    requires n <= |rows|
    ensures last <= n
  {
    if n == 0 then 0
    else if rows[n - 1].execution == Completed then n
    else LastCompleted(rows, n - 1)
  }

  function Interrupted(row: CaseResult): CaseResult {
    row.(drift := if OutcomeCancellation in row.drift then row.drift else row.drift + [OutcomeCancellation],
         expectationMet := false,
         candidateOutcome := Some(CandidateUnknown))
  }

  /** Under cancellation the most recent completed floating row is no longer definitive. */
  function RewriteOnCancellation(rows: seq<CaseResult>): seq<CaseResult> {
    var last := LastCompleted(rows, |rows|);
    if last != 0 && rows[last - 1].lane == FloatingCurrent then rows[last - 1 := Interrupted(rows[last - 1])]
    else rows
  }

  function CountOutcome(rows: seq<CaseResult>, outcome: CandidateOutcome): nat {
    if rows == [] then 0
    else CountOutcome(rows[..|rows| - 1], outcome) + if rows[|rows| - 1].candidateOutcome == Some(outcome) then 1 else 0
  }

  function SummaryOf(rows: seq<CaseResult>): Option<FloatingSummary> {
    var summary := FloatingSummary(CountOutcome(rows, CandidatePass), CountOutcome(rows, CandidateFail),
                                   CountOutcome(rows, CandidateUnknown));
    if summary == FloatingSummary(0, 0, 0) then None else Some(summary)
  }

  predicate FailedPinned(row: CaseResult) {
    row.lane == Pinned && row.classification == Support && (row.execution != Completed || !row.expectationMet)
  }

  predicate Succeeds(rows: seq<CaseResult>, exhausted: bool, cancelled: bool) {
    && (forall i :: 0 <= i < |rows| ==> rows[i].execution != RunnerFailure)
    && (forall i :: 0 <= i < |rows| ==> !FailedPinned(rows[i]))
    && (forall i :: 0 <= i < |rows| && rows[i].lane == FloatingCurrent ==>
          rows[i].candidateOutcome == Some(CandidatePass))
    && !exhausted
    && !cancelled
  }

  function AggregateOf(r: Run, acceptable: string -> bool): Aggregate
    requires ValidRun(r)
  {
    var s := StateAfter(r, |r.selected|, acceptable);
    var budget := s.budget.(exhausted := s.budget.exhausted
                              || r.finalElapsedMs > r.manifest.budget.timeoutSecs * 1_000);
    var rows := if r.cancelledAtEnd then RewriteOnCancellation(s.results) else s.results;
    Aggregate(r.cancelledAtEnd, Succeeds(rows, budget.exhausted, r.cancelledAtEnd), budget, rows, SummaryOf(rows))
  }

  /** Judges an artifact: the tail of the loop body, with one early exit per rejection. */
  method SettleArtifact(c: Case, config: ManifestBudget, s: RunState, o: Observation, processSuccess: bool, smoke: Json,
                        acceptable: string -> bool)
    returns (budget: BudgetOutcome, row: CaseResult, failed: bool, embeddedSmokeBytes: nat)
    ensures Settle(c, config, s, o, processSuccess, smoke, acceptable)
         == s.(budget := budget, results := s.results + [row], embeddedSmokeBytes := embeddedSmokeBytes,
               priorRunnerFailure := s.priorRunnerFailure || failed)
  {
    hide ValidSmokeShape;
    hide Account;
    hide CompletedRow;
    hide DriftFor;
    hide FloatingDrift;
    hide RunnerFailureResult;
    budget, embeddedSmokeBytes, failed := s.budget, s.embeddedSmokeBytes, true;
    if !ValidSmokeShape(smoke, c) {
      row := RunnerFailureResult(c, "smoke_artifact_schema_mismatch");
      return;
    }
    if o.holdsSecret {
      row := RunnerFailureResult(c, "smoke_artifact_secret_rejected");
      return;
    }
    if o.serializedBytes.None? {
      row := RunnerFailureResult(c, "smoke_artifact_serialization_failed");
      return;
    }
    if embeddedSmokeBytes + o.serializedBytes.value > MAX_EMBEDDED_SMOKE_BYTES {
      row := RunnerFailureResult(c, "aggregate_smoke_evidence_limit_exceeded");
      return;
    }
    embeddedSmokeBytes := embeddedSmokeBytes + o.serializedBytes.value;
    if processSuccess != Succeeded(smoke) {
      row := RunnerFailureResult(c, "smoke_exit_artifact_mismatch");
      return;
    }
    var drift := CollectDrift(c, smoke, acceptable);
    var (accounted, violations) := Account(c, config, budget, smoke, o);
    budget, failed := accounted, false;
    row := CompletedRow(c, smoke, drift, violations);
  }

  /** Draws the consequences of an invocation already made: the second half of the loop body. */
  method Conclude(c: Case, config: ManifestBudget, s: RunState, o: Observation,
                  acceptable: string -> bool) returns (next: RunState)
    ensures next == AfterInvocation(c, config, s, o, acceptable)
    ensures |next.results| == |s.results| + 1 && next.invocations == s.invocations
  {
    hide Settle;
    hide Invoke;
    hide NotRunResult;
    hide RunnerFailureResult;
    next := s;
    var invocation := Invoke(c, config, o);
    if invocation.notRunReason.Some? {
      if invocation.notRunReason.value == "total_budget_insufficient_for_case" {
        next := next.(budget := next.budget.(exhausted := true));
      }
      next := next.(results := next.results + [NotRunResult(c, invocation.notRunReason.value)]);
      return;
    }
    if invocation.artifact.None? {
      var code := if invocation.runnerErrorCode.Some? then invocation.runnerErrorCode.value
          else "smoke_artifact_unavailable";
      next := next.(results := next.results + [RunnerFailureResult(c, code)], priorRunnerFailure := true);
      return;
    }
    var budget, row, failed, embeddedSmokeBytes :=
      SettleArtifact(c, config, next, o, invocation.processSuccess, invocation.artifact.value, acceptable);
    next := next.(budget := budget, results := next.results + [row], embeddedSmokeBytes := embeddedSmokeBytes,
                  priorRunnerFailure := next.priorRunnerFailure || failed);
  }

  /** The runner itself: the loop over the selected cases and the verdict drawn from its rows. */
  method BuildAggregate(r: Run, acceptable: string -> bool) returns (aggregate: Aggregate)
    requires ValidRun(r)
    ensures aggregate == AggregateOf(r, acceptable)
  {
    hide TotalReached;
    hide HeadroomInsufficient;
    hide AfterInvocation;
    hide Spawns;
    hide NotRunResult;
    hide RunnerFailureResult;
    hide ValidManifest;
    hide SummaryOf;
    hide RewriteOnCancellation;
    hide Succeeds;
    var config := r.manifest.budget;
    var budget := InitialBudget(config);
    var results: seq<CaseResult> := [];
    var priorRunnerFailure := false;
    var embeddedSmokeBytes: nat := 0;
    var invocations: seq<Invocation> := [];
    for ordinal := 0 to |r.selected|
      invariant |results| == ordinal
      invariant RunState(budget, results, priorRunnerFailure, embeddedSmokeBytes, invocations)
              == StateAfter(r, ordinal, acceptable)
    {
      var c, o := CaseAt(r, ordinal), r.observations[ordinal];
      if o.cancelledAtHead {
        results := results + [NotRunResult(c, "cancellation_requested")];
        continue;
      }
      if priorRunnerFailure {
        results := results + [NotRunResult(c, "prior_runner_failure")];
        continue;
      }
      if o.notReady.Some? {
        results := results + [NotRunResult(c, o.notReady.value)];
        continue;
      }
      if c.pins.Some? && o.configPinFailure.Some? {
        results := results + [RunnerFailureResult(c, o.configPinFailure.value)];
        priorRunnerFailure := true;
        continue;
      }
      if TotalReached(budget) {
        budget := budget.(exhausted := true);
        results := results + [NotRunResult(c, "total_budget_exhausted")];
        continue;
      }
      if HeadroomInsufficient(c, config, budget, o) {
        budget := budget.(exhausted := true);
        results := results + [NotRunResult(c, "total_budget_insufficient_for_case")];
        continue;
      }
      if o.revalidationFailure.Some? {
        results := results + [NotRunResult(c, o.revalidationFailure.value)];
        continue;
      }
      invocations := invocations + [Invocation(ordinal, budget.observedTokens, budget.observedCostUsd,
                                               Spawns(c, config, o))];
      var s := Conclude(c, config, RunState(budget, results, priorRunnerFailure, embeddedSmokeBytes, invocations), o,
                        acceptable);
      budget, results, priorRunnerFailure, embeddedSmokeBytes :=
          s.budget, s.results, s.priorRunnerFailure, s.embeddedSmokeBytes;
    }
    if r.finalElapsedMs > config.timeoutSecs * 1_000 {
      budget := budget.(exhausted := true);
    }
    if r.cancelledAtEnd {
      results := RewriteOnCancellation(results);
    }
    var summary := FloatingSummaryOf(results);
    aggregate := Aggregate(r.cancelledAtEnd, Succeeds(results, budget.exhausted, r.cancelledAtEnd), budget, results,
                           summary);
  }

  method FloatingSummaryOf(rows: seq<CaseResult>) returns (summary: Option<FloatingSummary>)
    ensures summary == SummaryOf(rows)
  {
    var pass, fail, unknown := 0, 0, 0;
    var any := false;
    for i := 0 to |rows|
      invariant pass == CountOutcome(rows[..i], CandidatePass)
      invariant fail == CountOutcome(rows[..i], CandidateFail)
      invariant unknown == CountOutcome(rows[..i], CandidateUnknown)
      invariant any <==> pass + fail + unknown > 0
    {
      assert rows[..i + 1][..i] == rows[..i];
      match rows[i].candidateOutcome
      case Some(CandidatePass) => any := true; pass := pass + 1;
      case Some(CandidateFail) => any := true; fail := fail + 1;
      case Some(CandidateUnknown) => any := true; unknown := unknown + 1;
      case None =>
    }
    assert rows[..|rows|] == rows;
    summary := if any then Some(FloatingSummary(pass, fail, unknown)) else None;
  }
}

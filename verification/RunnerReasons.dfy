/** Why each case of a run was run, turned away or failed, and what the run had spent by then, told from its rows. */
module RunnerReasons {
  import opened Prelude
  import opened Json
  import opened SmokeEvidence
  import opened Runner
  import opened RunnerSafety

  // ---- What the rows report ----

  function ReportedTokens(row: CaseResult): nat {
    if row.execution == Completed && row.smoke.Some? && ObservedTokens(row.smoke.value).Some?
    then ObservedTokens(row.smoke.value).value else 0
  }

  function ReportedCost(row: CaseResult): (cost: real)
    ensures cost >= 0.0
  {
    if row.execution == Completed && row.smoke.Some? && ObservedCost(row.smoke.value).Usd?
    then ObservedCost(row.smoke.value).amount else 0.0
  }

  function TokensOf(rows: seq<CaseResult>): nat {
    if rows == [] then 0 else TokensOf(rows[..|rows| - 1]) + ReportedTokens(rows[|rows| - 1])
  }

  function CostOf(rows: seq<CaseResult>): (cost: real)
    ensures cost >= 0.0
  {
    if rows == [] then 0.0 else CostOf(rows[..|rows| - 1]) + ReportedCost(rows[|rows| - 1])
  }

  predicate NoTokens(row: CaseResult) {
    row.execution == Completed && row.smoke.Some? && ObservedTokens(row.smoke.value).None?
  }

  predicate NoCost(row: CaseResult) {
    row.execution == Completed && row.smoke.Some? && ObservedCost(row.smoke.value).Missing?
  }

  /** The rows that ran and did not report tokens, and those that did not report a cost. */
  function WithoutTokens(rows: seq<CaseResult>): set<int> {
    set i | 0 <= i < |rows| && NoTokens(rows[i])
  }

  function WithoutCost(rows: seq<CaseResult>): set<int> {
    set i | 0 <= i < |rows| && NoCost(rows[i])
  }

  function LeastCost(a: real, b: real): real {
    if a <= b then a else b
  }

  function LeastTokens(a: nat, b: nat): nat {
    if a <= b then a else b
  }

  // ---- One case ----

  /** The case was not run, for a reason; the reason may be that a budget is used up. */
  predicate TurnedAway(s: RunState, s': RunState, row: CaseResult, reason: string, exhausts: bool) {
    && row.execution == NotRun && row.notRunReason == Some(reason)
    && s'.budget == s.budget.(exhausted := s.budget.exhausted || exhausts)
    && s'.embeddedSmokeBytes == s.embeddedSmokeBytes
  }

  /** The case ended the run of cases. */
  predicate Failed(s: RunState, s': RunState, row: CaseResult, code: string) {
    row.execution == RunnerFailure && row.runnerErrorCode == Some(code) && s'.budget == s.budget
  }

  /** The violations of a completed case, each for its own reason. */
  ghost predicate ViolationsFor(c: Case, b: ManifestBudget, before: seq<CaseResult>, o: Observation, smoke: Json,
                                violations: seq<Violation>)
  {
    var tokens, cost := ObservedTokens(smoke), ObservedCost(smoke);
    && (CaseTokenCapExceeded in violations <==> tokens.Some? && tokens.value > c.maxTokens)
    && (CaseCostCapExceeded in violations <==>
          cost.Usd? && c.maxCostUsd.Some? && cost.amount > c.maxCostUsd.value)
    && (TotalCostOverflow in violations <==>
          cost.Usd? && LeastCost(CostOf(before), F64_MAX) + cost.amount > F64_MAX)
    && (CaseCostObservationInvalid in violations <==> cost.Invalid?)
    && (TotalTimeoutExceeded in violations <==> o.elapsedAfterMs > b.timeoutSecs * 1_000)
  }

  /** The evidence was accepted: it is in the row, it was counted, and it used up a budget or it did not. */
  ghost predicate Accepted(c: Case, b: ManifestBudget, s: RunState, o: Observation, smoke: Json, s': RunState,
                           row: CaseResult)
  {
    && row.execution == Completed && row.smoke == Some(smoke)
    && ViolationsFor(c, b, s.results, o, smoke, row.budgetViolations)
    && (s'.budget.exhausted <==>
          || s.budget.exhausted || row.budgetViolations != [] || TokensOf(s'.results) > b.maxTokens
          || (b.maxCostUsd.Some? && LeastCost(CostOf(s'.results), F64_MAX) > b.maxCostUsd.value))
  }

  /** What became of the evidence a child left behind: the first reason to reject it, if there is one. */
  ghost predicate Judged(c: Case, b: ManifestBudget, s: RunState, o: Observation, smoke: Json, s': RunState,
                         row: CaseResult)
  {
    match Objection(c, s, o, smoke)
    case Some(code) => Failed(s, s', row, code)
    case None => Accepted(c, b, s, o, smoke, s', row)
  }

  /** The first thing wrong with an artifact that a child left. */
  ghost function Objection(c: Case, s: RunState, o: Observation, smoke: Json): Option<string> {
    if !ValidSmokeShape(smoke, c) then Some("smoke_artifact_schema_mismatch")
    else if o.holdsSecret then Some("smoke_artifact_secret_rejected")
    else if o.serializedBytes.None? then Some("smoke_artifact_serialization_failed")
    else if s.embeddedSmokeBytes + o.serializedBytes.value > 8_388_608
      then Some("aggregate_smoke_evidence_limit_exceeded")
    else if o.child.processSuccess != Succeeded(smoke) then Some("smoke_exit_artifact_mismatch")
    else None
  }

  predicate SpawnHasTime(c: Case, b: ManifestBudget, o: Observation) {
    o.elapsedAtAdmissionMs + c.timeoutSecs * 1_000 <= b.timeoutSecs * 1_000
  }

  /** The invoker was called for the case. */
  ghost predicate Attempted(c: Case, b: ManifestBudget, s: RunState, o: Observation, s': RunState, row: CaseResult) {
    && |s'.invocations| == |s.invocations| + 1 && s.invocations <= s'.invocations
    && s'.invocations[|s.invocations|].ordinal == |s.results|
    && (s'.invocations[|s.invocations|].spawned <==>
          o.launchFailure.None? && !o.cancelledAtAdmission && SpawnHasTime(c, b, o))
    && if o.launchFailure.Some? then Failed(s, s', row, o.launchFailure.value)
       else if o.cancelledAtAdmission then TurnedAway(s, s', row, "cancellation_requested", false)
       else if !SpawnHasTime(c, b, o) then TurnedAway(s, s', row, "total_budget_insufficient_for_case", true)
       else if o.child.notRunReason.Some?
         then TurnedAway(s, s', row, o.child.notRunReason.value,
                         o.child.notRunReason.value == "total_budget_insufficient_for_case")
       else if o.child.artifact.Some? then Judged(c, b, s, o, o.child.artifact.value, s', row)
       else if o.child.runnerErrorCode.Some? then Failed(s, s', row, o.child.runnerErrorCode.value)
       else Failed(s, s', row, "smoke_artifact_unavailable")
  }

  /** The rows before the case leave no tokens or no money. */
  ghost predicate UsedUp(b: ManifestBudget, s: RunState) {
    || s.budget.exhausted || TokensOf(s.results) >= b.maxTokens
    || (b.maxCostUsd.Some? && LeastCost(CostOf(s.results), F64_MAX) >= b.maxCostUsd.value)
  }

  /** What the case may use does not fit what is left. */
  ghost predicate TooLittleLeft(c: Case, b: ManifestBudget, s: RunState, o: Observation) {
    || TokensOf(s.results) + c.maxTokens > b.maxTokens
    || (b.maxCostUsd.Some? && c.maxCostUsd.Some?
        && LeastCost(CostOf(s.results), F64_MAX) + c.maxCostUsd.value > b.maxCostUsd.value)
    || o.elapsedMs + c.timeoutSecs * 1_000 > b.timeoutSecs * 1_000
  }

  /** The answer to one case: turned away for the first reason that applies, or given to the invoker. */
  ghost predicate Explained(c: Case, b: ManifestBudget, s: RunState, o: Observation, s': RunState, row: CaseResult) {
    var kept := s'.invocations == s.invocations;
    if o.cancelledAtHead then kept && TurnedAway(s, s', row, "cancellation_requested", false)
    else if exists j :: 0 <= j < |s.results| && s.results[j].execution == RunnerFailure
      then kept && TurnedAway(s, s', row, "prior_runner_failure", false)
    else if o.notReady.Some? then kept && TurnedAway(s, s', row, o.notReady.value, false)
    else if c.lane == Pinned && o.configPinFailure.Some? then kept && Failed(s, s', row, o.configPinFailure.value)
    else if UsedUp(b, s) then kept && TurnedAway(s, s', row, "total_budget_exhausted", true)
    else if TooLittleLeft(c, b, s, o) then kept && TurnedAway(s, s', row, "total_budget_insufficient_for_case", true)
    else if o.revalidationFailure.Some? then kept && TurnedAway(s, s', row, o.revalidationFailure.value, false)
    else Attempted(c, b, s, o, s', row)
  }

  // ---- Every prefix of every run has spent what its rows report ----

  ghost predicate Tallied(s: RunState) {
    && s.budget.observedTokens == LeastTokens(TokensOf(s.results), U64_MAX)
    && s.budget.observedCostUsd == LeastCost(CostOf(s.results), F64_MAX)
    && s.budget.tokenObservationMissingCases == |WithoutTokens(s.results)|
    && s.budget.costObservationMissingCases == |WithoutCost(s.results)|
    && (s.priorRunnerFailure <==> exists j :: 0 <= j < |s.results| && s.results[j].execution == RunnerFailure)
  }

  lemma OneMoreRow(rows: seq<CaseResult>, row: CaseResult)
    ensures TokensOf(rows + [row]) == TokensOf(rows) + ReportedTokens(row)
    ensures CostOf(rows + [row]) == CostOf(rows) + ReportedCost(row)
  {
    hide ReportedTokens;
    hide ReportedCost;
    assert (rows + [row])[..|rows|] == rows;
  }

  lemma OneMoreWithoutTokens(rows: seq<CaseResult>, row: CaseResult)
    ensures |WithoutTokens(rows + [row])| == |WithoutTokens(rows)| + if NoTokens(row) then 1 else 0
  {
    hide NoTokens;
    var all, n := rows + [row], |rows|;
    assert WithoutTokens(all) == if NoTokens(row) then WithoutTokens(rows) + {n} else WithoutTokens(rows);
  }

  lemma OneMoreWithoutCost(rows: seq<CaseResult>, row: CaseResult)
    ensures |WithoutCost(rows + [row])| == |WithoutCost(rows)| + if NoCost(row) then 1 else 0
  {
    hide NoCost;
    var all, n := rows + [row], |rows|;
    assert WithoutCost(all) == if NoCost(row) then WithoutCost(rows) + {n} else WithoutCost(rows);
  }

  lemma FailureShows(rows: seq<CaseResult>, row: CaseResult)
    ensures (exists j :: 0 <= j < |rows + [row]| && (rows + [row])[j].execution == RunnerFailure) <==>
              (exists j :: 0 <= j < |rows| && rows[j].execution == RunnerFailure) || row.execution == RunnerFailure
  {
    var all := rows + [row];
    if j :| 0 <= j < |rows| && rows[j].execution == RunnerFailure {
      assert all[j].execution == RunnerFailure;
    } else if row.execution == RunnerFailure {
      assert all[|rows|].execution == RunnerFailure;
    }
  }

  /** A row without evidence adds nothing. */
  lemma TallyKept(s: RunState, s': RunState, row: CaseResult)
    requires Tallied(s) && s'.results == s.results + [row] && row.execution != Completed
    requires s'.budget == s.budget.(exhausted := s'.budget.exhausted)
    requires s'.priorRunnerFailure == (s.priorRunnerFailure || row.execution == RunnerFailure)
    ensures Tallied(s') && TokensOf(s'.results) == TokensOf(s.results) && CostOf(s'.results) == CostOf(s.results)
  {
    OneMoreRow(s.results, row);
    OneMoreWithoutTokens(s.results, row);
    OneMoreWithoutCost(s.results, row);
    FailureShows(s.results, row);
    hide TokensOf;
    hide CostOf;
    hide WithoutTokens;
    hide WithoutCost;
  }

  lemma TokensSaturate(total: nat, tokens: nat)
    ensures SaturatingTokens(LeastTokens(total, U64_MAX), tokens) == LeastTokens(total + tokens, U64_MAX)
  {
  }

  lemma CostsSaturate(total: real, cost: real)
    requires cost >= 0.0
    ensures SaturatingCost(LeastCost(total, F64_MAX), cost) == LeastCost(total + cost, F64_MAX)
  {
  }

  /** The accounts of a case that completed. */
  lemma TallyCompleted(c: Case, b: ManifestBudget, s: RunState, o: Observation, smoke: Json, row: CaseResult,
                       s': RunState)
    requires Tallied(s) && s'.results == s.results + [row] && s'.priorRunnerFailure == s.priorRunnerFailure
    requires row.execution == Completed && row.smoke == Some(smoke)
    requires s'.budget == Account(c, b, s.budget, smoke, o).0
    ensures Tallied(s')
  {
    OneMoreRow(s.results, row);
    OneMoreWithoutTokens(s.results, row);
    OneMoreWithoutCost(s.results, row);
    FailureShows(s.results, row);
    var tokens, cost := ObservedTokens(smoke), ObservedCost(smoke);
    hide TokensOf;
    hide CostOf;
    hide WithoutTokens;
    hide WithoutCost;
    hide ObservedTokens;
    hide ObservedCost;
    hide TokenViolations;
    hide CostViolations;
    hide TimeViolations;
    if tokens.Some? {
      TokensSaturate(TokensOf(s.results), tokens.value);
    }
    if cost.Usd? {
      CostsSaturate(CostOf(s.results), cost.amount);
    }
    hide SaturatingTokens;
    hide SaturatingCost;
    hide LeastTokens;
    hide LeastCost;
  }

  lemma ViolationsMean(c: Case, b: ManifestBudget, s: RunState, o: Observation, smoke: Json)
    requires Tallied(s)
    ensures ViolationsFor(c, b, s.results, o, smoke, Account(c, b, s.budget, smoke, o).1)
  {
    hide TokensOf;
    hide CostOf;
    hide WithoutTokens;
    hide WithoutCost;
    hide ObservedTokens;
    hide ObservedCost;
    hide SaturatingTokens;
    hide SaturatingCost;
    hide LeastCost;
    hide LeastTokens;
  }

  lemma ExhaustionMeans(c: Case, b: ManifestBudget, s: RunState, o: Observation, smoke: Json, row: CaseResult,
                        s': RunState)
    requires Tallied(s') && s'.budget == Account(c, b, s.budget, smoke, o).0
    requires s.budget.maxTokens == b.maxTokens <= U64_MAX - 1 && s.budget.maxCostUsd == b.maxCostUsd
    requires row.budgetViolations == Account(c, b, s.budget, smoke, o).1
    ensures s'.budget.exhausted <==>
              || s.budget.exhausted || row.budgetViolations != [] || TokensOf(s'.results) > b.maxTokens
              || (b.maxCostUsd.Some? && LeastCost(CostOf(s'.results), F64_MAX) > b.maxCostUsd.value)
  {
    hide TokensOf;
    hide CostOf;
    hide WithoutTokens;
    hide WithoutCost;
    hide ObservedTokens;
    hide ObservedCost;
    hide TokenViolations;
    hide CostViolations;
    hide TimeViolations;
    hide SaturatingTokens;
    hide SaturatingCost;
    hide LeastCost;
  }

  /** What the runner's accounts and its configuration have in common with the manifest. */
  predicate Configured(c: Case, b: ManifestBudget, s: RunState) {
    && s.budget.maxTokens == b.maxTokens <= U64_MAX - 1 && s.budget.maxCostUsd == b.maxCostUsd
    && 0 < c.maxTokens && (c.lane == Pinned <==> c.pins.Some?)
  }

  lemma FailureExplained(c: Case, s: RunState, bytes: nat, code: string)
    requires Tallied(s)
    ensures var s' := WithFailure(s.(embeddedSmokeBytes := bytes), c, code);
            && |s'.results| == |s.results| + 1 && Tallied(s') && Failed(s, s', s'.results[|s.results|], code)
            && s'.invocations == s.invocations
  {
    var s' := WithFailure(s.(embeddedSmokeBytes := bytes), c, code);
    TallyKept(s, s', RunnerFailureResult(c, code));
    hide Tallied;
  }

  lemma TurnedAwayExplained(c: Case, s: RunState, exhausts: bool, reason: string)
    requires Tallied(s)
    ensures var s' := WithRow(if exhausts then Exhaust(s) else s, NotRunResult(c, reason));
            && |s'.results| == |s.results| + 1 && Tallied(s')
            && TurnedAway(s, s', s'.results[|s.results|], reason, exhausts) && s'.invocations == s.invocations
  {
    var s' := WithRow(if exhausts then Exhaust(s) else s, NotRunResult(c, reason));
    TallyKept(s, s', NotRunResult(c, reason));
    hide Tallied;
  }

  lemma AcceptanceExplained(c: Case, b: ManifestBudget, s: RunState, o: Observation, smoke: Json, bytes: nat,
                            acceptable: string -> bool)
    requires Tallied(s) && Configured(c, b, s)
    ensures var (budget, violations) := Account(c, b, s.budget, smoke, o);
            var s' := WithRow(s.(embeddedSmokeBytes := bytes).(budget := budget),
                              CompletedResult(c, smoke, violations, acceptable));
            && |s'.results| == |s.results| + 1 && Tallied(s')
            && Accepted(c, b, s, o, smoke, s', s'.results[|s.results|]) && s'.invocations == s.invocations
  {
    var (budget, violations) := Account(c, b, s.budget, smoke, o);
    var row := CompletedResult(c, smoke, violations, acceptable);
    var s' := WithRow(s.(embeddedSmokeBytes := bytes).(budget := budget), row);
    hide Account;
    hide CompletedResult;
    hide Tallied;
    hide ViolationsFor;
    hide TokensOf;
    hide CostOf;
    hide LeastCost;
    CompletedFacts(c, smoke, violations, acceptable);
    TallyCompleted(c, b, s, o, smoke, row, s');
    ViolationsMean(c, b, s, o, smoke);
    ExhaustionMeans(c, b, s, o, smoke, row, s');
  }

  /** The bytes embedded after an artifact: it is counted unless it is not even measured or does not fit. */
  ghost function BytesAfter(c: Case, s: RunState, o: Observation, smoke: Json): nat {
    if !ValidSmokeShape(smoke, c) || o.holdsSecret || o.serializedBytes.None?
       || s.embeddedSmokeBytes + o.serializedBytes.value > MAX_EMBEDDED_SMOKE_BYTES
    then s.embeddedSmokeBytes
    else s.embeddedSmokeBytes + o.serializedBytes.value
  }

  lemma SettleIs(c: Case, b: ManifestBudget, s: RunState, o: Observation, smoke: Json, acceptable: string -> bool)
    ensures var counted := s.(embeddedSmokeBytes := BytesAfter(c, s, o, smoke));
            Settle(c, b, s, o, o.child.processSuccess, smoke, acceptable)
            == match Objection(c, s, o, smoke)
               case Some(code) => WithFailure(counted, c, code)
               case None =>
                 var (budget, violations) := Account(c, b, s.budget, smoke, o);
                 WithRow(counted.(budget := budget), CompletedResult(c, smoke, violations, acceptable))
  {
    hide ValidSmokeShape;
    hide Succeeded;
    hide Account;
    hide CompletedResult;
    hide WithFailure;
    hide WithRow;
    assert s.(embeddedSmokeBytes := s.embeddedSmokeBytes) == s;
  }

  lemma JudgementExplained(c: Case, b: ManifestBudget, s: RunState, o: Observation, smoke: Json,
                           acceptable: string -> bool)
    requires Tallied(s) && Configured(c, b, s)
    ensures var s' := Settle(c, b, s, o, o.child.processSuccess, smoke, acceptable);
            && |s'.results| == |s.results| + 1 && Tallied(s')
            && Judged(c, b, s, o, smoke, s', s'.results[|s.results|]) && s'.invocations == s.invocations
  {
    SettleIs(c, b, s, o, smoke, acceptable);
    hide Settle;
    hide Objection;
    hide BytesAfter;
    hide Account;
    hide CompletedResult;
    hide WithFailure;
    hide WithRow;
    hide Tallied;
    hide Configured;
    hide Failed;
    hide Accepted;
    var bytes := BytesAfter(c, s, o, smoke);
    match Objection(c, s, o, smoke)
    case Some(code) => FailureExplained(c, s, bytes, code);
    case None => AcceptanceExplained(c, b, s, o, smoke, bytes, acceptable);
  }

  /** The call before the consequences: the same accounts with one more invocation. */
  lemma CalledAccounts(c: Case, b: ManifestBudget, s: RunState, called: RunState)
    requires called == s.(invocations := called.invocations)
    ensures Tallied(called) <==> Tallied(s)
    ensures Configured(c, b, called) <==> Configured(c, b, s)
  {
    hide TokensOf;
    hide CostOf;
    hide WithoutTokens;
    hide WithoutCost;
  }

  lemma CalledJudgement(c: Case, b: ManifestBudget, s: RunState, called: RunState, o: Observation, s': RunState,
                        row: CaseResult, smoke: Json)
    requires called == s.(invocations := called.invocations) && Judged(c, b, called, o, smoke, s', row)
    ensures Judged(c, b, s, o, smoke, s', row)
  {
    hide ValidSmokeShape;
    hide Succeeded;
    hide ViolationsFor;
    hide TokensOf;
    hide CostOf;
  }

  lemma CalledFailure(c: Case, s: RunState, called: RunState, code: string)
    requires called == s.(invocations := called.invocations) && Tallied(called)
    ensures var s' := WithFailure(called, c, code);
            && |s'.results| == |s.results| + 1 && Tallied(s') && Failed(s, s', s'.results[|s.results|], code)
            && s'.invocations == called.invocations
  {
    hide Tallied;
    hide WithFailure;
    assert called.(embeddedSmokeBytes := called.embeddedSmokeBytes) == called;
    FailureExplained(c, called, called.embeddedSmokeBytes, code);
  }

  lemma CalledTurnedAway(c: Case, s: RunState, called: RunState, exhausts: bool, reason: string)
    requires called == s.(invocations := called.invocations) && Tallied(called)
    ensures var s' := WithRow(if exhausts then Exhaust(called) else called, NotRunResult(c, reason));
            && |s'.results| == |s.results| + 1 && Tallied(s')
            && TurnedAway(s, s', s'.results[|s.results|], reason, exhausts) && s'.invocations == called.invocations
  {
    hide Tallied;
    hide WithRow;
    hide Exhaust;
    hide NotRunResult;
    TurnedAwayExplained(c, called, exhausts, reason);
  }

  /** The consequences of an invocation, by what it came back with. */
  lemma InvocationExplained(c: Case, b: ManifestBudget, s: RunState, called: RunState, o: Observation,
                            acceptable: string -> bool)
    requires called == s.(invocations := called.invocations) && Tallied(called) && Configured(c, b, called)
    ensures var s', i := AfterInvocation(c, b, called, o, acceptable), Invoke(c, b, o);
            && |s'.results| == |s.results| + 1 && Tallied(s') && s'.invocations == called.invocations
            && var row := s'.results[|s.results|];
               if i.notRunReason.Some?
                 then TurnedAway(s, s', row, i.notRunReason.value,
                                 i.notRunReason.value == "total_budget_insufficient_for_case")
               else if i.artifact.None?
                 then Failed(s, s', row, if i.runnerErrorCode.Some? then i.runnerErrorCode.value
                                         else "smoke_artifact_unavailable")
               else Judged(c, b, s, o, i.artifact.value, s', row)
  {
    hide Invoke;
    hide Settle;
    hide WithFailure;
    hide WithRow;
    hide Exhaust;
    hide Tallied;
    hide Configured;
    hide Judged;
    hide Failed;
    hide TurnedAway;
    hide NotRunResult;
    hide RunnerFailureResult;
    var i := Invoke(c, b, o);
    if i.notRunReason.Some? {
      CalledTurnedAway(c, s, called, i.notRunReason.value == "total_budget_insufficient_for_case",
                       i.notRunReason.value);
    } else if i.artifact.None? {
      CalledFailure(c, s, called, if i.runnerErrorCode.Some? then i.runnerErrorCode.value
                                  else "smoke_artifact_unavailable");
    } else {
      InvokeMeans(c, b, o);
      var s' := AfterInvocation(c, b, called, o, acceptable);
      JudgementExplained(c, b, called, o, i.artifact.value, acceptable);
      CalledJudgement(c, b, s, called, o, s', s'.results[|s.results|], i.artifact.value);
    }
  }

  /** The child answers only if nothing stopped the invocation before it. */
  lemma InvokeMeans(c: Case, b: ManifestBudget, o: Observation)
    ensures var i := Invoke(c, b, o);
            && (o.launchFailure.Some? ==>
                  i.notRunReason.None? && i.artifact.None? && i.runnerErrorCode == o.launchFailure)
            && (o.launchFailure.None? && o.cancelledAtAdmission ==>
                  i.notRunReason == Some("cancellation_requested"))
            && (o.launchFailure.None? && !o.cancelledAtAdmission && !SpawnHasTime(c, b, o) ==>
                  i.notRunReason == Some("total_budget_insufficient_for_case"))
            && (o.launchFailure.None? && !o.cancelledAtAdmission && SpawnHasTime(c, b, o) ==> i == o.child)
            && (i.artifact.Some? ==> i == o.child)
    ensures Spawns(c, b, o) <==> o.launchFailure.None? && !o.cancelledAtAdmission && SpawnHasTime(c, b, o)
  {
  }

  lemma AttemptExplained(c: Case, b: ManifestBudget, s: RunState, o: Observation, acceptable: string -> bool)
    requires Tallied(s) && Configured(c, b, s)
    ensures var call := Invocation(|s.results|, s.budget.observedTokens, s.budget.observedCostUsd, Spawns(c, b, o));
            var s' := AfterInvocation(c, b, s.(invocations := s.invocations + [call]), o, acceptable);
            && |s'.results| == |s.results| + 1 && Tallied(s')
            && Attempted(c, b, s, o, s', s'.results[|s.results|])
  {
    var call := Invocation(|s.results|, s.budget.observedTokens, s.budget.observedCostUsd, Spawns(c, b, o));
    var called := s.(invocations := s.invocations + [call]);
    hide AfterInvocation;
    hide Invoke;
    hide Spawns;
    hide Tallied;
    hide Configured;
    hide Judged;
    hide Failed;
    hide TurnedAway;
    hide SpawnHasTime;
    CalledAccounts(c, b, s, called);
    InvocationExplained(c, b, s, called, o, acceptable);
    InvokeMeans(c, b, o);
    DifferentReasons();
  }

  lemma DifferentReasons()
    ensures "cancellation_requested" != "total_budget_insufficient_for_case"
  {
    assert "cancellation_requested"[0] == 'c';
  }

  lemma GatesMean(c: Case, b: ManifestBudget, s: RunState, o: Observation)
    requires Tallied(s) && Configured(c, b, s)
    ensures TotalReached(s.budget) <==> UsedUp(b, s)
    ensures HeadroomInsufficient(c, b, s.budget, o) <==> TooLittleLeft(c, b, s, o)
  {
    hide TokensOf;
    hide CostOf;
    hide WithoutTokens;
    hide WithoutCost;
    hide LeastCost;
  }

  /** One step, by the gate the case came to. */
  ghost predicate ByGate(c: Case, b: ManifestBudget, s: RunState, o: Observation, s': RunState, row: CaseResult) {
    match GateOf(c, b, s, o)
    case Skip(reason) => s'.invocations == s.invocations && TurnedAway(s, s', row, reason, false)
    case SkipExhausted(reason) => s'.invocations == s.invocations && TurnedAway(s, s', row, reason, true)
    case Fails(code) => s'.invocations == s.invocations && Failed(s, s', row, code)
    case Open => Attempted(c, b, s, o, s', row)
  }

  lemma GateExplains(c: Case, b: ManifestBudget, s: RunState, o: Observation, s': RunState, row: CaseResult)
    requires Tallied(s) && Configured(c, b, s) && ByGate(c, b, s, o, s', row)
    ensures Explained(c, b, s, o, s', row)
  {
    GatesMean(c, b, s, o);
    assert s.priorRunnerFailure <==> exists j :: 0 <= j < |s.results| && s.results[j].execution == RunnerFailure;
    assert c.lane == Pinned <==> c.pins.Some?;
    hide Tallied;
    hide Configured;
    hide TotalReached;
    hide HeadroomInsufficient;
    hide UsedUp;
    hide TooLittleLeft;
    hide Attempted;
    hide Failed;
    hide TurnedAway;
  }

  lemma StepByGate(c: Case, b: ManifestBudget, s: RunState, o: Observation, acceptable: string -> bool)
    requires Tallied(s) && Configured(c, b, s)
    ensures var s' := RunCase(c, b, s, o, acceptable);
            && |s'.results| == |s.results| + 1 && Tallied(s') && ByGate(c, b, s, o, s', s'.results[|s.results|])
  {
    hide GateOf;
    hide Tallied;
    hide Configured;
    hide AfterInvocation;
    hide Attempted;
    hide Failed;
    hide TurnedAway;
    hide WithFailure;
    hide WithRow;
    hide Exhaust;
    hide NotRunResult;
    match GateOf(c, b, s, o)
    case Skip(reason) => TurnedAwayExplained(c, s, false, reason);
    case SkipExhausted(reason) => TurnedAwayExplained(c, s, true, reason);
    case Fails(code) => CalledFailure(c, s, s, code);
    case Open => AttemptExplained(c, b, s, o, acceptable);
  }

  lemma CaseExplained(c: Case, b: ManifestBudget, s: RunState, o: Observation, acceptable: string -> bool)
    requires Tallied(s) && Configured(c, b, s)
    ensures var s' := RunCase(c, b, s, o, acceptable);
            && |s'.results| == |s.results| + 1 && Tallied(s') && Explained(c, b, s, o, s', s'.results[|s.results|])
  {
    hide *;
    StepByGate(c, b, s, o, acceptable);
    var s' := RunCase(c, b, s, o, acceptable);
    GateExplains(c, b, s, o, s', s'.results[|s.results|]);
  }

  lemma CasesAreConfigured(r: Run, n: nat, acceptable: string -> bool)
    requires ValidRun(r) && n < |r.selected|
    ensures Configured(CaseAt(r, n), r.manifest.budget, StateAfter(r, n, acceptable))
  {
    assert ValidCase(CaseAt(r, n), r.manifest.budget);
    BudgetIsConfigured(r, n, acceptable);
    hide StateAfter;
  }

  lemma InitiallyTallied(b: ManifestBudget)
    ensures Tallied(InitialState(b))
  {
    assert WithoutTokens([]) == {} && WithoutCost([]) == {};
  }

  /** The answer to one case of a run. */
  ghost predicate ExplainedAt(r: Run, i: nat, acceptable: string -> bool)
    requires ValidRun(r) && i < |r.selected|
  {
    var s, s' := StateAfter(r, i, acceptable), StateAfter(r, i + 1, acceptable);
    && |s.results| == i && |s'.results| == i + 1
    && Explained(CaseAt(r, i), r.manifest.budget, s, r.observations[i], s', s'.results[i])
  }

  /**
   * In every prefix of every run: what has been spent is what the rows report, the rows that report nothing are
   * counted, and every case was answered for the first reason that applied to it, or run.
   */
  lemma {:induction false} RunIsExplained(r: Run, n: nat, acceptable: string -> bool)
    requires ValidRun(r) && n <= |r.selected|
    ensures Tallied(StateAfter(r, n, acceptable)) && |StateAfter(r, n, acceptable).results| == n
    ensures forall i :: 0 <= i < n ==> ExplainedAt(r, i, acceptable)
  {
    hide *;
    if n == 0 {
      InitiallyTallied(r.manifest.budget);
      NoRows(r, acceptable);
    } else {
      RunIsExplained(r, n - 1, acceptable);
      NextExplained(r, n - 1, acceptable);
    }
  }

  lemma NextExplained(r: Run, n: nat, acceptable: string -> bool)
    requires ValidRun(r) && n < |r.selected| && Tallied(StateAfter(r, n, acceptable))
    requires |StateAfter(r, n, acceptable).results| == n
    ensures ExplainedAt(r, n, acceptable) && Tallied(StateAfter(r, n + 1, acceptable))
    ensures |StateAfter(r, n + 1, acceptable).results| == n + 1
  {
    CasesAreConfigured(r, n, acceptable);
    StateOfNext(r, n, acceptable);
    hide RunCase;
    hide StateAfter;
    hide Tallied;
    hide Explained;
    hide Configured;
    hide ValidManifest;
    CaseExplained(CaseAt(r, n), r.manifest.budget, StateAfter(r, n, acceptable), r.observations[n], acceptable);
  }

  lemma StateOfNext(r: Run, n: nat, acceptable: string -> bool)
    requires ValidRun(r) && n < |r.selected|
    ensures StateAfter(r, n + 1, acceptable)
         == RunCase(CaseAt(r, n), r.manifest.budget, StateAfter(r, n, acceptable), r.observations[n], acceptable)
  {
    hide RunCase;
    hide ValidManifest;
  }

  lemma NoRows(r: Run, acceptable: string -> bool)
    requires ValidRun(r)
    ensures StateAfter(r, 0, acceptable) == InitialState(r.manifest.budget)
    ensures StateAfter(r, 0, acceptable).results == []
  {
    hide ValidManifest;
  }
}

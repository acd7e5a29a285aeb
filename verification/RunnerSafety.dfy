/** What every run of the canary runner keeps: one row per case, stop discipline and budget safety. */
module RunnerSafety {
  import opened Prelude
  import opened Json
  import opened SmokeEvidence
  import opened Runner

  // ---- One step ----

  predicate RowFor(c: Case, row: CaseResult) {
    && row.caseId == c.id
    && row.baselineCaseId == c.baselineCase
    && row.lane == c.lane
    && row.classification == c.classification
    && row.resolved == c.resolved
  }

  /** The budget numbers are untouched. */
  predicate SameSpending(s: RunState, s': RunState) {
    && s'.budget.observedTokens == s.budget.observedTokens
    && s'.budget.observedCostUsd == s.budget.observedCostUsd
  }

  /** A step that ends before the invoker is called: the row cannot be a completed one. */
  predicate Stopped(s: RunState, o: Observation, s': RunState, row: CaseResult) {
    && s'.invocations == s.invocations
    && SameSpending(s, s')
    && s'.embeddedSmokeBytes == s.embeddedSmokeBytes
    && row.execution != Completed
  }

  /** A step that calls the invoker: only with headroom for the case, and never after a failure. */
  predicate Called(c: Case, b: ManifestBudget, s: RunState, o: Observation, s': RunState, row: CaseResult) {
    && s'.invocations == s.invocations
         + [Invocation(|s.results|, s.budget.observedTokens, s.budget.observedCostUsd, Spawns(c, b, o))]
    && !o.cancelledAtHead && !s.priorRunnerFailure && !s.budget.exhausted
    && s.budget.observedTokens + c.maxTokens <= b.maxTokens
    && (b.maxCostUsd.Some? && c.maxCostUsd.Some? ==>
          s.budget.observedCostUsd + c.maxCostUsd.value <= b.maxCostUsd.value)
    && (row.execution == Completed ==> Spawns(c, b, o) && Spent(c, s, o, s', row))
    && (row.execution != Completed ==> SameSpending(s, s'))
    && s.embeddedSmokeBytes <= s'.embeddedSmokeBytes
    && (s'.embeddedSmokeBytes == s.embeddedSmokeBytes || s'.embeddedSmokeBytes <= MAX_EMBEDDED_SMOKE_BYTES)
  }

  /** What a completed row adds to the budget. */
  predicate Spent(c: Case, s: RunState, o: Observation, s': RunState, row: CaseResult) {
    && row.smoke.Some? && o.serializedBytes.Some?
    && s'.embeddedSmokeBytes == s.embeddedSmokeBytes + o.serializedBytes.value <= MAX_EMBEDDED_SMOKE_BYTES
    && (match ObservedTokens(row.smoke.value)
        case Some(tokens) => s'.budget.observedTokens == SaturatingTokens(s.budget.observedTokens, tokens)
        case None => s'.budget.observedTokens == s.budget.observedTokens)
    && (match ObservedCost(row.smoke.value)
        case Usd(amount) => s'.budget.observedCostUsd == SaturatingCost(s.budget.observedCostUsd, amount)
        case _ => s'.budget.observedCostUsd == s.budget.observedCostUsd)
    && (row.budgetViolations != [] ==> s'.budget.exhausted)
    && (s'.budget.observedTokens > s.budget.maxTokens ==> s'.budget.exhausted)
    && (s.budget.maxCostUsd.Some? && s'.budget.observedCostUsd > s.budget.maxCostUsd.value ==> s'.budget.exhausted)
  }

  predicate StepFacts(c: Case, b: ManifestBudget, s: RunState, o: Observation, s': RunState) {
    && |s'.results| == |s.results| + 1
    && s'.results[..|s.results|] == s.results
    && var row := s'.results[|s.results|];
       && RowFor(c, row)
       && s'.priorRunnerFailure == (s.priorRunnerFailure || row.execution == RunnerFailure)
       && (s.priorRunnerFailure ==> row.execution == NotRun)
       && (row.execution != Completed ==> row.budgetViolations == [])
       && s'.budget.maxTokens == s.budget.maxTokens && s'.budget.maxCostUsd == s.budget.maxCostUsd
       && (s.budget.exhausted ==> s'.budget.exhausted)
       && (Stopped(s, o, s', row) || Called(c, b, s, o, s', row))
  }

  lemma AccountFacts(c: Case, b: ManifestBudget, budget: BudgetOutcome, smoke: Json, o: Observation)
    ensures var (after, violations) := Account(c, b, budget, smoke, o);
            && (match ObservedTokens(smoke)
                case Some(tokens) => after.observedTokens == SaturatingTokens(budget.observedTokens, tokens)
                case None => after.observedTokens == budget.observedTokens)
            && (match ObservedCost(smoke)
                case Usd(amount) => after.observedCostUsd == SaturatingCost(budget.observedCostUsd, amount)
                case _ => after.observedCostUsd == budget.observedCostUsd)
            && after.maxTokens == budget.maxTokens && after.maxCostUsd == budget.maxCostUsd
            && (budget.exhausted ==> after.exhausted)
            && (violations != [] ==> after.exhausted)
            && (after.observedTokens > budget.maxTokens ==> after.exhausted)
            && (budget.maxCostUsd.Some? && after.observedCostUsd > budget.maxCostUsd.value ==> after.exhausted)
  {
    hide TokenViolations;
    hide CostViolations;
    hide TimeViolations;
    hide ObservedTokens;
    hide ObservedCost;
    hide SaturatingTokens;
    hide SaturatingCost;
  }

  lemma CompletedFacts(c: Case, smoke: Json, violations: seq<Violation>, acceptable: string -> bool)
    ensures var row := CompletedResult(c, smoke, violations, acceptable);
            RowFor(c, row) && row.execution == Completed && row.smoke == Some(smoke)
                && row.budgetViolations == violations
  {
    hide DriftFor;
    hide FloatingDrift;
    hide Succeeded;
  }

  /** One row is added; a rejected artifact changes nothing but the byte count, a settled one is accounted for. */
  predicate SettledTo(c: Case, s: RunState, o: Observation, s': RunState) {
    && |s'.results| == |s.results| + 1 && s'.results[..|s.results|] == s.results
    && s'.invocations == s.invocations
    && var row := s'.results[|s.results|];
       && RowFor(c, row)
       && row.execution != NotRun
       && s'.priorRunnerFailure == (s.priorRunnerFailure || row.execution == RunnerFailure)
       && (row.execution == Completed ==> Spent(c, s, o, s', row))
       && (row.execution != Completed ==> row.budgetViolations == [] && s'.budget == s.budget)
       && s'.budget.maxTokens == s.budget.maxTokens && s'.budget.maxCostUsd == s.budget.maxCostUsd
       && (s.budget.exhausted ==> s'.budget.exhausted)
       && s.embeddedSmokeBytes <= s'.embeddedSmokeBytes
       && (s'.embeddedSmokeBytes == s.embeddedSmokeBytes || s'.embeddedSmokeBytes <= MAX_EMBEDDED_SMOKE_BYTES)
  }

  lemma FailureSettles(c: Case, s: RunState, bytes: nat, code: string, o: Observation)
    requires bytes == s.embeddedSmokeBytes || s.embeddedSmokeBytes <= bytes <= MAX_EMBEDDED_SMOKE_BYTES
    ensures SettledTo(c, s, o, WithFailure(s.(embeddedSmokeBytes := bytes), c, code))
  {
    hide Spent;
  }

  lemma SettleFacts(c: Case, b: ManifestBudget, s: RunState, o: Observation, processSuccess: bool, smoke: Json,
                    acceptable: string -> bool)
    ensures SettledTo(c, s, o, Settle(c, b, s, o, processSuccess, smoke, acceptable))
  {
    hide ValidSmokeShape;
    hide Succeeded;
    hide Account;
    hide CompletedResult;
    hide WithFailure;
    hide SettledTo;
    var bytes := s.embeddedSmokeBytes;
    assert s.(embeddedSmokeBytes := bytes) == s;
    if !ValidSmokeShape(smoke, c) {
      FailureSettles(c, s, bytes, "smoke_artifact_schema_mismatch", o);
    } else if o.holdsSecret {
      FailureSettles(c, s, bytes, "smoke_artifact_secret_rejected", o);
    } else if o.serializedBytes.None? {
      FailureSettles(c, s, bytes, "smoke_artifact_serialization_failed", o);
    } else if bytes + o.serializedBytes.value > MAX_EMBEDDED_SMOKE_BYTES {
      FailureSettles(c, s, bytes, "aggregate_smoke_evidence_limit_exceeded", o);
    } else if processSuccess != Succeeded(smoke) {
      FailureSettles(c, s, bytes + o.serializedBytes.value, "smoke_exit_artifact_mismatch", o);
    } else {
      CompletionSettles(c, b, s, o, smoke, acceptable);
    }
  }

  lemma CompletionSettles(c: Case, b: ManifestBudget, s: RunState, o: Observation, smoke: Json,
                          acceptable: string -> bool)
    requires o.serializedBytes.Some? && s.embeddedSmokeBytes + o.serializedBytes.value <= MAX_EMBEDDED_SMOKE_BYTES
    ensures var (after, violations) := Account(c, b, s.budget, smoke, o);
            SettledTo(c, s, o, WithRow(s.(embeddedSmokeBytes :=
                                            s.embeddedSmokeBytes + o.serializedBytes.value).(budget := after),
                                       CompletedResult(c, smoke, violations, acceptable)))
  {
    hide Account;
    hide CompletedResult;
    hide ObservedTokens;
    hide ObservedCost;
    hide SaturatingCost;
    AccountFacts(c, b, s.budget, smoke, o);
    CompletedFacts(c, smoke, Account(c, b, s.budget, smoke, o).1, acceptable);
  }

  lemma RunCaseFacts(c: Case, b: ManifestBudget, s: RunState, o: Observation, acceptable: string -> bool)
    requires s.budget.maxTokens == b.maxTokens && s.budget.maxCostUsd == b.maxCostUsd
    ensures StepFacts(c, b, s, o, RunCase(c, b, s, o, acceptable))
  {
    hide Settle;
    hide Spent;
    var call := Invocation(|s.results|, s.budget.observedTokens, s.budget.observedCostUsd, Spawns(c, b, o));
    var invocation := Invoke(c, b, o);
    if GateOf(c, b, s, o).Open? && invocation.notRunReason.None? && invocation.artifact.Some? {
      SettleFacts(c, b, s.(invocations := s.invocations + [call]), o, invocation.processSuccess,
                  invocation.artifact.value, acceptable);
      SpentFrame(c, s, call, o, RunCase(c, b, s, o, acceptable));
    }
  }

  lemma SpentFrame(c: Case, s: RunState, call: Invocation, o: Observation, s': RunState)
    requires |s.results| < |s'.results|
    ensures Spent(c, s.(invocations := s.invocations + [call]), o, s', s'.results[|s.results|])
        <==> Spent(c, s, o, s', s'.results[|s.results|])
  {
  }

  // ---- Stop discipline over whole runs ----

  ghost predicate Disciplined(r: Run, n: nat, s: RunState)
    requires ValidRun(r) && n <= |r.selected|
  {
    && |s.results| == n
    && (forall i :: 0 <= i < n ==> RowFor(CaseAt(r, i), s.results[i]))
    && (forall k :: 0 <= k < |s.invocations| ==> s.invocations[k].ordinal < n)
    && (forall j, k :: 0 <= j < k < |s.invocations| ==> s.invocations[j].ordinal < s.invocations[k].ordinal)
    && (forall i :: 0 <= i < n && s.results[i].execution == RunnerFailure ==> s.priorRunnerFailure)
    && (forall i, j :: 0 <= i < j < n && s.results[i].execution == RunnerFailure ==> s.results[j].execution == NotRun)
    && (forall i, k :: 0 <= i < n && s.results[i].execution == RunnerFailure && 0 <= k < |s.invocations| ==>
          s.invocations[k].ordinal <= i)
    && (forall k :: 0 <= k < |s.invocations| ==> SpawnAllowed(r, s.invocations[k]))
    && (forall i :: 0 <= i < n && s.results[i].execution == Completed ==> SpawnedFor(s.invocations, i))
  }

  /** An invocation was not preceded by an observed cancellation, nor was its spawn. */
  predicate SpawnAllowed(r: Run, call: Invocation)
    requires ValidRun(r)
  {
    && call.ordinal < |r.selected|
    && !r.observations[call.ordinal].cancelledAtHead
    && (call.spawned ==> !r.observations[call.ordinal].cancelledAtAdmission)
  }

  predicate SpawnedFor(invocations: seq<Invocation>, i: nat) {
    exists k :: 0 <= k < |invocations| && invocations[k].ordinal == i && invocations[k].spawned
  }

  lemma SpawnedStays(invocations: seq<Invocation>, call: Invocation, i: nat)
    ensures SpawnedFor(invocations, i) ==> SpawnedFor(invocations + [call], i)
    ensures call.ordinal == i && call.spawned ==> SpawnedFor(invocations + [call], i)
  {
    var all := invocations + [call];
    assert all[|invocations|] == call;
    if SpawnedFor(invocations, i) {
      var k :| 0 <= k < |invocations| && invocations[k].ordinal == i && invocations[k].spawned;
      assert all[k] == invocations[k];
    }
  }

  lemma DisciplineStep(r: Run, n: nat, s: RunState, s': RunState)
    requires ValidRun(r) && n < |r.selected| && Disciplined(r, n, s)
    requires StepFacts(CaseAt(r, n), r.manifest.budget, s, r.observations[n], s')
    ensures Disciplined(r, n + 1, s')
  {
    hide Spent;
    hide ValidManifest;
    var c, o := CaseAt(r, n), r.observations[n];
    var row := s'.results[n];
    assert forall i :: 0 <= i < n ==> s'.results[i] == s.results[i] by {
      assert forall i :: 0 <= i < n ==> s'.results[..n][i] == s'.results[i];
    }
    if s'.invocations != s.invocations {
      var call := s'.invocations[|s.invocations|];
      forall i | 0 <= i <= n && s'.results[i].execution == Completed ensures SpawnedFor(s'.invocations, i) {
        SpawnedStays(s.invocations, call, i);
      }
      assert SpawnAllowed(r, call);
    }
  }

  lemma BudgetIsConfigured(r: Run, n: nat, acceptable: string -> bool)
    requires ValidRun(r) && n <= |r.selected|
    ensures var budget := StateAfter(r, n, acceptable).budget;
            budget.maxTokens == r.manifest.budget.maxTokens && budget.maxCostUsd == r.manifest.budget.maxCostUsd
  {
    hide RunCase;
    hide ValidManifest;
    hide Spent;
    hide Called;
    hide Stopped;
    if n > 0 {
      BudgetIsConfigured(r, n - 1, acceptable);
      RunCaseFacts(CaseAt(r, n - 1), r.manifest.budget, StateAfter(r, n - 1, acceptable), r.observations[n - 1],
                   acceptable);
    }
  }

  /** Every prefix of every run is disciplined. */
  lemma {:induction false} RunIsDisciplined(r: Run, n: nat, acceptable: string -> bool)
    requires ValidRun(r) && n <= |r.selected|
    ensures Disciplined(r, n, StateAfter(r, n, acceptable))
  {
    hide *;
    if n == 0 {
      InitiallyDisciplined(r, acceptable);
    } else {
      CasesSelected(r);
      RunIsDisciplined(r, n - 1, acceptable);
      StateAfterFacts(r, n - 1, acceptable);
      DisciplineStep(r, n - 1, StateAfter(r, n - 1, acceptable), StateAfter(r, n, acceptable));
    }
  }

  lemma InitiallyDisciplined(r: Run, acceptable: string -> bool)
    requires ValidRun(r)
    ensures Disciplined(r, 0, StateAfter(r, 0, acceptable))
  {
    hide ValidManifest;
  }

  lemma CasesSelected(r: Run)
    requires ValidRun(r)
    ensures |r.observations| == |r.selected|
  {
    hide ValidManifest;
  }

  /** One more case: the facts of its step, between the states before and after it. */
  lemma StateAfterFacts(r: Run, n: nat, acceptable: string -> bool)
    requires ValidRun(r) && n < |r.selected|
    ensures StepFacts(CaseAt(r, n), r.manifest.budget, StateAfter(r, n, acceptable), r.observations[n],
                      StateAfter(r, n + 1, acceptable))
  {
    BudgetIsConfigured(r, n, acceptable);
    hide RunCase;
    hide StepFacts;
    hide ValidManifest;
    RunCaseFacts(CaseAt(r, n), r.manifest.budget, StateAfter(r, n, acceptable), r.observations[n], acceptable);
  }

  /** The cancellation flag is only ever raised: the reads of a run, in order, never fall back. */
  ghost predicate FlagOnlyRises(r: Run)
    requires ValidRun(r)
  {
    && (forall i :: 0 <= i < |r.observations| && r.observations[i].cancelledAtHead ==>
          r.observations[i].cancelledAtAdmission)
    && (forall i, j :: 0 <= i < j < |r.observations| && r.observations[i].cancelledAtAdmission ==>
          r.observations[j].cancelledAtHead)
    && (forall i :: 0 <= i < |r.observations| && r.observations[i].cancelledAtAdmission ==> r.cancelledAtEnd)
  }

  /**
   * Once the flag has been seen raised, at the head of a case or between its admission and its spawn, no
   * child is spawned for that case or any later one.
   */
  lemma NoSpawnAfterCancellation(r: Run, acceptable: string -> bool, seen: nat, k: nat)
    requires ValidRun(r) && FlagOnlyRises(r)
    requires seen < |r.selected| && r.observations[seen].cancelledAtAdmission
    requires k < |StateAfter(r, |r.selected|, acceptable).invocations|
    requires StateAfter(r, |r.selected|, acceptable).invocations[k].spawned
    ensures StateAfter(r, |r.selected|, acceptable).invocations[k].ordinal < seen
  {
    hide StateAfter;
    hide ValidManifest;
    RunIsDisciplined(r, |r.selected|, acceptable);
    var call := StateAfter(r, |r.selected|, acceptable).invocations[k];
    assert SpawnAllowed(r, call);
  }

  // ---- Budget safety over whole runs ----

  /** A completed row that reports a cost belongs to a case with a cost cap, and stayed within it. */
  predicate WithinOwnCostCap(c: Case, row: CaseResult) {
    row.smoke.Some? && ObservedCost(row.smoke.value).Usd? ==>
      c.maxCostUsd.Some? && ObservedCost(row.smoke.value).amount <= c.maxCostUsd.value
  }

  /** A completed row stayed within the token cap of its case. */
  predicate WithinOwnCap(c: Case, row: CaseResult) {
    row.smoke.Some? && ObservedTokens(row.smoke.value).Some? ==> ObservedTokens(row.smoke.value).value <= c.maxTokens
  }

  /** The size of the evidence embedded in the first `n` rows. */
  function EmbeddedBytes(r: Run, rows: seq<CaseResult>, n: nat): nat
    requires ValidRun(r) && n <= |r.selected| && n <= |rows|
  {
    if n == 0 then 0
    else
      EmbeddedBytes(r, rows, n - 1)
      + if rows[n - 1].execution == Completed && r.observations[n - 1].serializedBytes.Some?
        then r.observations[n - 1].serializedBytes.value else 0
  }

  /** An invocation was made with room for its whole case left in the totals. */
  predicate HadRoom(r: Run, call: Invocation)
    requires ValidRun(r)
  {
    && call.ordinal < |r.selected|
    && var c := CaseAt(r, call.ordinal);
       && call.tokensBefore + c.maxTokens <= r.manifest.budget.maxTokens
       && (r.manifest.budget.maxCostUsd.Some? && c.maxCostUsd.Some? ==>
             call.costBefore + c.maxCostUsd.value <= r.manifest.budget.maxCostUsd.value)
  }

  /** The totals are known to be exceeded whenever they are, and every invocation had room. */
  ghost predicate Bounded(r: Run, s: RunState)
    requires ValidRun(r)
  {
    && s.budget.maxTokens == r.manifest.budget.maxTokens && s.budget.maxCostUsd == r.manifest.budget.maxCostUsd
    && (forall k :: 0 <= k < |s.invocations| ==> HadRoom(r, s.invocations[k]))
    && (s.budget.observedTokens > s.budget.maxTokens ==> s.budget.exhausted)
    && (s.budget.maxCostUsd.Some? && s.budget.observedCostUsd > s.budget.maxCostUsd.value ==> s.budget.exhausted)
  }

  /** A budget violation is the end of invocations: at most one completed row carries one. */
  ghost predicate ViolationsStop(n: nat, s: RunState) {
    && |s.results| == n
    && (forall i :: 0 <= i < n && s.results[i].budgetViolations != [] ==>
          s.budget.exhausted && s.results[i].execution == Completed)
    && (forall i, j :: 0 <= i < j < n && s.results[i].budgetViolations != [] ==> s.results[j].execution != Completed)
    && (forall i, k :: 0 <= i < n && s.results[i].budgetViolations != [] && 0 <= k < |s.invocations| ==>
          s.invocations[k].ordinal <= i)
  }

  /** If every completed case kept to its own caps, the totals are within budget: for tokens, and for cost. */
  ghost predicate OwnCapsSuffice(r: Run, n: nat, s: RunState)
    requires ValidRun(r) && n <= |r.selected| && |s.results| == n
  {
    && ((forall i :: 0 <= i < n ==> WithinOwnCap(CaseAt(r, i), s.results[i])) ==>
          s.budget.observedTokens <= r.manifest.budget.maxTokens)
    && (r.manifest.budget.maxCostUsd.Some? && (forall i :: 0 <= i < n ==>
                                                 WithinOwnCostCap(CaseAt(r, i), s.results[i])) ==>
          s.budget.observedCostUsd <= r.manifest.budget.maxCostUsd.value)
  }

  ghost predicate EvidenceFits(r: Run, n: nat, s: RunState)
    requires ValidRun(r) && n <= |r.selected| && |s.results| == n
  {
    EmbeddedBytes(r, s.results, n) <= s.embeddedSmokeBytes <= MAX_EMBEDDED_SMOKE_BYTES
  }

  ghost predicate Frugal(r: Run, n: nat, s: RunState)
    requires ValidRun(r) && n <= |r.selected|
  {
    Bounded(r, s) && ViolationsStop(n, s) && OwnCapsSuffice(r, n, s) && EvidenceFits(r, n, s)
  }

  lemma {:induction false} EmbeddedBytesFrame(r: Run, rows: seq<CaseResult>, rows': seq<CaseResult>, n: nat)
    requires ValidRun(r) && n <= |r.selected| && n <= |rows| && n <= |rows'|
    requires forall i :: 0 <= i < n ==> rows'[i].execution == rows[i].execution
    ensures EmbeddedBytes(r, rows', n) == EmbeddedBytes(r, rows, n)
  {
    hide ValidManifest;
    if n > 0 {
      EmbeddedBytesFrame(r, rows, rows', n - 1);
    }
  }

  lemma RowsKept(c: Case, b: ManifestBudget, s: RunState, o: Observation, s': RunState)
    requires StepFacts(c, b, s, o, s')
    ensures |s'.results| == |s.results| + 1
    ensures forall i :: 0 <= i < |s.results| ==> s'.results[i] == s.results[i]
  {
    hide Called;
    hide Stopped;
    var n := |s.results|;
    assert forall i :: 0 <= i < n ==> s'.results[..n][i] == s'.results[i];
  }

  lemma BoundedStep(r: Run, n: nat, s: RunState, s': RunState)
    requires ValidRun(r) && n < |r.selected| && Bounded(r, s) && |s.results| == n
    requires StepFacts(CaseAt(r, n), r.manifest.budget, s, r.observations[n], s')
    ensures Bounded(r, s')
  {
    hide ObservedTokens;
    hide ObservedCost;
    hide SaturatingCost;
    hide ValidManifest;
    hide Spawns;
    if s'.invocations != s.invocations {
      assert HadRoom(r, s'.invocations[|s.invocations|]);
    }
  }

  lemma ViolationsStep(r: Run, n: nat, s: RunState, s': RunState)
    requires ValidRun(r) && n < |r.selected| && ViolationsStop(n, s)
    requires forall k :: 0 <= k < |s.invocations| ==> s.invocations[k].ordinal < n
    requires StepFacts(CaseAt(r, n), r.manifest.budget, s, r.observations[n], s')
    ensures ViolationsStop(n + 1, s')
  {
    hide ObservedTokens;
    hide ObservedCost;
    hide SaturatingCost;
    hide ValidManifest;
    hide Spawns;
    RowsKept(CaseAt(r, n), r.manifest.budget, s, r.observations[n], s');
  }

  lemma CostSaturates(total: real, cost: real)
    ensures SaturatingCost(total, cost) <= total + cost
  {
  }

  lemma OwnTokensStep(r: Run, n: nat, s: RunState, s': RunState)
    requires ValidRun(r) && n < |r.selected| && |s.results| == n && OwnCapsSuffice(r, n, s)
    requires StepFacts(CaseAt(r, n), r.manifest.budget, s, r.observations[n], s')
    requires forall i :: 0 <= i < n + 1 ==> WithinOwnCap(CaseAt(r, i), s'.results[i])
    ensures s'.budget.observedTokens <= r.manifest.budget.maxTokens
  {
    hide ObservedTokens;
    hide ObservedCost;
    assert r.manifest.budget.maxTokens <= U64_MAX;
    hide ValidManifest;
    hide Spawns;
    hide SaturatingCost;
    hide WithinOwnCostCap;
    RowsKept(CaseAt(r, n), r.manifest.budget, s, r.observations[n], s');
    assert WithinOwnCap(CaseAt(r, n), s'.results[n]);
    assert forall i :: 0 <= i < n ==> WithinOwnCap(CaseAt(r, i), s.results[i]);
  }

  lemma OwnCostStep(r: Run, n: nat, s: RunState, s': RunState)
    requires ValidRun(r) && n < |r.selected| && |s.results| == n && OwnCapsSuffice(r, n, s)
    requires StepFacts(CaseAt(r, n), r.manifest.budget, s, r.observations[n], s')
    requires r.manifest.budget.maxCostUsd.Some?
    requires forall i :: 0 <= i < n + 1 ==> WithinOwnCostCap(CaseAt(r, i), s'.results[i])
    ensures s'.budget.observedCostUsd <= r.manifest.budget.maxCostUsd.value
  {
    hide ObservedTokens;
    hide ObservedCost;
    hide ValidManifest;
    hide Spawns;
    hide SaturatingTokens;
    hide SaturatingCost;
    hide WithinOwnCap;
    var row := s'.results[n];
    RowsKept(CaseAt(r, n), r.manifest.budget, s, r.observations[n], s');
    assert WithinOwnCostCap(CaseAt(r, n), row);
    assert forall i :: 0 <= i < n ==> WithinOwnCostCap(CaseAt(r, i), s.results[i]);
    if row.smoke.Some? && ObservedCost(row.smoke.value).Usd? {
      CostSaturates(s.budget.observedCostUsd, ObservedCost(row.smoke.value).amount);
    }
  }

  lemma OwnCapsStep(r: Run, n: nat, s: RunState, s': RunState)
    requires ValidRun(r) && n < |r.selected| && |s.results| == n && OwnCapsSuffice(r, n, s)
    requires StepFacts(CaseAt(r, n), r.manifest.budget, s, r.observations[n], s')
    ensures |s'.results| == n + 1 && OwnCapsSuffice(r, n + 1, s')
  {
    RowsKept(CaseAt(r, n), r.manifest.budget, s, r.observations[n], s');
    hide ValidManifest;
    hide StepFacts;
    hide WithinOwnCap;
    hide WithinOwnCostCap;
    if forall i :: 0 <= i < n + 1 ==> WithinOwnCap(CaseAt(r, i), s'.results[i]) {
      OwnTokensStep(r, n, s, s');
    }
    if r.manifest.budget.maxCostUsd.Some? && forall i :: 0 <= i < n + 1 ==>
        WithinOwnCostCap(CaseAt(r, i), s'.results[i]) {
      OwnCostStep(r, n, s, s');
    }
  }

  lemma EvidenceStep(r: Run, n: nat, s: RunState, s': RunState)
    requires ValidRun(r) && n < |r.selected| && |s.results| == n && EvidenceFits(r, n, s)
    requires StepFacts(CaseAt(r, n), r.manifest.budget, s, r.observations[n], s')
    ensures EvidenceFits(r, n + 1, s')
  {
    hide ObservedTokens;
    hide ObservedCost;
    hide SaturatingCost;
    hide ValidManifest;
    hide Spawns;
    RowsKept(CaseAt(r, n), r.manifest.budget, s, r.observations[n], s');
    EmbeddedBytesFrame(r, s.results, s'.results, n);
  }

  lemma InitiallyFrugal(r: Run)
    requires ValidRun(r)
    ensures Frugal(r, 0, InitialState(r.manifest.budget))
  {
    assert r.manifest.budget.maxTokens > 0 && (r.manifest.budget.maxCostUsd.Some? ==>
                                                 r.manifest.budget.maxCostUsd.value > 0.0);
    hide ValidManifest;
  }

  /** Every prefix of every run spends within its budget discipline. */
  lemma {:induction false} RunIsFrugal(r: Run, n: nat, acceptable: string -> bool)
    requires ValidRun(r) && n <= |r.selected|
    ensures Frugal(r, n, StateAfter(r, n, acceptable))
  {
    hide RunCase;
    hide StepFacts;
    hide ValidManifest;
    hide Bounded;
    hide OwnCapsSuffice;
    hide EvidenceFits;
    hide RowFor;
    hide SpawnAllowed;
    hide SpawnedFor;
    if n == 0 {
      InitiallyFrugal(r);
    } else {
      RunIsFrugal(r, n - 1, acceptable);
      RunIsDisciplined(r, n - 1, acceptable);
      BudgetIsConfigured(r, n - 1, acceptable);
      var s, s' := StateAfter(r, n - 1, acceptable), StateAfter(r, n, acceptable);
      RunCaseFacts(CaseAt(r, n - 1), r.manifest.budget, s, r.observations[n - 1], acceptable);
      BoundedStep(r, n - 1, s, s');
      ViolationsStep(r, n - 1, s, s');
      hide ViolationsStop;
      hide Disciplined;
      RowsKept(CaseAt(r, n - 1), r.manifest.budget, s, r.observations[n - 1], s');
      OwnCapsStep(r, n - 1, s, s');
      EvidenceStep(r, n - 1, s, s');
    }
  }

  // ---- The finished aggregate ----

  lemma RewriteKeepsRows(rows: seq<CaseResult>)
    ensures |RewriteOnCancellation(rows)| == |rows|
    ensures forall i :: 0 <= i < |rows| ==>
              var row := RewriteOnCancellation(rows)[i];
              && row == rows[i].(drift := row.drift, expectationMet := row.expectationMet,
                                 candidateOutcome := row.candidateOutcome)
              && (row != rows[i] ==> row == Interrupted(rows[i]) && rows[i].execution == Completed
                                     && rows[i].lane == FloatingCurrent)
  {
    LastCompletedIsCompleted(rows, |rows|);
  }

  lemma {:induction false} LastCompletedIsCompleted(rows: seq<CaseResult>, n: nat)
    requires n <= |rows|
    ensures var last := LastCompleted(rows, n);
            && (last != 0 ==> rows[last - 1].execution == Completed)
            && (forall i :: last <= i < n ==> rows[i].execution != Completed)
  {
    if n > 0 && rows[n - 1].execution != Completed {
      LastCompletedIsCompleted(rows, n - 1);
    }
  }

  /**
   * Every run yields one row per selected case, in selection order; at most one of them is a runner
   * failure and every row after it was not run; at most one carries a budget violation and no row after it
   * completed. A successful run spent no more tokens and no more money than the manifest allows.
   */
  lemma AggregateIsSafe(r: Run, acceptable: string -> bool)
    requires ValidRun(r)
    ensures var a := AggregateOf(r, acceptable);
            && |a.results| == |r.selected|
            && (forall i :: 0 <= i < |a.results| ==> RowFor(CaseAt(r, i), a.results[i]))
            && (forall i, j :: 0 <= i < j < |a.results| && a.results[i].execution == RunnerFailure ==>
                  a.results[j].execution == NotRun)
            && (forall i, j :: 0 <= i < j < |a.results| && a.results[i].budgetViolations != [] ==>
                  a.results[j].execution != Completed && a.results[j].budgetViolations == [])
            && (a.success ==>
                  && a.budget.observedTokens <= r.manifest.budget.maxTokens
                  && (r.manifest.budget.maxCostUsd.Some? ==>
                        a.budget.observedCostUsd <= r.manifest.budget.maxCostUsd.value))
  {
    hide StateAfter;
    hide ValidManifest;
    hide RewriteOnCancellation;
    hide Interrupted;
    hide SummaryOf;
    hide RowFor;
    hide OwnCapsSuffice;
    hide EvidenceFits;
    hide HadRoom;
    hide SpawnAllowed;
    hide SpawnedFor;
    var s, rows := StateAfter(r, |r.selected|, acceptable), AggregateOf(r, acceptable).results;
    RunIsDisciplined(r, |r.selected|, acceptable);
    RunIsFrugal(r, |r.selected|, acceptable);
    RewriteKeepsRows(s.results);
    forall i | 0 <= i < |rows|
      ensures rows[i].execution == s.results[i].execution && rows[i].budgetViolations == s.results[i].budgetViolations
      ensures RowFor(CaseAt(r, i), rows[i])
    {
      SameRowFor(CaseAt(r, i), s.results[i], rows[i]);
    }
  }

  lemma SameRowFor(c: Case, row: CaseResult, row': CaseResult)
    requires RowFor(c, row)
    requires row' == row.(drift := row'.drift, expectationMet := row'.expectationMet,
                          candidateOutcome := row'.candidateOutcome)
    ensures RowFor(c, row')
  {
  }
}

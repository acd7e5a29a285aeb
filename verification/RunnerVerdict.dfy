/** What the rows, the budget and the verdict of a run mean, in terms of what was observed. */
module RunnerVerdict {
  import opened Prelude
  import opened Json
  import opened SmokeEvidence
  import opened Runner
  import opened RunnerSafety

  // ---- What a row says ----

  /** The evidence says of itself that it succeeded. */
  predicate SaysSuccess(smoke: Json) {
    smoke.JObject? && "success" in smoke.fields && smoke.fields["success"] == JBool(true)
  }

  lemma SuccessIsSaid(smoke: Json)
    ensures Succeeded(smoke) <==> SaysSuccess(smoke)
  {
  }

  /** A completed row: its status is the one of its evidence, and it meets its expectation without reservation. */
  ghost predicate CompletedHonestly(row: CaseResult) {
    && row.smoke.Some? && row.notRunReason.None? && row.runnerErrorCode.None?
    && row.actualStatus == (if SaysSuccess(row.smoke.value) then Pass else Fail)
    && (row.expectationMet <==>
          row.actualStatus == row.expectedStatus && row.drift == [] && row.budgetViolations == [])
    && (row.lane == FloatingCurrent ==>
          && (row.candidateOutcome == Some(CandidatePass) <==>
                row.actualStatus == Pass && row.drift == [] && row.budgetViolations == [])
          && (row.candidateOutcome == Some(CandidateFail) <==>
                row.actualStatus == Fail && row.drift == [] && row.budgetViolations == [])
          && (row.candidateOutcome == Some(CandidateUnknown) <==> row.drift != [] || row.budgetViolations != []))
  }

  /** A row without evidence claims nothing. Only a case that expects not to be judged meets its expectation so. */
  ghost predicate NotJudged(row: CaseResult) {
    && row.smoke.None? && row.drift == [] && row.budgetViolations == []
    && (row.lane == FloatingCurrent ==> row.candidateOutcome == Some(CandidateUnknown))
    && (row.execution == NotRun ==>
          && row.notRunReason.Some? && row.runnerErrorCode.None?
          && row.actualStatus == (if row.expectedStatus == Stale then Stale else Unknown)
          && (row.expectationMet <==> row.expectedStatus == Stale || row.expectedStatus == Unknown))
    && (row.execution == RunnerFailure ==>
          row.runnerErrorCode.Some? && row.notRunReason.None? && row.actualStatus == Unknown && !row.expectationMet)
  }

  ghost predicate HonestRow(c: Case, row: CaseResult) {
    && RowFor(c, row) && row.expectedStatus == c.expectedStatus
    && (row.lane == Pinned ==> row.candidateOutcome.None?)
    && if row.execution == Completed then CompletedHonestly(row) else NotJudged(row)
  }

  lemma UnrunIsHonest(c: Case, text: string)
    ensures HonestRow(c, NotRunResult(c, text)) && HonestRow(c, RunnerFailureResult(c, text))
  {
  }

  lemma CompletedIsHonest(c: Case, smoke: Json, violations: seq<Violation>, acceptable: string -> bool)
    ensures HonestRow(c, CompletedResult(c, smoke, violations, acceptable))
  {
    SuccessIsSaid(smoke);
    hide DriftFor;
    hide FloatingDrift;
    hide Succeeded;
    hide SaysSuccess;
  }

  lemma SettledHonestly(c: Case, b: ManifestBudget, s: RunState, o: Observation, processSuccess: bool, smoke: Json,
                        acceptable: string -> bool)
    ensures var s' := Settle(c, b, s, o, processSuccess, smoke, acceptable);
            |s'.results| == |s.results| + 1 && HonestRow(c, s'.results[|s.results|])
  {
    hide ValidSmokeShape;
    hide Succeeded;
    hide Account;
    hide CompletedResult;
    hide RunnerFailureResult;
    hide HonestRow;
    hide WithFailure;
    hide WithRow;
    if !ValidSmokeShape(smoke, c) {
      FailureIsHonest(c, s, "smoke_artifact_schema_mismatch");
    } else if o.holdsSecret {
      FailureIsHonest(c, s, "smoke_artifact_secret_rejected");
    } else if o.serializedBytes.None? {
      FailureIsHonest(c, s, "smoke_artifact_serialization_failed");
    } else if s.embeddedSmokeBytes + o.serializedBytes.value > MAX_EMBEDDED_SMOKE_BYTES {
      FailureIsHonest(c, s, "aggregate_smoke_evidence_limit_exceeded");
    } else {
      var counted := s.(embeddedSmokeBytes := s.embeddedSmokeBytes + o.serializedBytes.value);
      if processSuccess != Succeeded(smoke) {
        FailureIsHonest(c, counted, "smoke_exit_artifact_mismatch");
      } else {
        var (budget, violations) := Account(c, b, s.budget, smoke, o);
        CompletedIsHonest(c, smoke, violations, acceptable);
        RowIsLast(counted.(budget := budget), CompletedResult(c, smoke, violations, acceptable));
      }
    }
  }

  lemma FailureIsHonest(c: Case, s: RunState, code: string)
    ensures var s' := WithFailure(s, c, code);
            |s'.results| == |s.results| + 1 && HonestRow(c, s'.results[|s.results|])
  {
    hide HonestRow;
    hide RunnerFailureResult;
    UnrunIsHonest(c, code);
  }

  lemma RowIsLast(s: RunState, row: CaseResult)
    ensures var s' := WithRow(s, row); |s'.results| == |s.results| + 1 && s'.results[|s.results|] == row
  {
  }

  lemma StepIsHonest(c: Case, b: ManifestBudget, s: RunState, o: Observation, acceptable: string -> bool)
    ensures var s' := RunCase(c, b, s, o, acceptable);
            |s'.results| == |s.results| + 1 && HonestRow(c, s'.results[|s.results|])
  {
    hide Settle;
    hide Invoke;
    hide NotRunResult;
    hide RunnerFailureResult;
    hide HonestRow;
    hide GateOf;
    forall text ensures HonestRow(c, NotRunResult(c, text)) && HonestRow(c, RunnerFailureResult(c, text)) {
      UnrunIsHonest(c, text);
    }
    var invocation := Invoke(c, b, o);
    if GateOf(c, b, s, o).Open? && invocation.notRunReason.None? && invocation.artifact.Some? {
      var call := Invocation(|s.results|, s.budget.observedTokens, s.budget.observedCostUsd, Spawns(c, b, o));
      SettledHonestly(c, b, s.(invocations := s.invocations + [call]), o, invocation.processSuccess,
                      invocation.artifact.value, acceptable);
    }
  }

  /** In every prefix of every run, every row says no more and no less than its evidence. */
  lemma {:induction false} RowsAreHonest(r: Run, n: nat, acceptable: string -> bool)
    requires ValidRun(r) && n <= |r.selected|
    ensures var rows := StateAfter(r, n, acceptable).results;
            |rows| == n && forall i :: 0 <= i < n ==> HonestRow(CaseAt(r, i), rows[i])
  {
    hide RunCase;
    hide HonestRow;
    hide StepFacts;
    hide ValidManifest;
    if n > 0 {
      RowsAreHonest(r, n - 1, acceptable);
      var s := StateAfter(r, n - 1, acceptable);
      StepIsHonest(CaseAt(r, n - 1), r.manifest.budget, s, r.observations[n - 1], acceptable);
      StateAfterFacts(r, n - 1, acceptable);
      RowsKept(CaseAt(r, n - 1), r.manifest.budget, s, r.observations[n - 1], StateAfter(r, n, acceptable));
    }
  }

  // ---- Cancellation ----

  /** The last of the completed rows. */
  ghost predicate IsLastCompleted(rows: seq<CaseResult>, i: nat) {
    && i < |rows| && rows[i].execution == Completed
    && forall j :: i < j < |rows| ==> rows[j].execution != Completed
  }

  /** What a cancellation makes of a floating row it may have interrupted. */
  ghost predicate NoLongerDefinitive(row: CaseResult, row': CaseResult) {
    && row' == row.(drift := row'.drift, expectationMet := false, candidateOutcome := Some(CandidateUnknown))
    && row.drift <= row'.drift && OutcomeCancellation in row'.drift
    && (OutcomeCancellation in row.drift ==> row'.drift == row.drift)
    && (OutcomeCancellation !in row.drift ==> row'.drift == row.drift + [OutcomeCancellation])
  }

  /** Exactly the last completed row is rewritten, and only if it floats. */
  lemma CancellationRewrites(rows: seq<CaseResult>)
    ensures |RewriteOnCancellation(rows)| == |rows|
    ensures forall i :: 0 <= i < |rows| ==>
              if IsLastCompleted(rows, i) && rows[i].lane == FloatingCurrent
              then NoLongerDefinitive(rows[i], RewriteOnCancellation(rows)[i])
              else RewriteOnCancellation(rows)[i] == rows[i]
  {
    LastCompletedIsCompleted(rows, |rows|);
  }

  // ---- The verdict of the run ----

  /** A row that a successful run may have. */
  predicate Passes(row: CaseResult) {
    && row.execution != RunnerFailure
    && (row.lane == Pinned && row.classification == Support ==>
          row.execution == Completed && row.actualStatus == row.expectedStatus && row.drift == []
          && row.budgetViolations == [])
    && (row.lane == FloatingCurrent ==> row.candidateOutcome == Some(CandidatePass))
  }

  lemma PinnedStays(rows: seq<CaseResult>, i: nat)
    requires i < |rows| && rows[i].lane == Pinned
    ensures |RewriteOnCancellation(rows)| == |rows| && RewriteOnCancellation(rows)[i] == rows[i]
  {
    CancellationRewrites(rows);
    hide RewriteOnCancellation;
  }

  lemma PinnedExpectation(c: Case, row: CaseResult)
    requires HonestRow(c, row) && row.lane == Pinned && row.classification == Support
    ensures !FailedPinned(row) <==>
              row.execution == Completed && row.actualStatus == row.expectedStatus && row.drift == []
              && row.budgetViolations == []
  {
    hide SaysSuccess;
  }

  /**
   * A run succeeds exactly when no row is a runner failure, every pinned case of the supported kind completed with
   * the status it expects, without drift and within its budgets, every floating case passed, no budget was
   * exhausted, not even by the time the run ended, and nothing was cancelled.
   */
  lemma SucceedsExactly(r: Run, acceptable: string -> bool)
    requires ValidRun(r)
    ensures var a := AggregateOf(r, acceptable);
            a.success <==> (forall i :: 0 <= i < |a.results| ==> Passes(a.results[i]))
                           && !a.budget.exhausted && !a.cancelled
    ensures AggregateOf(r, acceptable).cancelled == r.cancelledAtEnd
    ensures AggregateOf(r, acceptable).budget.exhausted <==>
              StateAfter(r, |r.selected|, acceptable).budget.exhausted
              || r.finalElapsedMs > r.manifest.budget.timeoutSecs * 1_000
  {
    hide StateAfter;
    hide ValidManifest;
    hide RewriteOnCancellation;
    hide SummaryOf;
    hide HonestRow;
    hide FailedPinned;
    var s, rows := StateAfter(r, |r.selected|, acceptable), AggregateOf(r, acceptable).results;
    RowsAreHonest(r, |r.selected|, acceptable);
    CancellationRewrites(s.results);
    forall i | 0 <= i < |rows| && rows[i].lane == Pinned && rows[i].classification == Support
      ensures !FailedPinned(rows[i]) <==>
                rows[i].execution == Completed && rows[i].actualStatus == rows[i].expectedStatus && rows[i].drift == []
                && rows[i].budgetViolations == []
    {
      assert rows[i] == s.results[i];
      PinnedExpectation(CaseAt(r, i), s.results[i]);
    }
    forall i | 0 <= i < |rows| && !(rows[i].lane == Pinned && rows[i].classification == Support)
      ensures !FailedPinned(rows[i])
    {
      OnlyPinnedFail(rows[i]);
    }
  }

  lemma OnlyPinnedFail(row: CaseResult)
    ensures FailedPinned(row) ==> row.lane == Pinned && row.classification == Support
  {
  }

  // ---- The summary ----

  /** Where the rows with a verdict are. */
  function IndicesOf(rows: seq<CaseResult>, outcome: CandidateOutcome): set<int> {
    set i | 0 <= i < |rows| && rows[i].candidateOutcome == Some(outcome)
  }

  lemma {:induction false} OutcomesAreCounted(rows: seq<CaseResult>, outcome: CandidateOutcome)
    ensures CountOutcome(rows, outcome) == |IndicesOf(rows, outcome)|
  {
    if rows == [] {
      assert IndicesOf(rows, outcome) == {};
    } else {
      var last, before := |rows| - 1, rows[..|rows| - 1];
      OutcomesAreCounted(before, outcome);
      OneMoreIndex(rows, outcome);
      hide IndicesOf;
    }
  }

  lemma OneMoreIndex(rows: seq<CaseResult>, outcome: CandidateOutcome)
    requires rows != []
    ensures |IndicesOf(rows, outcome)|
         == |IndicesOf(rows[..|rows| - 1], outcome)|
            + if rows[|rows| - 1].candidateOutcome == Some(outcome) then 1 else 0
  {
    var last, before := |rows| - 1, rows[..|rows| - 1];
    var fewer, more := IndicesOf(before, outcome), IndicesOf(rows, outcome);
    forall i ensures i in fewer <==> i in more && i != last {
      assert 0 <= i < last ==> before[i] == rows[i];
    }
    if rows[last].candidateOutcome == Some(outcome) {
      assert more == fewer + {last} && last !in fewer;
    } else {
      assert last !in more;
      assert more == fewer;
    }
  }

  /** The summary of a run counts its floating rows by verdict; a run without any has none. */
  lemma SummaryCounts(rows: seq<CaseResult>)
    ensures SummaryOf(rows).Some? <==> exists i :: 0 <= i < |rows| && rows[i].candidateOutcome.Some?
    ensures SummaryOf(rows).Some? ==>
              var summary := SummaryOf(rows).value;
              && summary.pass == |IndicesOf(rows, CandidatePass)| && summary.fail == |IndicesOf(rows, CandidateFail)|
              && summary.unknown == |IndicesOf(rows, CandidateUnknown)|
  {
    OutcomesAreCounted(rows, CandidatePass);
    OutcomesAreCounted(rows, CandidateFail);
    OutcomesAreCounted(rows, CandidateUnknown);
    hide CountOutcome;
    forall outcome
      ensures |IndicesOf(rows, outcome)| > 0 <==>
                exists i :: 0 <= i < |rows| && rows[i].candidateOutcome == Some(outcome)
    {
      if i :| 0 <= i < |rows| && rows[i].candidateOutcome == Some(outcome) {
        assert i in IndicesOf(rows, outcome);
      } else {
        assert IndicesOf(rows, outcome) == {};
      }
    }
    hide IndicesOf;
    if i :| 0 <= i < |rows| && rows[i].candidateOutcome.Some? {
      var outcome := rows[i].candidateOutcome.value;
      assert rows[i].candidateOutcome == Some(outcome);
      assert |IndicesOf(rows, outcome)| > 0;
      assert outcome == CandidatePass || outcome == CandidateFail || outcome == CandidateUnknown;
    }
  }
}

/** What it means for an artifact, wherever it comes from, to be accepted by the checker of floating aggregates. */
module CheckerMeaning {
  import opened Prelude
  import opened Json
  import opened SmokeEvidence
  import opened Runner
  import opened EvidenceMeaning
  import opened DriftMeaning
  import opened RunnerVerdict
  import opened Checker

  // ---- The verdict of one row ----

  /** The row is complete, and nothing in it speaks against its evidence. */
  ghost predicate Undisputed(row: CaseResult) {
    row.execution == Completed && row.drift == [] && row.budgetViolations == [] && row.smoke.Some?
  }

  /** The request states the text, or states none. */
  ghost predicate Requested(smoke: Json, field: string, text: Option<string>) {
    if text.Some? then Has(smoke, ["request", field], JString(text.value))
    else forall other :: !Has(smoke, ["request", field], JString(other))
  }

  /** The catalog offers what the request itself states. */
  ghost predicate OffersRequested(smoke: Json, acceptable: string -> bool) {
    exists model, effort, mode ::
      && AskedModel(smoke, model) && Requested(smoke, "effort", effort) && Requested(smoke, "mode", mode)
      && ValidAvailableCatalog(smoke, model, effort, mode, acceptable)
  }

  /** The provenance of the agent that the request names states what the candidate was resolved to. */
  ghost predicate RanResolved(smoke: Json, resolved: ResolvedBinding) {
    && StatesConfig(smoke, resolved.configSha256)
    && exists agent ::
         && Has(smoke, ["request", "agent"], JString(agent))
         && ProvenancePackageMatches(smoke, agent, "adapter", resolved.adapter)
         && ProvenancePackageMatches(smoke, agent, "agent-cli", resolved.agentCli)
         && (resolved.imageDigest.Some? ==> Image(smoke, agent, resolved.imageDigest.value))
  }

  lemma TextIs(smoke: Json, path: seq<string>)
    ensures forall text :: TextAt(smoke, path) == Some(text) <==> Has(smoke, path, JString(text))
  {
    forall text ensures TextAt(smoke, path) == Some(text) <==> Has(smoke, path, JString(text)) {
      TextExactly(smoke, path, text);
    }
  }

  lemma RequestedIs(smoke: Json, field: string, text: Option<string>)
    ensures Requested(smoke, field, text) <==> TextAt(smoke, ["request", field]) == text
  {
    TextIs(smoke, ["request", field]);
    hide TextAt;
    hide Has;
  }

  lemma OffersIs(smoke: Json, acceptable: string -> bool)
    ensures var model := TextAt(smoke, ["request", "model"]);
            OffersRequested(smoke, acceptable) <==>
              && model.Some?
              && ValidAvailableCatalog(smoke, model.value, TextAt(smoke, ["request", "effort"]),
                                       TextAt(smoke, ["request", "mode"]), acceptable)
  {
    var model, effort, mode := TextAt(smoke, ["request", "model"]), TextAt(smoke, ["request", "effort"]),
      TextAt(smoke, ["request", "mode"]);
    TextIs(smoke, ["request", "model"]);
    forall text { RequestedIs(smoke, "effort", text); }
    forall text { RequestedIs(smoke, "mode", text); }
    hide TextAt;
    hide Has;
    hide Requested;
    hide ValidAvailableCatalog;
    if model.Some? {
      assert AskedModel(smoke, model.value) && Requested(smoke, "effort", effort) && Requested(smoke, "mode", mode);
    }
  }

  lemma RanResolvedIs(smoke: Json, resolved: ResolvedBinding)
    ensures RanResolved(smoke, resolved) <==> ResolvedMatches(smoke, resolved)
  {
    ConfigExactly(smoke, resolved.configSha256);
    TextIs(smoke, ["request", "agent"]);
    hide TextAt;
    hide Has;
    hide StatesConfig;
    hide ProvenancePackageMatches;
    hide ProvenanceField;
  }

  ghost predicate ShowsPass(row: CaseResult, acceptable: string -> bool) {
    && Undisputed(row) && row.actualStatus == Pass && row.resolved.Some?
    && AnsweredCleanly(row.smoke.value) && RanResolved(row.smoke.value, row.resolved.value)
    && OffersRequested(row.smoke.value, acceptable)
  }

  ghost predicate ShowsFail(row: CaseResult, acceptable: string -> bool) {
    && Undisputed(row) && row.actualStatus == Fail && FailedCleanly(row.smoke.value)
    && OffersRequested(row.smoke.value, acceptable)
  }

  /**
   * The verdict recomputed of any row: a pass exactly for an undisputed row that says pass and whose evidence shows
   * a clean answer, by what the candidate was resolved to, under a catalog that offers the request; a failure
   * exactly for an undisputed row that says fail and whose evidence shows a clean failure under such a catalog.
   */
  lemma RecomputedExactly(row: CaseResult, acceptable: string -> bool)
    ensures RecomputeCandidateOutcome(row, acceptable) == CandidatePass <==> ShowsPass(row, acceptable)
    ensures RecomputeCandidateOutcome(row, acceptable) == CandidateFail <==> ShowsFail(row, acceptable)
  {
    if Undisputed(row) {
      PassExactly(row, acceptable);
      FailExactly(row, acceptable);
    }
    hide FloatingSuccessContract;
    hide FloatingFailureContract;
    hide ValidAvailableCatalog;
    hide ResolvedMatches;
    hide TextAt;
    hide OffersRequested;
    hide RanResolved;
    hide AnsweredCleanly;
    hide FailedCleanly;
  }

  lemma PassIs(row: CaseResult, acceptable: string -> bool)
    requires Undisputed(row)
    ensures var smoke := row.smoke.value;
            var model := TextAt(smoke, ["request", "model"]);
            RecomputeCandidateOutcome(row, acceptable) == CandidatePass <==>
              && row.actualStatus == Pass && row.resolved.Some? && model.Some?
              && ResolvedMatches(smoke, row.resolved.value) && FloatingSuccessContract(smoke)
              && ValidAvailableCatalog(smoke, model.value, TextAt(smoke, ["request", "effort"]),
                                       TextAt(smoke, ["request", "mode"]), acceptable)
  {
    hide ResolvedMatches;
    hide FloatingSuccessContract;
    hide FloatingFailureContract;
    hide ValidAvailableCatalog;
    hide TextAt;
  }

  lemma PassExactly(row: CaseResult, acceptable: string -> bool)
    requires Undisputed(row)
    ensures RecomputeCandidateOutcome(row, acceptable) == CandidatePass <==> ShowsPass(row, acceptable)
  {
    var smoke := row.smoke.value;
    assert ShowsPass(row, acceptable) <==>
        && row.actualStatus == Pass && row.resolved.Some? && AnsweredCleanly(smoke)
        && RanResolved(smoke, row.resolved.value) && OffersRequested(smoke, acceptable) by {
      hide OffersRequested;
      hide RanResolved;
      hide AnsweredCleanly;
    }
    hide *;
    PassIs(row, acceptable);
    OffersIs(smoke, acceptable);
    SuccessContractExactly(smoke);
    if row.resolved.Some? {
      RanResolvedIs(smoke, row.resolved.value);
    }
  }

  lemma FailExactly(row: CaseResult, acceptable: string -> bool)
    requires Undisputed(row)
    ensures RecomputeCandidateOutcome(row, acceptable) == CandidateFail <==> ShowsFail(row, acceptable)
  {
    var smoke := row.smoke.value;
    OffersIs(smoke, acceptable);
    FailedSays(smoke);
    var model := TextAt(smoke, ["request", "model"]);
    if model.Some? {
      FailureContractExactly(smoke, model.value, TextAt(smoke, ["request", "effort"]),
                             TextAt(smoke, ["request", "mode"]), acceptable);
    }
    hide OffersRequested;
    hide ResolvedMatches;
    hide FailedCleanly;
    hide FloatingSuccessContract;
    hide FloatingFailureContract;
    hide ValidAvailableCatalog;
    hide TextAt;
  }

  lemma FailedSays(smoke: Json)
    ensures FailedCleanly(smoke) ==> AsBool(Get(smoke, "success")) == Some(false)
  {
    BoolExactly(smoke, ["success"], false);
    FieldIsPath(smoke, "success");
    hide Has;
  }

  // ---- The whole artifact ----

  function Elements<T>(xs: seq<T>): set<T> {
    set i | 0 <= i < |xs| :: xs[i]
  }

  predicate Distinct<T(==)>(xs: seq<T>) {
    forall i, j :: 0 <= i < j < |xs| ==> xs[i] != xs[j]
  }

  /** A list has as many elements as places exactly when it repeats none. */
  lemma {:induction false} DistinctExactly<T>(xs: seq<T>)
    ensures |Elements(xs)| <= |xs|
    ensures |Elements(xs)| == |xs| <==> Distinct(xs)
  {
    if xs == [] {
      assert Elements(xs) == {};
    } else {
      var last, before := xs[|xs| - 1], xs[..|xs| - 1];
      DistinctExactly(before);
      OneMoreElement(xs);
      hide Elements;
      assert forall i :: 0 <= i < |before| ==> before[i] == xs[i];
    }
  }

  lemma OneMoreElement<T>(xs: seq<T>)
    requires xs != []
    ensures var last, before := xs[|xs| - 1], xs[..|xs| - 1];
            && |Elements(xs)| == |Elements(before)| + (if last in before then 0 else 1)
            && (last in before <==> exists i :: 0 <= i < |xs| - 1 && xs[i] == last)
  {
    var last, before := xs[|xs| - 1], xs[..|xs| - 1];
    assert Elements(xs) == Elements(before) + {last};
    if last in before {
      var i :| 0 <= i < |before| && before[i] == last;
      assert xs[i] == last;
      assert Elements(xs) == Elements(before);
    }
  }

  function CaseIds(rows: seq<CaseResult>): seq<string> {
    seq(|rows|, i requires 0 <= i < |rows| => rows[i].caseId)
  }

  function BaselineIds(rows: seq<CaseResult>): seq<Option<string>> {
    seq(|rows|, i requires 0 <= i < |rows| => rows[i].baselineCaseId)
  }

  /** The rows of an artifact, counted by what their evidence shows. */
  ghost function Showing(rows: seq<CaseResult>, verdict: CandidateOutcome, acceptable: string -> bool): set<int> {
    set i | 0 <= i < |rows| && RecomputeCandidateOutcome(rows[i], acceptable) == verdict
  }

  /** The row is of the resolution that the artifact names and says what its evidence shows. */
  ghost predicate Truthful(row: CaseResult, resolution: ResolutionRecord, rules: ShapeRules,
                           acceptable: string -> bool)
  {
    && row.lane == FloatingCurrent && row.baselineCaseId.Some?
    && row.candidateOutcome == Some(RecomputeCandidateOutcome(row, acceptable))
    && row.resolved.Some? && rules.binding(row.resolved.value)
    && row.resolved.value.resolutionId == resolution.resolutionId
    && row.resolved.value.recipeSha256 == resolution.recipeSha256
  }

  /** The identity of the artifact: what was run, of which manifest and resolution, and that it is all of it. */
  ghost predicate Identified(h: Header, resolution: ResolutionRecord, rules: ShapeRules) {
    && (forall digest :: digest in [h.candidateSha256, h.manifestSha256, resolution.artifactSha256,
                                    resolution.recipeSha256, resolution.productionManifestSha256] ==>
          |digest| == 64 && forall c :: c in digest ==> c in "0123456789abcdef")
    && h.candidateBytes > 0 && h.schemaVersion == h.manifestSchemaVersion == 1
    && h.selectsAll && h.selectedLane == None && h.selectedCases == [] && rules.stableId(resolution.resolutionId)
  }

  lemma DigestExactly(digest: string)
    ensures ValidDigest(digest) <==> |digest| == 64 && forall c :: c in digest ==> c in "0123456789abcdef"
  {
    forall c ensures LowerHex(c) <==> c in "0123456789abcdef" { HexExactly(c); }
    hide LowerHex;
  }

  lemma HexExactly(c: char)
    ensures LowerHex(c) <==> c in "0123456789abcdef"
  {
    assert c in "0123456789abcdef" <==>
           c in ['0', '1', '2', '3', '4', '5', '6', '7', '8', '9', 'a', 'b', 'c', 'd', 'e', 'f'];
  }

  lemma IdentifiedExactly(h: Header, resolution: ResolutionRecord, rules: ShapeRules)
    ensures ValidHeader(h, resolution, rules) <==> Identified(h, resolution, rules)
  {
    forall digest
      ensures ValidDigest(digest) <==> |digest| == 64 && forall c :: c in digest ==> c in "0123456789abcdef"
    {
      DigestExactly(digest);
    }
    hide ValidDigest;
  }

  ghost predicate AllTruthful(rows: seq<CaseResult>, resolution: ResolutionRecord, rules: ShapeRules,
                              acceptable: string -> bool)
  {
    forall i :: 0 <= i < |rows| ==> Truthful(rows[i], resolution, rules, acceptable)
  }

  ghost predicate AllShowPass(rows: seq<CaseResult>, acceptable: string -> bool) {
    forall i :: 0 <= i < |rows| ==> ShowsPass(rows[i], acceptable)
  }

  predicate AllPass(rows: seq<CaseResult>) {
    forall i :: 0 <= i < |rows| ==> rows[i].candidateOutcome == Some(CandidatePass)
  }

  predicate AllInOrder(rows: seq<CaseResult>, resolution: ResolutionRecord, rules: ShapeRules,
                       acceptable: string -> bool)
  {
    forall i :: 0 <= i < |rows| ==> ResolvedRow(rows[i], resolution, acceptable) && BoundRow(rows[i], rules)
  }

  lemma RowsExactly(rows: seq<CaseResult>, resolution: ResolutionRecord, rules: ShapeRules,
                    acceptable: string -> bool)
    ensures AllInOrder(rows, resolution, rules, acceptable) <==> AllTruthful(rows, resolution, rules, acceptable)
  {
    hide RecomputeCandidateOutcome;
  }

  /** The demands of the checker, one after the other. */
  lemma DemandsAre(h: Header, a: Aggregate, resolution: ResolutionRecord, rules: ShapeRules,
                   acceptable: string -> bool)
    ensures ValidFloatingAggregate(h, a, resolution, rules, acceptable) <==>
              && ValidHeader(h, resolution, rules) && a.results != []
              && AllInOrder(a.results, resolution, rules, acceptable) && OnceEach(a.results)
              && a.floatingSummary == SummaryOf(a.results)
              && (a.success <==> AllPass(a.results) && !a.cancelled && !a.budget.exhausted)
  {
    hide ValidHeader;
    hide ResolvedRow;
    hide BoundRow;
    hide SummaryOf;
  }

  predicate OnceEach(rows: seq<CaseResult>) {
    && (forall i, j :: 0 <= i < j < |rows| ==> rows[i].caseId != rows[j].caseId)
    && (forall i, j :: 0 <= i < j < |rows| ==> rows[i].baselineCaseId != rows[j].baselineCaseId)
  }

  lemma IdsExactly(rows: seq<CaseResult>)
    ensures |Elements(CaseIds(rows))| == |Elements(BaselineIds(rows))| == |rows| <==> OnceEach(rows)
  {
    DistinctExactly(CaseIds(rows));
    DistinctExactly(BaselineIds(rows));
    hide Elements;
    var cases, baselines := CaseIds(rows), BaselineIds(rows);
    assert forall i :: 0 <= i < |rows| ==> cases[i] == rows[i].caseId && baselines[i] == rows[i].baselineCaseId;
  }

  /** The summary says how many rows show each verdict. */
  ghost predicate SumsUp(summary: Option<FloatingSummary>, rows: seq<CaseResult>, acceptable: string -> bool) {
    && summary.Some?
    && summary.value.pass == |Showing(rows, CandidatePass, acceptable)|
    && summary.value.fail == |Showing(rows, CandidateFail, acceptable)|
    && summary.value.unknown == |Showing(rows, CandidateUnknown, acceptable)|
  }

  lemma SumsUpExactly(summary: Option<FloatingSummary>, rows: seq<CaseResult>, resolution: ResolutionRecord,
                      rules: ShapeRules, acceptable: string -> bool)
    requires rows != [] && AllTruthful(rows, resolution, rules, acceptable)
    ensures summary == SummaryOf(rows) <==> SumsUp(summary, rows, acceptable)
  {
    hide SummaryOf;
    hide RecomputeCandidateOutcome;
    SummaryCounts(rows);
    assert rows[0].candidateOutcome.Some?;
    forall verdict ensures Showing(rows, verdict, acceptable) == IndicesOf(rows, verdict) {}
    hide Showing;
    hide IndicesOf;
    hide Truthful;
  }

  /**
   * An artifact is accepted exactly when it is identified, every row is truthful, every case and every baseline case
   * occurs once, the summary counts what the evidence of the rows shows, and success is claimed exactly for a run
   * within its budget that was not cancelled and in which the evidence of every row shows a pass.
   */
  lemma AcceptedExactly(h: Header, a: Aggregate, resolution: ResolutionRecord, rules: ShapeRules,
                        acceptable: string -> bool)
    ensures ValidFloatingAggregate(h, a, resolution, rules, acceptable) <==>
              && Identified(h, resolution, rules) && a.results != []
              && AllTruthful(a.results, resolution, rules, acceptable)
              && |Elements(CaseIds(a.results))| == |Elements(BaselineIds(a.results))| == |a.results|
              && SumsUp(a.floatingSummary, a.results, acceptable)
              && (a.success <==> AllShowPass(a.results, acceptable) && !a.cancelled && !a.budget.exhausted)
  {
    hide *;
    DemandsAre(h, a, resolution, rules, acceptable);
    IdentifiedExactly(h, resolution, rules);
    RowsExactly(a.results, resolution, rules, acceptable);
    IdsExactly(a.results);
    if a.results != [] && AllTruthful(a.results, resolution, rules, acceptable) {
      SumsUpExactly(a.floatingSummary, a.results, resolution, rules, acceptable);
      ClaimsExactly(a.results, resolution, rules, acceptable);
    }
  }

  lemma ClaimsExactly(rows: seq<CaseResult>, resolution: ResolutionRecord, rules: ShapeRules,
                      acceptable: string -> bool)
    requires AllTruthful(rows, resolution, rules, acceptable)
    ensures AllPass(rows) <==> AllShowPass(rows, acceptable)
  {
    hide RecomputeCandidateOutcome;
    hide ShowsPass;
    forall i | 0 <= i < |rows|
      ensures rows[i].candidateOutcome == Some(CandidatePass) <==> ShowsPass(rows[i], acceptable)
    {
      RecomputedExactly(rows[i], acceptable);
    }
  }

  /** The row with its verdict struck out. */
  function Evidence(row: CaseResult): CaseResult {
    row.(candidateOutcome := None)
  }

  lemma VerdictIsNotEvidence(row: CaseResult, acceptable: string -> bool)
    ensures RecomputeCandidateOutcome(row, acceptable) == RecomputeCandidateOutcome(Evidence(row), acceptable)
  {
    hide FloatingSuccessContract;
    hide FloatingFailureContract;
    hide ValidAvailableCatalog;
    hide ResolvedMatches;
    hide TextAt;
  }

  /**
   * No verdict can be changed without changing evidence: accepted artifacts with the same evidence, the same budget
   * and the same cancellation agree in every verdict, in the summary and in success.
   */
  lemma VerdictsAreDetermined(h: Header, a: Aggregate, b: Aggregate, resolution: ResolutionRecord, rules: ShapeRules,
                              acceptable: string -> bool)
    requires ValidFloatingAggregate(h, a, resolution, rules, acceptable)
    requires ValidFloatingAggregate(h, b, resolution, rules, acceptable)
    requires a.budget == b.budget && a.cancelled == b.cancelled && |a.results| == |b.results|
    requires forall i :: 0 <= i < |a.results| ==> Evidence(a.results[i]) == Evidence(b.results[i])
    ensures a == b
  {
    hide RecomputeCandidateOutcome;
    hide SummaryOf;
    hide BoundRow;
    hide ValidHeader;
    forall i | 0 <= i < |a.results| ensures a.results[i] == b.results[i] {
      VerdictIsNotEvidence(a.results[i], acceptable);
      VerdictIsNotEvidence(b.results[i], acceptable);
      assert ResolvedRow(a.results[i], resolution, acceptable) && ResolvedRow(b.results[i], resolution, acceptable);
    }
    assert a.results == b.results;
  }

  // ---- The check as the program makes it ----

  /** The row is in order and repeats no id of the rows before it. */
  predicate Next(rows: seq<CaseResult>, n: nat, resolution: ResolutionRecord, rules: ShapeRules,
                 acceptable: string -> bool)
    requires n < |rows|
  {
    && ResolvedRow(rows[n], resolution, acceptable) && BoundRow(rows[n], rules)
    && forall i :: 0 <= i < n ==> rows[i].caseId != rows[n].caseId && rows[i].baselineCaseId != rows[n].baselineCaseId
  }

  lemma EachIsNext(rows: seq<CaseResult>, resolution: ResolutionRecord, rules: ShapeRules, acceptable: string -> bool)
    ensures AllInOrder(rows, resolution, rules, acceptable) && OnceEach(rows) <==>
              forall n :: 0 <= n < |rows| ==> Next(rows, n, resolution, rules, acceptable)
  {
    hide ResolvedRow;
    hide BoundRow;
    if forall n :: 0 <= n < |rows| ==> Next(rows, n, resolution, rules, acceptable) {
      forall i, j | 0 <= i < j < |rows|
        ensures rows[i].caseId != rows[j].caseId && rows[i].baselineCaseId != rows[j].baselineCaseId
      {
        assert Next(rows, j, resolution, rules, acceptable);
      }
      forall i | 0 <= i < |rows|
        ensures ResolvedRow(rows[i], resolution, acceptable) && BoundRow(rows[i], rules)
      {
        assert Next(rows, i, resolution, rules, acceptable);
      }
    }
  }

  /** The rows are looked through once, with the ids seen so far at hand. */
  method ValidateRows(rows: seq<CaseResult>, resolution: ResolutionRecord, rules: ShapeRules,
                      acceptable: string -> bool) returns (accepted: bool)
    ensures accepted <==> AllInOrder(rows, resolution, rules, acceptable) && OnceEach(rows)
  {
    EachIsNext(rows, resolution, rules, acceptable);
    hide AllInOrder;
    hide OnceEach;
    hide ResolvedRow;
    hide BoundRow;
    var caseIds: set<string>, baselineIds: set<Option<string>> := {}, {};
    for n := 0 to |rows|
      invariant forall i :: 0 <= i < n ==> Next(rows, i, resolution, rules, acceptable)
      invariant forall i :: 0 <= i < n ==> rows[i].caseId in caseIds && rows[i].baselineCaseId in baselineIds
      invariant forall id :: id in caseIds ==> exists i :: 0 <= i < n && rows[i].caseId == id
      invariant forall id :: id in baselineIds ==> exists i :: 0 <= i < n && rows[i].baselineCaseId == id
    {
      var row := rows[n];
      if row.caseId in caseIds || row.baselineCaseId in baselineIds
          || !ResolvedRow(row, resolution, acceptable) || !BoundRow(row, rules)
      {
        assert !Next(rows, n, resolution, rules, acceptable);
        return false;
      }
      caseIds, baselineIds := caseIds + {row.caseId}, baselineIds + {row.baselineCaseId};
    }
    return true;
  }

  /** The check of an artifact accepts exactly what is valid. */
  method ValidateFloatingAggregate(h: Header, a: Aggregate, resolution: ResolutionRecord, rules: ShapeRules,
                                   acceptable: string -> bool) returns (accepted: bool)
    ensures accepted <==> ValidFloatingAggregate(h, a, resolution, rules, acceptable)
  {
    DemandsAre(h, a, resolution, rules, acceptable);
    hide ValidFloatingAggregate;
    hide ValidHeader;
    hide AllInOrder;
    hide OnceEach;
    hide SummaryOf;
    if !ValidHeader(h, resolution, rules) || a.results == [] {
      return false;
    }
    var summary := FloatingSummaryOf(a.results);
    if a.floatingSummary != summary {
      return false;
    }
    var inOrder := ValidateRows(a.results, resolution, rules, acceptable);
    if !inOrder {
      return false;
    }
    return a.success == (AllPass(a.results) && !a.cancelled && !a.budget.exhausted);
  }
}

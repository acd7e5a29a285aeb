/** What each change that a comparison lists is about, told from the rows and the baseline's cases. */
module ComparisonMeaning {
  import opened Json
  import opened SmokeEvidence
  import opened Runner
  import opened Comparison

  // ---- Texts ----

  /** Enough of the text of a dimension to tell it from the others. */
  function Tell(d: Drift): (int, char) {
    match d
    case CapabilityModel => (16, 'c')
    case CapabilityEffort => (17, 'c')
    case CapabilityMode => (15, 'c')
    case EffectiveModel => (26, 'c')
    case EffectiveEffort => (27, 'c')
    case EffectiveMode => (25, 'c')
    case ProvenanceExecutionMode => (25, 'p')
    case AuthenticationPath => (19, 'a')
    case AuthenticationCredentialEnv => (29, 'a')
    case ProvenanceImage => (16, 'p')
    case ProvenanceConfigSha256 => (24, 'p')
    case ProvenanceAdapter => (18, 'p')
    case ProvenanceAgentCli => (20, 'p')
    case ProvenanceComponent(name) => (21 + |name|, 'p')
    case ResolutionConfigSha256 => (24, 'r')
    case ResolutionAdapter => (18, 'r')
    case ResolutionAgentCli => (20, 'r')
    case ResolutionImage => (16, 'r')
    case OutcomeSmokeContract => (22, 'o')
    case CapabilityModelCatalog => (24, 'c')
    case OutcomeCancellation => (20, 'o')
  }

  lemma WireTells(d: Drift)
    ensures DriftWire(d) != "" && (|DriftWire(d)|, DriftWire(d)[0]) == Tell(d)
  {
  }

  /** Different dimensions have different texts. */
  lemma DriftWireIsInjective(a: Drift, b: Drift)
    requires DriftWire(a) == DriftWire(b)
    ensures a == b
  {
    WireTells(a);
    WireTells(b);
    if a.ProvenanceComponent? || b.ProvenanceComponent? {
      ComponentTells(a);
      ComponentTells(b);
    }
    hide DriftWire;
  }

  lemma ComponentTells(d: Drift)
    ensures d.ProvenanceComponent? ==>
              DriftWire(d)[..21] == "provenance.component." && DriftWire(d)[21..] == d.component
    ensures !d.ProvenanceComponent? && Tell(d).1 == 'p' && Tell(d).0 >= 21 ==> DriftWire(d)[13] != 'm'
  {
    if d.ProvenanceComponent? {
      var text := "provenance.component." + d.component;
      assert text[..21] == "provenance.component." && text[21..] == d.component;
    }
  }

  lemma ViolationWireIsInjective(a: Violation, b: Violation)
    requires ViolationWire(a) == ViolationWire(b)
    ensures a == b
  {
    assert "case_cost_cap_exceeded"[0] == 'c' && "total_timeout_exceeded"[0] == 't';
  }

  /** The texts of a row's drift and violations say exactly what they are. */
  lemma TextsSayAll(a: CaseResult, b: CaseResult)
    ensures DriftTexts(a) == DriftTexts(b) <==> a.drift == b.drift
    ensures ViolationTexts(a) == ViolationTexts(b) <==> a.budgetViolations == b.budgetViolations
  {
    hide DriftWire;
    hide ViolationWire;
    if DriftTexts(a) == DriftTexts(b) {
      var x, y := DriftTexts(a).items, DriftTexts(b).items;
      assert |a.drift| == |x| == |y| == |b.drift|;
      forall i | 0 <= i < |a.drift| ensures a.drift[i] == b.drift[i] {
        assert x[i] == JString(DriftWire(a.drift[i])) && y[i] == JString(DriftWire(b.drift[i]));
        DriftWireIsInjective(a.drift[i], b.drift[i]);
      }
    }
    if ViolationTexts(a) == ViolationTexts(b) {
      var x, y := ViolationTexts(a).items, ViolationTexts(b).items;
      assert |a.budgetViolations| == |x| == |y| == |b.budgetViolations|;
      forall i | 0 <= i < |a.budgetViolations| ensures a.budgetViolations[i] == b.budgetViolations[i] {
        assert x[i] == JString(ViolationWire(a.budgetViolations[i]));
        assert y[i] == JString(ViolationWire(b.budgetViolations[i]));
        ViolationWireIsInjective(a.budgetViolations[i], b.budgetViolations[i]);
      }
    }
  }

  // ---- Dimensions of one case ----

  lemma InDimension(changed: bool, name: string, d: string)
    ensures d in Dimension(changed, name) <==> changed && d == name
  {
  }

  ghost predicate ResultChanged(before: CaseBaseline, after: CaseBaseline, d: string) {
    || (d == "outcome" && before.outcome != after.outcome)
    || (d == "status" && before.status != after.status)
    || (d == "execution_mode" && before.executionMode != after.executionMode)
  }

  ghost predicate TargetChanged(before: CaseBaseline, after: CaseBaseline, d: string) {
    || (d == "provenance" && before.provenance != after.provenance)
    || (d == "capability" && before.capability != after.capability)
    || (d == "authentication" && before.authentication != after.authentication)
  }

  ghost predicate TurnChanged(before: CaseBaseline, after: CaseBaseline, d: string) {
    || (d == "phase" && before.phase != after.phase)
    || (d == "terminal" && before.terminal != after.terminal)
    || (d == "diagnostic" && before.diagnostic != after.diagnostic)
  }

  lemma ResultExactly(before: CaseBaseline, after: CaseBaseline, d: string)
    ensures d in ResultDimensions(before, after) <==> ResultChanged(before, after, d)
  {
    hide Dimension;
    InDimension(before.outcome != after.outcome, "outcome", d);
    InDimension(before.status != after.status, "status", d);
    InDimension(before.executionMode != after.executionMode, "execution_mode", d);
  }

  lemma TargetExactly(before: CaseBaseline, after: CaseBaseline, d: string)
    ensures d in TargetDimensions(before, after) <==> TargetChanged(before, after, d)
  {
    hide Dimension;
    InDimension(before.provenance != after.provenance, "provenance", d);
    InDimension(before.capability != after.capability, "capability", d);
    InDimension(before.authentication != after.authentication, "authentication", d);
  }

  lemma TurnExactly(before: CaseBaseline, after: CaseBaseline, d: string)
    ensures d in TurnDimensions(before, after) <==> TurnChanged(before, after, d)
  {
    hide Dimension;
    InDimension(before.phase != after.phase, "phase", d);
    InDimension(before.terminal != after.terminal, "terminal", d);
    InDimension(before.diagnostic != after.diagnostic, "diagnostic", d);
  }

  /** Each dimension is listed exactly when its own part differs. */
  lemma DimensionsExactly(before: CaseBaseline, after: CaseBaseline, d: string)
    ensures d in CaseDimensions(before, after) <==>
              ResultChanged(before, after, d) || TargetChanged(before, after, d) || TurnChanged(before, after, d)
  {
    ResultExactly(before, after, d);
    TargetExactly(before, after, d);
    TurnExactly(before, after, d);
    hide ResultDimensions;
    hide TargetDimensions;
    hide TurnDimensions;
    hide ResultChanged;
    hide TargetChanged;
    hide TurnChanged;
  }

  /** What two rows of a case differ in, for each part of the baseline made of them. */
  ghost predicate PartsMean(a: CaseResult, b: CaseResult, x: CaseBaseline, y: CaseBaseline) {
    && (x.outcome == y.outcome <==>
          && a.execution == b.execution && a.expectationMet == b.expectationMet && a.notRunReason == b.notRunReason
          && a.runnerErrorCode == b.runnerErrorCode && a.drift == b.drift && a.budgetViolations == b.budgetViolations)
    && (x.status == y.status <==> a.actualStatus == b.actualStatus)
    && (x.executionMode == y.executionMode <==> PartsAlike(a, b, "target", {"execution_mode"}))
    && (x.provenance == y.provenance <==> PartsAlike(a, b, "target", {"provenance"}))
    && (x.capability == y.capability <==>
          && PartsAlike(a, b, "request", REQUEST_PARTS) && PartsAlike(a, b, "session", {"effective_request"})
          && PartsAlike(a, b, "target", {"model_catalog"}))
    && (x.authentication == y.authentication <==> PartsAlike(a, b, "target", {"authentication"}))
    && (x.phase == y.phase <==> OrNull(Get(FailureOf(a), "failed_phase")) == OrNull(Get(FailureOf(b), "failed_phase")))
    && (x.terminal == y.terminal <==>
          && PartsAlike(a, b, "attempt", ATTEMPT_PARTS) && PartsAlike(a, b, "turn", TURN_PARTS)
          && OrNull(Get(OrNull(a.smoke), "cleanup")) == OrNull(Get(OrNull(b.smoke), "cleanup")))
    && (x.diagnostic == y.diagnostic <==> DiagnosedAlike(a, b))
  }

  lemma OnePart(a: CaseResult, b: CaseResult, section: string, name: string)
    ensures PartsAlike(a, b, section, {name}) <==> Part(a, section, name) == Part(b, section, name)
  {
    hide Part;
  }

  /** Each dimension of a rerun is about the evidence its name says. */
  lemma ProjectionMeans(a: CaseResult, b: CaseResult)
    ensures PartsMean(a, b, BaselineFromResult(a), BaselineFromResult(b))
  {
    hide CaseDimensions;
    hide OutcomeOf;
    hide PartsAlike;
    hide Part;
    hide Section;
    hide Capability;
    hide Terminal;
    hide Diagnosis;
    hide DiagnosedAlike;
    hide DiagnosticOf;
    hide DiagnosticProjection;
    hide FailureOf;
    hide Get;
    OutcomeMeans(a, b);
    OnePart(a, b, "target", "execution_mode");
    OnePart(a, b, "target", "provenance");
    OnePart(a, b, "target", "authentication");
    OnePart(a, b, "target", "model_catalog");
    OnePart(a, b, "session", "effective_request");
    SectionsExactly(a, b, "request", REQUEST_PARTS);
    SectionsExactly(a, b, "attempt", ATTEMPT_PARTS);
    SectionsExactly(a, b, "turn", TURN_PARTS);
    CapabilityHasParts(Section(a, "request", REQUEST_PARTS), Part(a, "session", "effective_request"),
                       Part(a, "target", "model_catalog"), Section(b, "request", REQUEST_PARTS),
                       Part(b, "session", "effective_request"), Part(b, "target", "model_catalog"));
    CapabilityHasParts(Section(a, "attempt", ATTEMPT_PARTS), Section(a, "turn", TURN_PARTS),
                       OrNull(Get(OrNull(a.smoke), "cleanup")), Section(b, "attempt", ATTEMPT_PARTS),
                       Section(b, "turn", TURN_PARTS), OrNull(Get(OrNull(b.smoke), "cleanup")));
    DiagnosticChangesExactly(a, b);
    DiagnosticIsListed(BaselineFromResult(a), BaselineFromResult(b));
  }

  lemma OutcomeMeans(a: CaseResult, b: CaseResult)
    ensures OutcomeOf(a) == OutcomeOf(b) <==>
              && a.execution == b.execution && a.expectationMet == b.expectationMet && a.notRunReason == b.notRunReason
              && a.runnerErrorCode == b.runnerErrorCode && a.drift == b.drift
              && a.budgetViolations == b.budgetViolations
  {
    OutcomesExactly(a, b);
    TextsSayAll(a, b);
    hide OutcomeOf;
    hide DriftTexts;
    hide ViolationTexts;
  }

  // ---- Cases of either side ----

  ghost predicate InBaseline(baseline: Baseline, id: string) {
    exists i :: 0 <= i < |baseline.cases| && baseline.cases[i].caseId == id
  }

  ghost predicate InRun(current: Artifact, id: string) {
    exists j :: 0 <= j < |current.aggregate.results| && IsPinned(current.aggregate.results[j], id)
  }

  predicate IsPinned(row: CaseResult, id: string) {
    row.lane == Pinned && row.caseId == id
  }

  lemma {:induction false} PinnedAre(rows: seq<CaseResult>, c: CaseBaseline)
    ensures c in PinnedCases(rows) <==>
              exists j :: 0 <= j < |rows| && rows[j].lane == Pinned && BaselineFromResult(rows[j]) == c
  {
    hide BaselineFromResult;
    if rows != [] {
      var n := |rows| - 1;
      var before := rows[..n];
      PinnedAre(before, c);
      if j :| 0 <= j < n && before[j].lane == Pinned && BaselineFromResult(before[j]) == c {
        assert rows[j] == before[j];
      }
      if j :| 0 <= j < n && rows[j].lane == Pinned && BaselineFromResult(rows[j]) == c {
        assert before[j] == rows[j];
      }
    }
  }

  /** A change of one case id: it came, it went, or a baseline case and a pinned row of it differ in a dimension. */
  ghost predicate Changed(current: Artifact, baseline: Baseline, id: string, d: string) {
    || (d == "case_added" && InRun(current, id) && !InBaseline(baseline, id))
    || (d == "case_missing" && InBaseline(baseline, id) && !InRun(current, id))
    || (exists i, j ::
          && 0 <= i < |baseline.cases| && baseline.cases[i].caseId == id
          && 0 <= j < |current.aggregate.results| && IsPinned(current.aggregate.results[j], id)
          && d in CaseDimensions(baseline.cases[i], BaselineFromResult(current.aggregate.results[j])))
  }

  lemma BaselineHas(baseline: Baseline, id: string)
    requires Comparison.DistinctIds(baseline.cases)
    ensures id in ById(baseline.cases) <==> InBaseline(baseline, id)
    ensures forall i :: 0 <= i < |baseline.cases| && baseline.cases[i].caseId == id ==>
              id in ById(baseline.cases) && ById(baseline.cases)[id] == baseline.cases[i]
  {
    ByIdHolds(baseline.cases);
    hide ById;
  }

  lemma RunHas(current: Artifact, id: string)
    requires Comparison.DistinctIds(PinnedCases(current.aggregate.results))
    ensures id in ById(PinnedCases(current.aggregate.results)) <==> InRun(current, id)
    ensures forall j :: 0 <= j < |current.aggregate.results| && IsPinned(current.aggregate.results[j], id) ==>
              && id in ById(PinnedCases(current.aggregate.results))
              && ById(PinnedCases(current.aggregate.results))[id] == BaselineFromResult(current.aggregate.results[j])
  {
    var rows, cases := current.aggregate.results, PinnedCases(current.aggregate.results);
    ByIdHolds(cases);
    forall row: CaseResult ensures BaselineFromResult(row).caseId == row.caseId {
      ProjectionKeepsId(row);
    }
    hide ById;
    hide BaselineFromResult;
    hide PinnedCases;
    forall j | 0 <= j < |rows| && IsPinned(rows[j], id)
      ensures id in ById(cases) && ById(cases)[id] == BaselineFromResult(rows[j])
    {
      PinnedAre(rows, BaselineFromResult(rows[j]));
      var k :| 0 <= k < |cases| && cases[k] == BaselineFromResult(rows[j]);
      assert cases[k].caseId == id;
    }
    if id in ById(cases) {
      var k :| 0 <= k < |cases| && cases[k].caseId == id;
      PinnedAre(rows, cases[k]);
      var j :| 0 <= j < |rows| && rows[j].lane == Pinned && BaselineFromResult(rows[j]) == cases[k];
      assert IsPinned(rows[j], id);
    }
  }

  /** What is listed for a case id is exactly what changed for it. */
  lemma ChangesExactly(current: Artifact, baseline: Baseline, id: string, d: string)
    requires Comparable(current, baseline)
    ensures d in DimensionsAt(ById(baseline.cases), ById(PinnedCases(current.aggregate.results)), id)
       <==> Changed(current, baseline, id, d)
  {
    BaselineHas(baseline, id);
    RunHas(current, id);
    hide ById;
    hide PinnedCases;
    hide BaselineFromResult;
    hide CaseDimensions;
    hide WellFormedArtifact;
    hide WellFormedBaseline;
    hide IsPinned;
    var before, after := ById(baseline.cases), ById(PinnedCases(current.aggregate.results));
    if id in before && id in after {
      var i :| 0 <= i < |baseline.cases| && baseline.cases[i].caseId == id;
      var j :| 0 <= j < |current.aggregate.results| && IsPinned(current.aggregate.results[j], id);
      assert before[id] == baseline.cases[i] && after[id] == BaselineFromResult(current.aggregate.results[j]);
    }
  }

  // ---- The run as a whole ----

  /** What is listed for the manifest and for the run as a whole is exactly what changed in them. */
  lemma HeaderExactly(current: Artifact, baseline: Baseline, d: string)
    ensures Change("__manifest__", ["manifest"]) in HeaderChanges(current, baseline) <==>
              baseline.manifest != current.manifest
    ensures d in AggregateDimensions(baseline.aggregate, BaselineFromAggregate(current.aggregate)) <==>
              var was, now := baseline.aggregate, current.aggregate;
              || (d == "success" && was.success != now.success)
              || (d == "cancelled" && was.cancelled != now.cancelled)
              || (d == "budget" && (|| was.budgetExhausted != now.budget.exhausted
                                    || was.tokenObservationMissingCases != now.budget.tokenObservationMissingCases
                                    || was.costObservationMissingCases != now.budget.costObservationMissingCases))
  {
    var was, now := baseline.aggregate, BaselineFromAggregate(current.aggregate);
    var budget := was.budgetExhausted != now.budgetExhausted
                  || was.tokenObservationMissingCases != now.tokenObservationMissingCases
                  || was.costObservationMissingCases != now.costObservationMissingCases;
    ManifestIsNotAggregate(AggregateDimensions(was, now));
    hide Dimension;
    InDimension(was.success != now.success, "success", d);
    InDimension(was.cancelled != now.cancelled, "cancelled", d);
    InDimension(budget, "budget", d);
  }

  lemma ManifestIsNotAggregate(dimensions: seq<string>)
    ensures Change("__manifest__", ["manifest"]) != Change("__aggregate__", dimensions)
  {
    assert "__manifest__"[2] == 'm' && "__aggregate__"[2] == 'a';
  }

  // ---- What can be compared ----

  /** No two pinned rows have the same case. */
  ghost predicate PinnedOnce(rows: seq<CaseResult>) {
    forall i, j :: 0 <= i < j < |rows| && rows[i].lane == Pinned && rows[j].lane == Pinned ==>
      rows[i].caseId != rows[j].caseId
  }

  lemma {:induction false} PinnedOnceExactly(rows: seq<CaseResult>)
    ensures Comparison.DistinctIds(PinnedCases(rows)) <==> PinnedOnce(rows)
  {
    hide BaselineFromResult;
    if rows == [] {
      assert PinnedCases(rows) == [];
    } else {
      var last, before := rows[|rows| - 1], rows[..|rows| - 1];
      PinnedOnceExactly(before);
      PinnedOnceSplits(rows);
      if last.lane == Pinned {
        PinnedIdsAre(before, last.caseId);
        ProjectionKeepsId(last);
        OneMoreId(PinnedCases(before), BaselineFromResult(last));
        assert PinnedCases(rows) == PinnedCases(before) + [BaselineFromResult(last)];
      } else {
        assert PinnedCases(rows) == PinnedCases(before);
      }
      hide PinnedCases;
      hide PinnedOnce;
      hide Comparison.DistinctIds;
    }
  }

  lemma PinnedOnceSplits(rows: seq<CaseResult>)
    requires rows != []
    ensures var last, before := rows[|rows| - 1], rows[..|rows| - 1];
            PinnedOnce(rows) <==>
              && PinnedOnce(before)
              && (last.lane == Pinned ==> !exists j :: 0 <= j < |before| && IsPinned(before[j], last.caseId))
  {
    var before := rows[..|rows| - 1];
    assert forall i :: 0 <= i < |before| ==> before[i] == rows[i];
    if PinnedOnce(rows) {
      assert PinnedOnce(before);
    } else {
      var i, j :| 0 <= i < j < |rows| && rows[i].lane == Pinned && rows[j].lane == Pinned
                  && rows[i].caseId == rows[j].caseId;
      assert before[i] == rows[i];
      if j < |before| {
        assert before[j] == rows[j];
      } else {
        assert IsPinned(before[i], rows[j].caseId);
      }
    }
  }

  lemma OneMoreId(cases: seq<CaseBaseline>, c: CaseBaseline)
    ensures Comparison.DistinctIds(cases + [c]) <==>
              Comparison.DistinctIds(cases) && forall i :: 0 <= i < |cases| ==> cases[i].caseId != c.caseId
  {
    var more := cases + [c];
    assert more[|cases|] == c && forall i :: 0 <= i < |cases| ==> more[i] == cases[i];
  }

  lemma {:induction false} PinnedIdsAre(rows: seq<CaseResult>, id: string)
    ensures (exists i :: 0 <= i < |PinnedCases(rows)| && PinnedCases(rows)[i].caseId == id)
       <==> exists j :: 0 <= j < |rows| && IsPinned(rows[j], id)
  {
    var cases := PinnedCases(rows);
    hide PinnedCases;
    if i :| 0 <= i < |cases| && cases[i].caseId == id {
      PinnedAre(rows, cases[i]);
      var j :| 0 <= j < |rows| && rows[j].lane == Pinned && cases[i] == BaselineFromResult(rows[j]);
      ProjectionKeepsId(rows[j]);
      assert IsPinned(rows[j], id);
    }
    if j :| 0 <= j < |rows| && IsPinned(rows[j], id) {
      PinnedAre(rows, BaselineFromResult(rows[j]));
      ProjectionKeepsId(rows[j]);
    }
    hide BaselineFromResult;
  }

  /** A run is compared with a baseline exactly when both are identified, of this version, and repeat no case. */
  lemma ComparableExactly(current: Artifact, baseline: Baseline)
    ensures Comparable(current, baseline) <==>
              && current.schemaVersion == current.manifest.schemaVersion == 1
              && baseline.schemaVersion == baseline.manifest.schemaVersion == 1
              && current.candidateBytes > 0
              && ValidDigest(current.candidateSha256) && ValidDigest(current.manifest.sha256)
              && ValidDigest(baseline.manifest.sha256)
              && (forall i, j :: 0 <= i < j < |baseline.cases| ==>
                    baseline.cases[i].caseId != baseline.cases[j].caseId)
              && PinnedOnce(current.aggregate.results)
  {
    hide ValidDigest;
    PinnedOnceExactly(current.aggregate.results);
    hide PinnedCases;
    hide PinnedOnce;
  }
}

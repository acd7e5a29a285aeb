/**
 * The immutable records of the effect ledger and what each of them must satisfy.
 *
 * A digest is modelled by the value it digests, so equal digests mean equal values.
 */
module LedgerRecords {
  import opened Prelude
  import opened Budget
  import opened Calendar

  type Digest = string

  datatype AttemptKey = AttemptKey(admissionAttempt: Digest, repeatNonce: Option<string>)
  datatype WorkKey = WorkKey(caseExecution: Digest, evidencePurpose: string, freshnessBucket: string)
  datatype ReservationId = ReservationId(key: AttemptKey)

  datatype Authority =
    | CharacterizationOnce(entrySha256: Digest)
    | StandingGrant(grantSha256: Digest)
    | ManualAcknowledgement(manualAdmissionSha256: Digest)

  datatype BudgetAuthority =
    | CharacterizationBudget(entrySha256: Digest, caseId: string, providerFamily: string, caps: EffectCaps)
    | StandingBudget(grantSha256: Digest, budgets: Policy)
    | ManualBudget(manualAdmissionSha256: Digest, accountingGrantSha256: Digest, budgets: Policy)

  // ---- Requests ----

  datatype Identities = Identities(
    characterizationProfile: Digest,
    caseExecution: Digest,
    actualCaps: EffectCaps,
    admissionAttempt: Digest,
    authority: Authority,
    trigger: Trigger,
    repeatNonce: Option<string>,
    equivalentWorkKey: WorkKey,
    attemptKey: AttemptKey,
    evidencePurpose: string,
    freshnessBucket: string)

  datatype Request = Request(
    identities: Identities,
    accountingClass: AccountingClass,
    caseId: string,
    providerFamily: string,
    budgetAuthority: BudgetAuthority)

  // ---- Admission limits ----

  datatype Refusal =
    | ClockRollback
    | UtcDayExhausted
    | Rolling24hExhausted
    | PerCaseExhausted
    | PerProviderExhausted
    | PerTriggerExhausted
    | CharacterizationExhausted
    | ProtectedScheduledExhausted
    | ProtectedTestMergeExhausted
    | ManualUnallocatedExhausted

  datatype Limits = Limits(
    utcDay: Amounts,
    rolling24h: Amounts,
    perCase: Amounts,
    perProvider: Amounts,
    perTrigger: Option<Amounts>,
    classPool: Amounts,
    classRefusal: Refusal)

  /** The class and trigger pairs a standing grant covers. */
  predicate StandingPair(c: AccountingClass, t: Trigger) {
    || (c == ScheduledClass && (t == Daily || t == ScheduledMain))
    || (c == TestMergeClass && t == TestMerge)
  }

  function LimitsFor(request: Request): Option<Limits> {
    var ids := request.identities;
    if !ValidEffectCaps(ids.actualCaps) then None
    else
      match request.budgetAuthority
      case CharacterizationBudget(entry, caseId, provider, caps) =>
        if ids.authority == CharacterizationOnce(entry)
           && request.accountingClass == CharacterizationClass
           && ids.trigger == ManualCharacterization
           && request.caseId == caseId
           && request.providerFamily == provider
           && ids.actualCaps == caps
        then
          var own := FromCaps(caps);
          Some(Limits(own, own, own, own, Some(own), own, CharacterizationExhausted))
        else None
      case StandingBudget(grant, p) =>
        var perCase := FindNamed(p.perCase, request.caseId);
        var perProvider := FindNamed(p.perProvider, request.providerFamily);
        var perTrigger := FindTrigger(p.perTriggerPool, ids.trigger);
        if ids.authority == StandingGrant(grant)
           && StandingPair(request.accountingClass, ids.trigger)
           && ValidPolicy(p)
           && perCase.Some? && perProvider.Some? && perTrigger.Some?
        then
          Some(Limits(p.utcDay, p.rolling24h, perCase.value, perProvider.value, perTrigger,
                      if request.accountingClass == ScheduledClass then p.protectedScheduled else p.protectedTestMerge,
                      if request.accountingClass == ScheduledClass then ProtectedScheduledExhausted
                      else ProtectedTestMergeExhausted))
        else None
      case ManualBudget(admission, _, p) =>
        var perCase := FindNamed(p.perCase, request.caseId);
        var perProvider := FindNamed(p.perProvider, request.providerFamily);
        if ids.authority == ManualAcknowledgement(admission)
           && request.accountingClass == ManualClass
           && ids.trigger == ManualCompatibility
           && ValidPolicy(p)
           && perCase.Some? && perProvider.Some?
        then
          Some(Limits(p.utcDay, p.rolling24h, perCase.value, perProvider.value, None,
                      p.manualUnallocated, ManualUnallocatedExhausted))
        else None
  }

  // ---- Reservations ----

  datatype Reservation = Reservation(
    reservationId: ReservationId,
    attemptKey: AttemptKey,
    accountingClass: AccountingClass,
    caseId: string,
    providerFamily: string,
    trigger: Trigger,
    accountingPolicy: BudgetAuthority,
    characterizationProfile: Digest,
    caseExecution: Digest,
    admissionAttempt: Digest,
    authority: Authority,
    equivalentWorkKey: WorkKey,
    evidencePurpose: string,
    freshnessBucket: string,
    repeatNonce: Option<string>,
    caps: EffectCaps,
    utcDayId: string,
    rollingWindowId: int,
    reservedAtMs: int)

  predicate ClassAuthorityTriggerAgree(c: AccountingClass, authority: Authority, trigger: Trigger) {
    match authority
    case CharacterizationOnce(_) => c == CharacterizationClass && trigger == ManualCharacterization
    case StandingGrant(_) => StandingPair(c, trigger)
    case ManualAcknowledgement(_) => c == ManualClass && trigger == ManualCompatibility
  }

  predicate ValidReservation(r: Reservation) {
    && StableId(r.caseId)
    && StableId(r.providerFamily)
    && ValidEffectCaps(r.caps)
    && ClassAuthorityTriggerAgree(r.accountingClass, r.authority, r.trigger)
    && r.attemptKey == AttemptKey(r.admissionAttempt, r.repeatNonce)
    && r.reservationId == ReservationId(r.attemptKey)
    && r.equivalentWorkKey == WorkKey(r.caseExecution, r.evidencePurpose, r.freshnessBucket)
    && UtcDayId(r.reservedAtMs) == Ok(r.utcDayId)
    && r.rollingWindowId == r.reservedAtMs
  }

  /** The record a request proposes at a time, when request and time are valid. */
  function RequestRecord(request: Request, atMs: int): Option<Reservation> {
    var ids := request.identities;
    if !StableId(request.caseId) || !StableId(request.providerFamily) || LimitsFor(request).None?
       || UtcDayId(atMs).Err?
    then None
    else
      var record := Reservation(
        ReservationId(ids.attemptKey), ids.attemptKey, request.accountingClass, request.caseId,
        request.providerFamily, ids.trigger, request.budgetAuthority, ids.characterizationProfile,
        ids.caseExecution, ids.admissionAttempt, ids.authority, ids.equivalentWorkKey,
        ids.evidencePurpose, ids.freshnessBucket, ids.repeatNonce, ids.actualCaps,
        UtcDayId(atMs).value, atMs, atMs);
      if ValidReservation(record) then Some(record) else None
  }

  /** A stored record is the one its request would have proposed at the stored time. */
  predicate ExistingMatchesRequest(existing: Reservation, request: Request) {
    var proposed := RequestRecord(request, existing.reservedAtMs);
    && proposed.Some?
    && proposed.value.(utcDayId := existing.utcDayId, rollingWindowId := existing.rollingWindowId) == existing
  }

  // ---- Reconciliations ----

  datatype Disposition = ReleasedPreEffect | ChargedTerminal | ChargedConservative

  datatype ConservativeReason =
    | SpawnStateAmbiguous
    | PromptAcceptancePossible
    | KillOrCrash
    | MissingUsage
    | InvalidUsage
    | UnknownPrice
    | UnknownCurrency
    | EvidenceUnreconciled

  datatype ReasonCode = ProvedPreEffectCode | ValidTerminalCode | ConservativeCode(reason: ConservativeReason)

  datatype Decision =
    | ProvedPreEffect(evidenceSha256: Digest, reconciledAtMs: int)
    | ValidTerminal(evidenceSha256: Digest, usage: UsageCharge, promptWasAccepted: bool, reconciledAtMs: int)
    | Conservative(evidenceSha256: Digest, reason: ConservativeReason, promptMayHaveBeenAccepted: bool,
                   reconciledAtMs: int)

  datatype Reconciliation = Reconciliation(
    reservationId: ReservationId,
    reservationDigest: Reservation,
    characterizationProfile: Digest,
    caseExecution: Digest,
    admissionAttempt: Digest,
    authority: Authority,
    equivalentWorkKey: WorkKey,
    terminalEvidenceSha256: Digest,
    disposition: Disposition,
    reasonCode: ReasonCode,
    chargedUsage: UsageCharge,
    promptMayHaveBeenAccepted: bool,
    reconciledAtMs: int)

  function ReconciliationOf(record: Reservation, decision: Decision): Reconciliation {
    var (disposition, code, usage, prompt) :=
      match decision
      case ProvedPreEffect(_, _) => (ReleasedPreEffect, ProvedPreEffectCode, NO_CHARGE, false)
      case ValidTerminal(_, usage, prompt, _) => (ChargedTerminal, ValidTerminalCode, usage, prompt)
      case Conservative(_, reason, prompt, _) =>
        (ChargedConservative, ConservativeCode(reason), FullConservativeCharge(record.caps), prompt);
    Reconciliation(record.reservationId, record, record.characterizationProfile, record.caseExecution,
                   record.admissionAttempt, record.authority, record.equivalentWorkKey,
                   decision.evidenceSha256, disposition, code, usage, prompt, decision.reconciledAtMs)
  }

  /** The shape rules every reconciliation obeys on its own. */
  predicate WellShapedReconciliation(v: Reconciliation) {
    && v.chargedUsage.attempts <= 1
    && v.chargedUsage.tokens <= 1_000_000
    && v.chargedUsage.costMicrousd <= 100_000_000
    && v.chargedUsage.elapsedMillis <= 31 * 24 * 60 * 60 * 1_000
    && (match v.disposition
        case ReleasedPreEffect => v.chargedUsage == NO_CHARGE && !v.promptMayHaveBeenAccepted
        case ChargedTerminal => v.chargedUsage.attempts == 1
        case ChargedConservative => v.chargedUsage.attempts == 1)
    && 0 < v.reconciledAtMs
  }

  predicate ValidReconciliation(record: Reservation, v: Reconciliation) {
    && WellShapedReconciliation(v)
    && v.reservationId == record.reservationId
    && v.reservationDigest == record
    && v.characterizationProfile == record.characterizationProfile
    && v.caseExecution == record.caseExecution
    && v.admissionAttempt == record.admissionAttempt
    && v.authority == record.authority
    && v.equivalentWorkKey == record.equivalentWorkKey
    && record.reservedAtMs <= v.reconciledAtMs
    && (match v.disposition
        case ReleasedPreEffect => v.reasonCode == ProvedPreEffectCode
        case ChargedTerminal => v.reasonCode == ValidTerminalCode && ChargeWithinCaps(v.chargedUsage, record.caps)
        case ChargedConservative =>
          v.reasonCode.ConservativeCode? && v.chargedUsage == FullConservativeCharge(record.caps))
  }

  datatype Stored = Stored(record: Reservation, reconciliation: Option<Reconciliation>)

  function Charge(stored: Stored): Amounts {
    match stored.reconciliation
    case Some(v) => FromCharge(v.chargedUsage)
    case None => FromCaps(stored.record.caps)
  }

  /** A reconciliation bound to its reservation lowers or keeps every dimension of the charge. */
  lemma ReconciliationNeverRaises(record: Reservation, v: Reconciliation)
    requires ValidReservation(record) && ValidReconciliation(record, v)
    ensures AtMost(Charge(Stored(record, Some(v))), Charge(Stored(record, None)))
    ensures v.disposition.ReleasedPreEffect? ==> Charge(Stored(record, Some(v))) == NOTHING
    ensures v.disposition.ChargedConservative? ==> Charge(Stored(record, Some(v))) == Charge(Stored(record, None))
  {
    match v.disposition
    case ReleasedPreEffect =>
    case ChargedTerminal => ChargeNeverExceedsCaps(v.chargedUsage, record.caps);
    case ChargedConservative => ConservativeChargeIsTheReservation(record.caps);
  }

  // ---- Legacy imports ----

  datatype ImportKind = ValidatedAggregate | ConservativeAggregate | UnknownInitialRollingWindow

  datatype ImportId = ImportId(
    inventorySha256: Digest,
    aggregateSha256: Digest,
    kind: ImportKind,
    caseId: string,
    providerFamily: string,
    trigger: Trigger,
    accountingClass: AccountingClass,
    chargedUsage: Amounts,
    observedAtMs: int)

  datatype LegacyImport = LegacyImport(
    importId: ImportId,
    inventorySha256: Digest,
    aggregateSha256: Digest,
    kind: ImportKind,
    caseId: string,
    providerFamily: string,
    trigger: Trigger,
    accountingClass: AccountingClass,
    chargedUsage: Amounts,
    observedAtMs: int,
    rollingExpiresAtMs: int)

  function SaturatingAddDay(atMs: int): int {
    if atMs + DAY_MILLIS <= I64_MAX then atMs + DAY_MILLIS else I64_MAX
  }

  predicate ValidLegacyImport(v: LegacyImport) {
    && 0 < v.chargedUsage.attempts <= 10_000
    && v.chargedUsage.tokens <= 1_000_000_000
    && v.chargedUsage.costMicrousd <= 10_000_000_000
    && v.chargedUsage.timeSecs <= 31 * 24 * 60 * 60
    && 0 < v.observedAtMs
    && v.rollingExpiresAtMs == SaturatingAddDay(v.observedAtMs)
    && StableId(v.caseId)
    && StableId(v.providerFamily)
    && v.importId == ImportId(v.inventorySha256, v.aggregateSha256, v.kind, v.caseId, v.providerFamily,
                              v.trigger, v.accountingClass, v.chargedUsage, v.observedAtMs)
  }
}

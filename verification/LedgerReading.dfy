/** Reading a ledger accepts exactly the records that writing could have produced. */
module LedgerReading {
  import opened Prelude
  import opened Budget
  import opened Calendar
  import opened LedgerRecords
  import opened LedgerSettlement

  // ---- Reservations ----

  /** Some request, at the recorded time, is recorded so; only the digest of its policy is not looked at again. */
  ghost predicate Writable(r: Reservation) {
    exists request :: RequestRecord(request, r.reservedAtMs) == Some(r.(accountingPolicy := request.budgetAuthority))
  }

  /** A policy that names the case, the provider and the trigger of one record. */
  function PolicyFor(r: Reservation): Policy {
    var pool := FromCaps(r.caps);
    var day := Plus(Plus(pool, pool), pool);
    Policy([NamedCaps(r.caseId, day)], [TriggerCaps(r.trigger, day)], [NamedCaps(r.providerFamily, day)], day, day,
           pool, pool, pool)
  }

  lemma PolicyForIsValid(r: Reservation)
    requires StableId(r.caseId) && StableId(r.providerFamily) && ValidEffectCaps(r.caps)
    ensures ValidPolicy(PolicyFor(r))
  {
    var pool := FromCaps(r.caps);
    var day := Plus(Plus(pool, pool), pool);
    assert ValidAggregateCaps(pool) && ValidAggregateCaps(day) && AtMost(day, day);
    hide StableId;
    hide FromCaps;
    hide Plus;
    hide ValidAggregateCaps;
    hide AtMost;
  }

  function BudgetFor(r: Reservation): BudgetAuthority {
    match r.authority
    case CharacterizationOnce(entry) => CharacterizationBudget(entry, r.caseId, r.providerFamily, r.caps)
    case StandingGrant(grant) => StandingBudget(grant, PolicyFor(r))
    case ManualAcknowledgement(admission) => ManualBudget(admission, "", PolicyFor(r))
  }

  /** A request that is recorded as the record says. */
  function RequestFor(r: Reservation): Request {
    Request(Identities(r.characterizationProfile, r.caseExecution, r.caps, r.admissionAttempt, r.authority, r.trigger,
                       r.repeatNonce, r.equivalentWorkKey, r.attemptKey, r.evidencePurpose, r.freshnessBucket),
            r.accountingClass, r.caseId, r.providerFamily, BudgetFor(r))
  }

  lemma HasLimits(r: Reservation)
    requires ValidReservation(r)
    ensures LimitsFor(RequestFor(r)).Some?
  {
    PolicyForIsValid(r);
    var p := PolicyFor(r);
    assert FindNamed(p.perCase, r.caseId).Some? && FindNamed(p.perProvider, r.providerFamily).Some?
        && FindTrigger(p.perTriggerPool, r.trigger).Some?;
    hide PolicyFor;
    hide ValidPolicy;
    hide StableId;
    hide UtcDayId;
    hide FindNamed;
    hide FindTrigger;
    hide FromCaps;
  }

  /** A reservation is accepted on reading exactly when some request could have been recorded so. */
  lemma ReservationsReadExactly(r: Reservation)
    ensures ValidReservation(r) <==> Writable(r)
  {
    hide StableId;
    hide UtcDayId;
    hide LimitsFor;
    if ValidReservation(r) {
      HasLimits(r);
      var request := RequestFor(r);
      assert RequestRecord(request, r.reservedAtMs) == Some(r.(accountingPolicy := request.budgetAuthority)) by {
        hide BudgetFor;
      }
    }
  }

  // ---- Reconciliations ----

  /** The decision that a reconciliation was made of. */
  function DecisionOf(v: Reconciliation): Decision {
    match v.reasonCode
    case ProvedPreEffectCode => ProvedPreEffect(v.terminalEvidenceSha256, v.reconciledAtMs)
    case ValidTerminalCode =>
      ValidTerminal(v.terminalEvidenceSha256, v.chargedUsage, v.promptMayHaveBeenAccepted, v.reconciledAtMs)
    case ConservativeCode(reason) =>
      Conservative(v.terminalEvidenceSha256, reason, v.promptMayHaveBeenAccepted, v.reconciledAtMs)
  }

  /** A reconciliation is accepted on reading exactly when a decision that is not refused could have been stored so. */
  lemma ReconciliationsReadExactly(record: Reservation, v: Reconciliation)
    requires ValidReservation(record)
    ensures ValidReconciliation(record, v) <==>
              exists decision :: !Refusable(record, decision) && Reflects(v, record, decision)
  {
    hide ValidReservation;
    if ValidReconciliation(record, v) {
      var decision := DecisionOf(v);
      assert v == ReconciliationOf(record, decision);
      ReflectsDecision(record, decision);
      assert !Refusable(record, decision) && Reflects(v, record, decision);
    }
    if decision :| !Refusable(record, decision) && Reflects(v, record, decision) {
      ReflectsDecision(record, decision);
      ReflectsIsUnique(v, ReconciliationOf(record, decision), record, decision);
    }
  }
}

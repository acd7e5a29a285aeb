/** What a reconciliation charges, told from the decision. */
module LedgerSettlement {
  import opened Prelude
  import opened Budget
  import opened LedgerRecords
  import opened LedgerSpec
  import opened LedgerRuns
  import opened LedgerUsage

  /** The least number of seconds that covers some milliseconds. */
  predicate LeastSeconds(seconds: nat, millis: nat) {
    millis <= seconds * 1_000 && (seconds > 0 ==> (seconds - 1) * 1_000 < millis)
  }

  /** An amount is what an observed usage comes to. */
  predicate Observed(amount: Amounts, usage: UsageCharge) {
    && amount.attempts == usage.attempts && amount.tokens == usage.tokens
    && amount.costMicrousd == usage.costMicrousd && LeastSeconds(amount.timeSecs, usage.elapsedMillis)
  }

  /** An amount is the whole of some caps. */
  predicate Whole(amount: Amounts, caps: EffectCaps) {
    && amount.attempts == caps.attempts && amount.tokens == caps.maxTokens
    && amount.costMicrousd == caps.maxCostMicrousd && amount.timeSecs == caps.timeoutSecs
  }

  /** A reservation that is open is charged its caps, and one that is settled what was observed. */
  lemma ChargeMeans(stored: Stored)
    ensures stored.reconciliation.None? ==> Whole(Charge(stored), stored.record.caps)
    ensures stored.reconciliation.Some? ==> Observed(Charge(stored), stored.reconciliation.value.chargedUsage)
  {
  }

  lemma ObservedIsUnique(a: Amounts, b: Amounts, usage: UsageCharge)
    requires Observed(a, usage) && Observed(b, usage)
    ensures a == b
  {
  }

  /** What was observed stayed within the caps: one attempt, and no more tokens, cost or time. */
  predicate WithinCaps(usage: UsageCharge, caps: EffectCaps) {
    && usage.attempts == 1 && usage.tokens <= caps.maxTokens && usage.costMicrousd <= caps.maxCostMicrousd
    && usage.elapsedMillis <= caps.timeoutSecs * 1_000
  }

  /** The usage a decision stands for: none, the observed one, or all that was reserved. */
  ghost predicate StandsFor(decision: Decision, caps: EffectCaps, usage: UsageCharge) {
    match decision
    case ProvedPreEffect(_, _) => usage == UsageCharge(0, 0, 0, 0)
    case ValidTerminal(_, observed, _, _) => usage == observed
    case Conservative(_, _, _, _) =>
      usage == UsageCharge(caps.attempts, caps.maxTokens, caps.maxCostMicrousd, caps.timeoutSecs * 1_000)
  }

  /** A reconciliation says what its decision says. */
  ghost predicate Reflects(v: Reconciliation, record: Reservation, decision: Decision) {
    && v.reservationId == record.reservationId && v.reservationDigest == record
    && v.characterizationProfile == record.characterizationProfile && v.caseExecution == record.caseExecution
    && v.admissionAttempt == record.admissionAttempt && v.authority == record.authority
    && v.equivalentWorkKey == record.equivalentWorkKey
    && v.terminalEvidenceSha256 == decision.evidenceSha256 && v.reconciledAtMs == decision.reconciledAtMs
    && StandsFor(decision, record.caps, v.chargedUsage)
    && match decision
       case ProvedPreEffect(_, _) =>
         v.disposition == ReleasedPreEffect && v.reasonCode == ProvedPreEffectCode && !v.promptMayHaveBeenAccepted
       case ValidTerminal(_, _, prompt, _) =>
         v.disposition == ChargedTerminal && v.reasonCode == ValidTerminalCode && v.promptMayHaveBeenAccepted == prompt
       case Conservative(_, reason, prompt, _) =>
         && v.disposition == ChargedConservative && v.reasonCode == ConservativeCode(reason)
         && v.promptMayHaveBeenAccepted == prompt
  }

  /** The decisions that are refused: earlier than the reservation, or a terminal usage beyond its caps. */
  ghost predicate Refusable(record: Reservation, decision: Decision) {
    || decision.reconciledAtMs < record.reservedAtMs
    || (decision.ValidTerminal? && !WithinCaps(decision.usage, record.caps))
  }

  lemma ReservedInTime(record: Reservation)
    requires ValidReservation(record)
    ensures ValidEffectCaps(record.caps) && 0 < record.reservedAtMs
    ensures SaturatingMillis(record.caps.timeoutSecs) == record.caps.timeoutSecs * 1_000
  {
    hide StableId;
    TimeIsPositive(record.reservedAtMs, record.utcDayId);
  }

  lemma TimeIsPositive(atMs: int, day: string)
    requires Calendar.UtcDayId(atMs) == Ok(day)
    ensures 0 < atMs
  {
    Calendar.DayIdNamesTheDay(atMs);
    hide Calendar.UtcDayId;
  }

  lemma ReflectsDecision(record: Reservation, decision: Decision)
    requires ValidReservation(record)
    ensures Reflects(ReconciliationOf(record, decision), record, decision)
    ensures ValidReconciliation(record, ReconciliationOf(record, decision)) <==> !Refusable(record, decision)
  {
    ReservedInTime(record);
    hide ValidReservation;
    hide SaturatingMillis;
  }

  // ---- The answer ----

  lemma AppendFailsToPersist(dir: Directory, name: FileName, record: FileRecord, disk: Disk)
    ensures Append(dir, name, record, disk).1.Err? ==> Append(dir, name, record, disk).1 == Err(NotPersisted)
  {
  }

  /**
   * The answer to a decision about a reservation of a well-formed ledger. It is refused as absent, as invalid, or
   * as contradicting a settlement made before, exactly when it is so; otherwise the value returned says what the
   * decision says, and is what the ledger then holds.
   */
  lemma DecisionsAreAnswered(s: LedgerState, id: ReservationId, decision: Decision, disk: Disk)
    requires WellFormed(s)
    ensures var (s', outcome) := Reconciled(s, id, decision, disk);
            && (outcome == Err(ReservationAbsent) <==> id !in s.reservations)
            && (id in s.reservations ==>
                  var stored := s.reservations[id];
                  && (outcome == Err(InvalidReconciliation) <==> Refusable(stored.record, decision))
                  && (outcome == Err(AlreadyReconciled) <==>
                        && !Refusable(stored.record, decision) && stored.reconciliation.Some?
                        && !Reflects(stored.reconciliation.value, stored.record, decision))
                  && (outcome.Ok? ==>
                        && Reflects(outcome.value.1, stored.record, decision)
                        && s'.reservations == s.reservations[id := Stored(stored.record, Some(outcome.value.1))])
                  && (outcome.Err? ==> s'.reservations == s.reservations)
                  && s'.imports == s.imports)
  {
    hide ReconciliationOf;
    hide ValidReconciliation;
    hide ValidReservation;
    hide Refusable;
    hide Reflects;
    hide Append;
    if id in s.reservations {
      var stored := s.reservations[id];
      assert SoundReservation(id, stored);
      ReflectsDecision(stored.record, decision);
      var value := ReconciliationOf(stored.record, decision);
      AppendFailsToPersist(s.directory, ReconciliationFile(value.reservationId), ReconciliationRecord(value), disk);
      if stored.reconciliation.Some? {
        ReflectsIsUnique(stored.reconciliation.value, value, stored.record, decision);
        assert stored == Stored(stored.record, stored.reconciliation);
      }
    }
  }

  lemma ReflectsIsUnique(a: Reconciliation, b: Reconciliation, record: Reservation, decision: Decision)
    requires Reflects(b, record, decision)
    ensures Reflects(a, record, decision) <==> a == b
  {
  }

  // ---- What moves ----

  lemma AddedOfUpdate<K>(amounts: map<K, Amounts>, k: K, amount: Amounts)
    requires k in amounts
    ensures Plus(Added(amounts[k := amount]), amounts[k]) == Plus(Added(amounts), amount)
  {
    AddedSplits(amounts, k);
    AddedSplits(amounts[k := amount], k);
    assert amounts[k := amount] - {k} == amounts - {k};
    hide Added;
  }

  lemma AddRight(a: Amounts, b: Amounts, c: Amounts, d: Amounts, imports: Amounts)
    requires Plus(a, b) == Plus(c, d)
    ensures Plus(Plus(a, imports), b) == Plus(Plus(c, imports), d)
  {
  }

  lemma ChargesAfterSettling(s: LedgerState, id: ReservationId, settled: Stored, s': LedgerState,
                             mine: Reservation -> bool)
    requires id in s.reservations && settled.record == s.reservations[id].record
    requires s'.reservations == s.reservations[id := settled]
    ensures mine(settled.record) ==>
              && id in Charges(s, mine) && Charges(s, mine)[id] == Charge(s.reservations[id])
              && Charges(s', mine) == Charges(s, mine)[id := Charge(settled)]
    ensures !mine(settled.record) ==> Charges(s', mine) == Charges(s, mine)
  {
    hide Charge;
  }

  lemma SameImportedCharges(s: LedgerState, s': LedgerState, imported: LegacyImport -> bool)
    requires s'.imports == s.imports
    ensures ImportedCharges(s', imported) == ImportedCharges(s, imported)
  {
  }

  /** Settling a reservation exchanges its charge in every sum it belongs to, and changes no other sum. */
  lemma SettlingExchanges(s: LedgerState, id: ReservationId, settled: Stored, s': LedgerState,
                          mine: Reservation -> bool, imported: LegacyImport -> bool)
    requires id in s.reservations && settled.record == s.reservations[id].record && s'.imports == s.imports
    requires s'.reservations == s.reservations[id := settled]
    ensures mine(settled.record) ==>
              Plus(Used(s', mine, imported), Charge(s.reservations[id]))
              == Plus(Used(s, mine, imported), Charge(settled))
    ensures !mine(settled.record) ==> Used(s', mine, imported) == Used(s, mine, imported)
  {
    hide Charge;
    hide Charges;
    hide ImportedCharges;
    hide Added;
    hide Plus;
    ChargesAfterSettling(s, id, settled, s', mine);
    SameImportedCharges(s, s', imported);
    if mine(settled.record) {
      var before := Charges(s, mine);
      AddedOfUpdate(before, id, Charge(settled));
      AddRight(Added(Charges(s', mine)), before[id], Added(before), Charge(settled),
               Added(ImportedCharges(s, imported)));
    }
  }

  /**
   * The first settlement of a reservation moves every sum it belongs to from its whole caps to what the decision
   * stands for: nothing, the observed usage with its time in full seconds, or the whole caps again.
   */
  lemma SettlementMoves(s: LedgerState, id: ReservationId, decision: Decision, disk: Disk, mine: Reservation -> bool,
                        imported: LegacyImport -> bool)
    requires WellFormed(s) && id in s.reservations && s.reservations[id].reconciliation.None?
    requires Reconciled(s, id, decision, disk).1.Ok?
    ensures var s', record := Reconciled(s, id, decision, disk).0, s.reservations[id].record;
            var whole, final := Charge(s.reservations[id]), Charge(s'.reservations[id]);
            && Whole(whole, record.caps)
            && (mine(record) ==> Plus(Used(s', mine, imported), whole) == Plus(Used(s, mine, imported), final))
            && (!mine(record) ==> Used(s', mine, imported) == Used(s, mine, imported))
            && (decision.ProvedPreEffect? ==> final == NOTHING)
            && (decision.ValidTerminal? ==> Observed(final, decision.usage))
            && (decision.Conservative? ==> final == whole && Used(s', mine, imported) == Used(s, mine, imported))
  {
    var s', record := Reconciled(s, id, decision, disk).0, s.reservations[id].record;
    assert SoundReservation(id, s.reservations[id]);
    assert s.reservations[id] == Stored(record, None);
    hide *;
    DecisionsAreAnswered(s, id, decision, disk);
    var value := Reconciled(s, id, decision, disk).1.value.1;
    FinalCharge(record, value, decision, id);
    ChargeMeans(s.reservations[id]);
    SettlingExchanges(s, id, Stored(record, Some(value)), s', mine, imported);
    if decision.Conservative? {
      Cancels(Used(s', mine, imported), Used(s, mine, imported), Charge(s.reservations[id]));
    }
  }

  lemma Cancels(a: Amounts, b: Amounts, c: Amounts)
    ensures Plus(a, c) == Plus(b, c) ==> a == b
  {
  }

  lemma FinalCharge(record: Reservation, value: Reconciliation, decision: Decision, id: ReservationId)
    requires SoundReservation(id, Stored(record, None)) && Reflects(value, record, decision)
    ensures var final := Charge(Stored(record, Some(value)));
            && (decision.ProvedPreEffect? ==> final == NOTHING)
            && (decision.ValidTerminal? ==> Observed(final, decision.usage))
            && (decision.Conservative? ==> final == Charge(Stored(record, None)))
  {
    ReservedInTime(record);
    hide ValidReservation;
  }
}

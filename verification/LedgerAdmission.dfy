/** When a request is admitted, and what an admission and its settlement come to. */
module LedgerAdmission {
  import opened Prelude
  import opened Budget
  import opened LedgerRecords
  import opened Accounting
  import opened LedgerSpec
  import opened LedgerRuns

  /** The usage a check selects, with the reservation on top, is within the check's cap. */
  ghost predicate Fits(s: LedgerState, check: Check, reserve: Amounts) {
    var total := Plus(Total(s, check.scope), reserve);
    Representable(total) && AtMost(total, check.cap)
  }

  ghost function Complaint(s: LedgerState, check: Check, reserve: Amounts): LedgerError {
    if !Representable(Plus(Total(s, check.scope), reserve)) then InvalidRequest else Refused(check.refusal)
  }

  lemma {:induction false} NoFailureExactly(s: LedgerState, checks: seq<Check>, reserve: Amounts)
    ensures FirstFailure(s, checks, reserve).None? <==> forall i :: 0 <= i < |checks| ==> Fits(s, checks[i], reserve)
  {
    hide Fits;
    if checks != [] {
      NoFailureExactly(s, checks[1..], reserve);
      FitsUnfolds(s, checks[0], reserve);
      hide Total;
      assert forall i :: 0 < i < |checks| ==> checks[i] == checks[1..][i - 1];
    }
  }

  lemma FitsUnfolds(s: LedgerState, check: Check, reserve: Amounts)
    ensures Fits(s, check, reserve) <==>
              Representable(Plus(Total(s, check.scope), reserve))
                  && AtMost(Plus(Total(s, check.scope), reserve), check.cap)
  {
    hide Total;
  }

  /** A refusal names the first budget, in order, that the request does not fit. */
  lemma {:induction false} RefusalNamesFirst(s: LedgerState, checks: seq<Check>, reserve: Amounts) returns (i: nat)
    requires FirstFailure(s, checks, reserve).Some?
    ensures i < |checks| && !Fits(s, checks[i], reserve)
    ensures forall j :: 0 <= j < i ==> Fits(s, checks[j], reserve)
    ensures FirstFailure(s, checks, reserve) == Some(Complaint(s, checks[i], reserve))
  {
    hide Total;
    if Fits(s, checks[0], reserve) {
      i := RefusalNamesFirst(s, checks[1..], reserve);
      i := i + 1;
      assert forall j :: 0 < j < i ==> checks[j] == checks[1..][j - 1];
    } else {
      i := 0;
    }
  }

  lemma HeadroomOfNew(s: LedgerState, request: Request, nowMs: int)
    requires RequestRecord(request, nowMs).Some? && RequestRecord(request, nowMs).value.reservationId !in s.reservations
    requires LimitsFor(request).Some? && !ClockRolledBack(s, nowMs)
    ensures var proposed := RequestRecord(request, nowMs).value;
            Headroom(s, request, nowMs)
            == FirstFailure(s, ChecksFor(LimitsFor(request).value, proposed), FromCaps(proposed.caps))
  {
    hide RequestRecord;
    hide LimitsFor;
    hide ClockRolledBack;
    hide FirstFailure;
    hide ChecksFor;
  }

  /** A new request is admitted exactly when no record lies in its future and every budget has room for it. */
  lemma AdmittedExactly(s: LedgerState, request: Request, nowMs: int)
    requires RequestRecord(request, nowMs).Some? && RequestRecord(request, nowMs).value.reservationId !in s.reservations
    ensures LimitsFor(request).Some?
    ensures var proposed := RequestRecord(request, nowMs).value;
            var checks := ChecksFor(LimitsFor(request).value, proposed);
            Headroom(s, request, nowMs).None? <==>
              !ClockRolledBack(s, nowMs) && forall i :: 0 <= i < |checks| ==>
                  Fits(s, checks[i], FromCaps(proposed.caps))
  {
    ProposalIsValid(request, nowMs);
    hide RequestRecord;
    hide LimitsFor;
    hide ChecksFor;
    hide ClockRolledBack;
    hide FirstFailure;
    hide Fits;
    var proposed := RequestRecord(request, nowMs).value;
    NoFailureExactly(s, ChecksFor(LimitsFor(request).value, proposed), FromCaps(proposed.caps));
  }

  /**
   * Reserving and then settling leaves in every total exactly the final charge on top of what was there before.
   * A proved pre-effect release therefore undoes the reservation completely.
   */
  lemma SettlementNets(s: LedgerState, request: Request, atMs: int, disk: Disk, decision: Decision, disk': Disk,
                       scope: Scope)
    requires Reserved(s, request, atMs, disk).1.Ok?
    requires var record := Reserved(s, request, atMs, disk).1.value.1;
             && record.reservationId !in s.reservations
             && Reconciled(Reserved(s, request, atMs, disk).0, record.reservationId, decision, disk').1.Ok?
    ensures var (s1, outcome) := Reserved(s, request, atMs, disk);
            var id := outcome.value.1.reservationId;
            var s2 := Reconciled(s1, id, decision, disk').0;
            && id in s2.reservations
            && Total(s2, scope) == Plus(Share(EntryOf(s2.reservations[id]), scope), Total(s, scope))
            && (decision.ProvedPreEffect? ==> Total(s2, scope) == Total(s, scope) && MayAdmitSuccessor(s2, id))
  {
    hide *;
    var (s1, outcome) := Reserved(s, request, atMs, disk);
    var record := outcome.value.1;
    var id := record.reservationId;
    ReservedAdds(s, request, atMs, disk);
    ReconciledSettles(s1, id, decision, disk');
    var s2 := Reconciled(s1, id, decision, disk').0;
    NetCharge(s, id, record, decision, s2, scope);
  }

  lemma NetCharge(s: LedgerState, id: ReservationId, record: Reservation, decision: Decision, s': LedgerState,
                  scope: Scope)
    requires id !in s.reservations && s'.imports == s.imports
    requires s'.reservations == s.reservations[id := Stored(record, Some(ReconciliationOf(record, decision)))]
    ensures Total(s', scope) == Plus(Share(EntryOf(s'.reservations[id]), scope), Total(s, scope))
    ensures decision.ProvedPreEffect? ==> Total(s', scope) == Total(s, scope) && MayAdmitSuccessor(s', id)
  {
    hide Total;
    hide Share;
    var final := s'.reservations[id];
    TotalOfAdmission(s, id, final, s', scope);
    if decision.ProvedPreEffect? {
      NothingToShare(final, scope);
      hide EntryOf;
      PlusNothing(Total(s, scope));
    }
  }

  lemma NothingToShare(stored: Stored, scope: Scope)
    requires stored.reconciliation.Some? && stored.reconciliation.value.chargedUsage == NO_CHARGE
    ensures Share(EntryOf(stored), scope) == NOTHING
  {
    hide InScope;
  }

  lemma ReservedAdds(s: LedgerState, request: Request, atMs: int, disk: Disk)
    requires Reserved(s, request, atMs, disk).1.Ok?
    requires Reserved(s, request, atMs, disk).1.value.1.reservationId !in s.reservations
    ensures var (s1, outcome) := Reserved(s, request, atMs, disk);
            && s1.imports == s.imports
            && s1.reservations == s.reservations[outcome.value.1.reservationId := Stored(outcome.value.1, None)]
  {
    hide Headroom;
    hide ValidReservation;
    hide RequestRecord;
    hide Append;
  }

  lemma ReconciledSettles(s: LedgerState, id: ReservationId, decision: Decision, disk: Disk)
    requires id in s.reservations && s.reservations[id].reconciliation.None?
    requires Reconciled(s, id, decision, disk).1.Ok?
    ensures var s' := Reconciled(s, id, decision, disk).0;
            var record := s.reservations[id].record;
            && s'.imports == s.imports
            && s'.reservations == s.reservations[id := Stored(record, Some(ReconciliationOf(record, decision)))]
  {
    hide ValidReconciliation;
    hide ReconciliationOf;
    hide Append;
  }
}

/** What the ledger remembers: records are immutable, charges move at most once, replays are harmless. */
module LedgerHistory {
  import opened Prelude
  import opened Budget
  import opened Calendar
  import opened LedgerRecords
  import opened LedgerSpec
  import opened LedgerRuns

  /** Two reservations of a reachable ledger never share an attempt key. */
  lemma OneReservationPerAttempt(events: seq<Event>, a: ReservationId, b: ReservationId)
    requires var s := After(EMPTY, events);
             && a in s.reservations && b in s.reservations
             && s.reservations[a].record.attemptKey == s.reservations[b].record.attemptKey
    ensures a == b
  {
    hide After;
    hide UtcDayId;
    hide StableId;
    hide ValidReconciliation;
    RunIsSound(EMPTY, events);
    var s := After(EMPTY, events);
    assert SoundReservation(a, s.reservations[a]) && SoundReservation(b, s.reservations[b]);
  }

  /** The charge of a reservation after the first `n` events. */
  ghost function ChargeAfter(events: seq<Event>, n: nat, id: ReservationId): Option<Amounts>
    requires n <= |events|
  {
    var s := After(EMPTY, events[..n]);
    if id in s.reservations then Some(Charge(s.reservations[id])) else None
  }

  lemma PrefixExtends(events: seq<Event>, i: nat, j: nat)
    requires i <= j <= |events|
    ensures WellFormed(After(EMPTY, events[..i])) && WellFormed(After(EMPTY, events[..j]))
    ensures Extends(After(EMPTY, events[..i]), After(EMPTY, events[..j]))
  {
    hide After;
    hide Extends;
    assert WellFormed(EMPTY);
    hide WellFormed;
    RunIsSound(EMPTY, events[..i]);
    RunIsSound(After(EMPTY, events[..i]), events[i..j]);
    AfterSplits(EMPTY, events[..i], events[i..j]);
    assert events[..i] + events[i..j] == events[..j];
  }

  /**
   * Over every run a reservation, once made, keeps its record for ever; its charge never rises in any
   * dimension, and once it has moved it never moves again.
   */
  lemma ChargeMovesAtMostOnce(events: seq<Event>, id: ReservationId, i: nat, j: nat, k: nat)
    requires i <= j <= k <= |events| && ChargeAfter(events, i, id).Some?
    ensures ChargeAfter(events, j, id).Some? && ChargeAfter(events, k, id).Some?
    ensures After(EMPTY, events[..k]).reservations[id].record == After(EMPTY, events[..i]).reservations[id].record
    ensures AtMost(ChargeAfter(events, j, id).value, ChargeAfter(events, i, id).value)
    ensures ChargeAfter(events, j, id) != ChargeAfter(events, i, id) ==>
              ChargeAfter(events, k, id) == ChargeAfter(events, j, id)
  {
    var a, b, c := After(EMPTY, events[..i]), After(EMPTY, events[..j]), After(EMPTY, events[..k]);
    PrefixExtends(events, i, j);
    PrefixExtends(events, j, k);
    hide After;
    hide ValidReservation;
    hide ValidReconciliation;
    hide FromCaps;
    hide FromCharge;
    hide Grows;
    hide SoundImport;
    assert SoundReservation(id, b.reservations[id]);
    if a.reservations[id].reconciliation.None? && b.reservations[id].reconciliation.Some? {
      ReconciliationNeverRaises(b.reservations[id].record, b.reservations[id].reconciliation.value);
    }
  }

  /** Once a reconciliation is committed, the permission for a regenerated successor never flips. */
  lemma SuccessorPermissionIsFinal(events: seq<Event>, id: ReservationId, i: nat, j: nat)
    requires i <= j <= |events|
    requires id in After(EMPTY, events[..i]).reservations
    requires After(EMPTY, events[..i]).reservations[id].reconciliation.Some?
    ensures MayAdmitSuccessor(After(EMPTY, events[..j]), id) == MayAdmitSuccessor(After(EMPTY, events[..i]), id)
    ensures MayAdmitSuccessor(After(EMPTY, events[..j]), id) ==>
              Charge(After(EMPTY, events[..j]).reservations[id]) == NOTHING
  {
    PrefixExtends(events, i, j);
    hide After;
    hide ValidReservation;
    hide ValidReconciliation;
    hide Grows;
    hide SoundImport;
    var stored := After(EMPTY, events[..i]).reservations[id];
    assert SoundReservation(id, stored);
    ReconciliationNeverRaises(stored.record, stored.reconciliation.value);
  }

  // ---- Replays ----

  lemma RecordMatchesItsRequest(s: LedgerState, request: Request, atMs: int, disk: Disk)
    requires WellFormed(s) && Reserved(s, request, atMs, disk).1.Ok?
    ensures var (s', r) := Reserved(s, request, atMs, disk);
            && ExistingMatchesRequest(r.value.1, request)
            && ReservationId(request.identities.attemptKey) in s'.reservations
            && s'.reservations[ReservationId(request.identities.attemptKey)].record == r.value.1
  {
    ProposalIsValid(request, atMs);
    ProposalKey(request, atMs);
    hide RequestRecord;
    hide ExistingMatchesRequest;
    hide ValidReservation;
    hide ValidReconciliation;
    hide ClockRolledBack;
    hide FirstFailure;
    hide LimitsFor;
    hide SoundImport;
    hide Append;
  }

  lemma ProposalKey(request: Request, atMs: int)
    ensures RequestRecord(request, atMs).Some? ==>
              RequestRecord(request, atMs).value.reservationId == ReservationId(request.identities.attemptKey)
  {
    hide UtcDayId;
    hide LimitsFor;
    hide StableId;
    hide ValidReservation;
  }

  /** A request is valid at every time of the calendar once it is valid at one. */
  lemma ValidityIsTimeless(request: Request, a: int, b: int)
    requires RequestRecord(request, a).Some? && UtcDayId(b).Ok?
    ensures RequestRecord(request, b).Some?
  {
    hide UtcDayId;
    hide LimitsFor;
    hide StableId;
    hide ValidEffectCaps;
  }

  /**
   * Replaying an admitted request returns the stored record and changes nothing, after any further events
   * and at any time of the calendar: with the clock set back, and with no headroom left.
   */
  lemma ReplayIsIdempotent(before: seq<Event>, request: Request, atMs: int, disk: Disk, after: seq<Event>,
                           laterMs: int, laterDisk: Disk)
    requires Reserved(After(EMPTY, before), request, atMs, disk).1.Ok? && UtcDayId(laterMs).Ok?
    ensures var record := Reserved(After(EMPTY, before), request, atMs, disk).1.value.1;
            var s := After(EMPTY, before + [Reserve(request, atMs, disk)] + after);
            Reserved(s, request, laterMs, laterDisk) == (s, Ok((ExistingIdentical, record)))
  {
    assert WellFormed(EMPTY);
    var s0, e := After(EMPTY, before), Reserve(request, atMs, disk);
    var s1, s2 := Step(s0, e), After(EMPTY, before + [e] + after);
    assert After(EMPTY, before + [e]) == s1 by {
      assert (before + [e])[..|before|] == before;
    }
    AfterSplits(EMPTY, before + [e], after);
    hide After;
    hide UtcDayId;
    RunIsSound(EMPTY, before);
    RecordMatchesItsRequest(s0, request, atMs, disk);
    RunIsSound(s0, [e]);
    StepIsSound(s0, e);
    RunIsSound(s1, after);
    StoredRequestReplays(s2, request, laterMs, laterDisk);
  }

  lemma StoredRequestReplays(s: LedgerState, request: Request, atMs: int, disk: Disk)
    requires WellFormed(s) && UtcDayId(atMs).Ok?
    requires var id := ReservationId(request.identities.attemptKey);
             id in s.reservations && ExistingMatchesRequest(s.reservations[id].record, request)
    ensures var id := ReservationId(request.identities.attemptKey);
            Reserved(s, request, atMs, disk) == (s, Ok((ExistingIdentical, s.reservations[id].record)))
  {
    var id := ReservationId(request.identities.attemptKey);
    var record := s.reservations[id].record;
    assert SoundReservation(id, s.reservations[id]);
    assert RequestRecord(request, record.reservedAtMs).Some?;
    hide RequestRecord;
    hide ExistingMatchesRequest;
    hide ValidReservation;
    hide ValidReconciliation;
    hide ClockRolledBack;
    hide FirstFailure;
    hide UtcDayId;
    hide Append;
    ValidityIsTimeless(request, record.reservedAtMs, atMs);
    ProposalKey(request, atMs);
  }
}

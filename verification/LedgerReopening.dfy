/** Runs in which the ledger is reopened, and what the directory itself then promises. */
module LedgerReopening {
  import opened Prelude
  import opened Budget
  import opened LedgerRecords
  import opened Accounting
  import opened LedgerSpec
  import opened LedgerRuns
  import opened LedgerDurable

  datatype Action = Act(event: Event) | Reopen

  /** Reopening replaces the maps by what the directory records; a directory that does not open changes nothing. */
  ghost function Perform(s: LedgerState, a: Action): LedgerState {
    match a
    case Act(e) => Step(s, e)
    case Reopen => if Readable(s.directory) then Rebuilt(s.directory) else s
  }

  ghost function Course(actions: seq<Action>): LedgerState {
    if actions == [] then EMPTY else Perform(Course(actions[..|actions| - 1]), actions[|actions| - 1])
  }

  ghost predicate SharedAction(a: Action, p: Policy) {
    match a
    case Act(Reserve(request, _, _)) => SharesPolicy(request, p)
    case Act(Import(_, _)) => false
    case _ => true
  }

  ghost predicate SharedCourse(actions: seq<Action>, p: Policy) {
    forall i :: 0 <= i < |actions| ==> SharedAction(actions[i], p)
  }

  // ---- What every action keeps ----

  /** A file is torn, or it is what its name says. */
  ghost predicate Filed(dir: Directory) {
    forall name :: name in dir ==> dir[name] == Unreadable || ReadableFile(dir, name)
  }

  ghost predicate Sound(s: LedgerState) {
    WellFormed(s) && Recorded(s) && Filed(s.directory)
  }

  lemma AppendFiles(dir: Directory, name: FileName, record: FileRecord, disk: Disk)
    requires Filed(dir) && (name !in dir ==> ReadableFile(dir[name := Canonical(record)], name))
    ensures Filed(Append(dir, name, record, disk).0)
  {
    hide ValidReservation;
    hide ValidReconciliation;
    hide ValidLegacyImport;
    var dir' := Append(dir, name, record, disk).0;
    forall other | other in dir' ensures dir'[other] == Unreadable || ReadableFile(dir', other) {
      if other in dir {
        assert dir[other] == Unreadable || ReadableFile(dir, other);
      }
    }
  }

  lemma ReserveFiles(s: LedgerState, request: Request, atMs: int, disk: Disk)
    requires Filed(s.directory)
    ensures Filed(Reserved(s, request, atMs, disk).0.directory)
  {
    hide Prepared;
    hide ValidReservation;
    hide Append;
    hide Filed;
    var prepared := Prepared(s, request, atMs);
    if prepared.Ok? && ValidReservation(prepared.value) {
      var record := prepared.value;
      AppendFiles(s.directory, ReservationFile(record.reservationId), ReservationRecord(record), disk);
    }
  }

  lemma ReconciliationReads(s: LedgerState, id: ReservationId, value: Reconciliation)
    requires Recorded(s) && id in s.reservations && value.reservationId == id
    requires ValidReconciliation(s.reservations[id].record, value)
    ensures ReadableFile(s.directory[ReconciliationFile(id) := Canonical(ReconciliationRecord(value))],
                         ReconciliationFile(id))
  {
    hide ValidReconciliation;
  }

  lemma ReconcileFiles(s: LedgerState, id: ReservationId, decision: Decision, disk: Disk)
    requires Recorded(s) && Filed(s.directory) && (id in s.reservations ==>
                                                     s.reservations[id].record.reservationId == id)
    ensures Filed(Reconciled(s, id, decision, disk).0.directory)
  {
    hide Recorded;
    hide ValidReconciliation;
    hide ReconciliationOf;
    hide Append;
    hide Filed;
    hide ReadableFile;
    if id in s.reservations {
      var record := s.reservations[id].record;
      var value := ReconciliationOf(record, decision);
      ReconciliationNames(record, decision);
      if ValidReconciliation(record, value) {
        ReconciliationReads(s, id, value);
        AppendFiles(s.directory, ReconciliationFile(id), ReconciliationRecord(value), disk);
      }
    }
  }

  lemma ImportFiles(s: LedgerState, legacy: LegacyImport, disk: Disk)
    requires Filed(s.directory)
    ensures Filed(Imported(s, legacy, disk).0.directory)
  {
    hide ValidLegacyImport;
    hide Append;
    hide Filed;
    if ValidLegacyImport(legacy) {
      AppendFiles(s.directory, LegacyFile(legacy.importId), LegacyRecord(legacy), disk);
    }
  }

  lemma StepIsFiled(s: LedgerState, e: Event)
    requires Sound(s)
    ensures Sound(Step(s, e)) && Extends(s, Step(s, e))
  {
    StepIsSound(s, e);
    StepRecords(s, e);
    hide WellFormed;
    hide Recorded;
    hide Filed;
    hide Extends;
    hide Reserved;
    hide Reconciled;
    hide Imported;
    match e
    case Reserve(request, atMs, disk) => ReserveFiles(s, request, atMs, disk);
    case Reconcile(id, decision, disk) =>
      ReservationIsSound(s, id);
      ReconcileFiles(s, id, decision, disk);
    case Import(legacy, disk) => ImportFiles(s, legacy, disk);
  }

  lemma RebuiltIsSound(dir: Directory)
    requires Readable(dir)
    ensures Sound(Rebuilt(dir))
  {
    hide ValidReservation;
    hide ValidReconciliation;
    hide ValidLegacyImport;
    var s := Rebuilt(dir);
    forall id | id in s.reservations ensures SoundReservation(id, s.reservations[id]) { StoredIsSound(dir, id); }
    forall id | id in s.imports ensures SoundImport(id, s.imports[id]) {
      assert ReadableFile(dir, LegacyFile(id));
    }
    assert Recorded(s) by { RebuiltIsRecorded(dir); }
  }

  lemma RebuiltIsRecorded(dir: Directory)
    requires Readable(dir)
    ensures Recorded(Rebuilt(dir))
  {
    hide ValidReservation;
    hide ValidReconciliation;
    hide ValidLegacyImport;
    assert forall id :: ReservationFile(id) in dir ==> ReadableFile(dir, ReservationFile(id));
    assert forall id :: ReconciliationFile(id) in dir ==> ReadableFile(dir, ReconciliationFile(id));
    assert forall id :: LegacyFile(id) in dir ==> ReadableFile(dir, LegacyFile(id));
  }

  lemma PerformIsSound(s: LedgerState, a: Action)
    requires Sound(s)
    ensures Sound(Perform(s, a)) && Extends(s, Perform(s, a))
  {
    match a
    case Act(e) => StepIsFiled(s, e);
    case Reopen =>
      if Readable(s.directory) {
        RebuiltIsSound(s.directory);
        RecordedIsRebuilt(s);
      } else {
        ExtendsItself(s);
      }
  }

  /** Over every course, whatever the disk did and whenever the ledger was reopened, no record is lost or changed. */
  lemma {:induction false} CourseKeepsRecords(before: seq<Action>, after: seq<Action>)
    ensures Sound(Course(before + after)) && Extends(Course(before), Course(before + after))
    decreases |before| + |after|, |after|
  {
    hide Sound;
    hide Extends;
    hide Perform;
    if after != [] {
      var last := |after| - 1;
      assert (before + after)[..|before + after| - 1] == before + after[..last];
      CourseKeepsRecords(before, after[..last]);
      PerformIsSound(Course(before + after[..last]), after[last]);
      ExtendsChains(Course(before), Course(before + after[..last]), Course(before + after));
    } else {
      assert before + after == before;
      ExtendsItself(Course(before));
      if before == [] {
        EmptyIsSound();
      } else {
        CourseKeepsRecords(before[..|before| - 1], []);
        assert before[..|before| - 1] + [] == before[..|before| - 1];
        PerformIsSound(Course(before[..|before| - 1]), before[|before| - 1]);
      }
    }
  }

  lemma EmptyIsSound()
    ensures Sound(EMPTY)
  {
  }

  // ---- Charges only fall ----

  /** Nothing was imported, on disk or in memory. */
  ghost predicate Plain(s: LedgerState) {
    s.imports == map[] && forall name :: name in s.directory ==> !name.LegacyFile?
  }

  lemma ReservePlain(s: LedgerState, request: Request, atMs: int, disk: Disk)
    requires Plain(s)
    ensures Plain(Reserved(s, request, atMs, disk).0)
  {
    hide Prepared;
    hide ValidReservation;
  }

  lemma ReconcilePlain(s: LedgerState, id: ReservationId, decision: Decision, disk: Disk)
    requires Plain(s)
    ensures Plain(Reconciled(s, id, decision, disk).0)
  {
    hide ValidReconciliation;
    hide ReconciliationOf;
  }

  lemma RebuiltPlain(s: LedgerState)
    requires Plain(s) && Readable(s.directory)
    ensures Plain(Rebuilt(s.directory))
  {
    hide ReadableFile;
    hide StoredIn;
    hide ImportIn;
  }

  lemma PerformPlain(s: LedgerState, a: Action, p: Policy)
    requires Plain(s) && SharedAction(a, p)
    ensures Plain(Perform(s, a))
  {
    hide Plain;
    hide Reserved;
    hide Reconciled;
    match a
    case Act(Reserve(request, atMs, disk)) => ReservePlain(s, request, atMs, disk);
    case Act(Reconcile(id, decision, disk)) => ReconcilePlain(s, id, decision, disk);
    case Reopen => if Readable(s.directory) { RebuiltPlain(s); }
  }

  lemma KeptCharge(id: ReservationId, earlier: Stored, later: Stored)
    requires Keeps(earlier, later) && SoundReservation(id, later)
    ensures later.record == earlier.record && AtMost(Charge(later), Charge(earlier))
  {
    hide ValidReservation;
    hide ValidReconciliation;
    hide FromCaps;
    hide FromCharge;
    if later != earlier {
      ReconciliationNeverRaises(later.record, later.reconciliation.value);
    }
  }

  lemma KeptIsBelow(less: LedgerState, more: LedgerState)
    requires less.imports == more.imports == map[]
    requires forall id :: id in less.reservations ==>
               && id in more.reservations && Keeps(more.reservations[id], less.reservations[id])
               && SoundReservation(id, less.reservations[id])
    ensures Below(less, more)
  {
    hide Keeps;
    hide SoundReservation;
    hide Charge;
    forall id | id in less.reservations
      ensures less.reservations[id].record == more.reservations[id].record
      ensures AtMost(Charge(less.reservations[id]), Charge(more.reservations[id]))
    {
      KeptCharge(id, more.reservations[id], less.reservations[id]);
    }
  }

  lemma BelowIsWithin(less: LedgerState, more: LedgerState, p: Policy)
    requires Below(less, more) && WithinPolicy(more, p)
    ensures WithinPolicy(less, p)
  {
    hide Total;
    hide Promise;
    hide InScope;
    forall scope | Promise(p, scope).Some? ensures AtMost(Total(less, scope), Promise(p, scope).value) {
      BelowTotals(less, more, scope, scope);
    }
  }

  // ---- What was admitted stays within the policy ----

  /** The reservations that passed every check; a reopened record that was never acknowledged is not one of them. */
  ghost function Admitted(actions: seq<Action>): set<ReservationId> {
    if actions == [] then {}
    else
      var before := actions[..|actions| - 1];
      Admitted(before)
      + if actions[|actions| - 1].Act? then Course(actions).reservations.Keys - Course(before).reservations.Keys else {}
  }

  function Only(s: LedgerState, ids: set<ReservationId>): LedgerState {
    s.(reservations := map id | id in s.reservations && id in ids :: s.reservations[id])
  }

  lemma OnlyKept(s: LedgerState, s': LedgerState, ids: set<ReservationId>, p: Policy)
    requires Extends(s, s') && WellFormed(s') && s.imports == s'.imports == map[] && ids <= s.reservations.Keys
    requires WithinPolicy(Only(s, ids), p)
    ensures WithinPolicy(Only(s', ids), p)
  {
    hide WithinPolicy;
    hide Keeps;
    hide SoundReservation;
    KeptIsBelow(Only(s', ids), Only(s, ids));
    BelowIsWithin(Only(s', ids), Only(s, ids), p);
  }

  lemma OnlyIsBelow(s: LedgerState, ids: set<ReservationId>)
    requires s.imports == map[]
    ensures Below(Only(s, ids), s)
  {
    hide Charge;
  }

  lemma OnlyGains(s: LedgerState, ids: set<ReservationId>, record: Reservation, s': LedgerState)
    requires record.reservationId !in s.reservations
    requires s'.reservations == s.reservations[record.reservationId := Stored(record, None)]
    ensures Only(s', ids + {record.reservationId}).reservations
         == Only(s, ids).reservations[record.reservationId := Stored(record, None)]
  {
  }

  lemma AdmitsAdds(s: LedgerState, request: Request, atMs: int, s': LedgerState)
    requires Admits(s, request, atMs, s')
    ensures RequestRecord(request, atMs).Some? && LimitsFor(request).Some?
    ensures var record := RequestRecord(request, atMs).value;
            && record.reservationId !in s.reservations
            && s'.reservations == s.reservations[record.reservationId := Stored(record, None)]
            && s'.reservations.Keys == s.reservations.Keys + {record.reservationId}
            && FirstFailure(s, ChecksFor(LimitsFor(request).value, record), FromCaps(record.caps)).None?
  {
    ProposalIsValid(request, atMs);
    hide RequestRecord;
    hide LimitsFor;
    hide FirstFailure;
    hide ChecksFor;
    hide ClockRolledBack;
  }

  lemma OnlyAdmits(s: LedgerState, ids: set<ReservationId>, p: Policy, request: Request, atMs: int, s': LedgerState)
    requires Admits(s, request, atMs, s') && SharesPolicy(request, p) && s.imports == s'.imports == map[]
    requires WithinPolicy(Only(s, ids), p)
    ensures RequestRecord(request, atMs).Some?
    ensures WithinPolicy(Only(s', ids + {RequestRecord(request, atMs).value.reservationId}), p)
  {
    AdmitsAdds(s, request, atMs, s');
    OnlyIsBelow(s, ids);
    hide Admits;
    hide RequestRecord;
    hide LimitsFor;
    hide FirstFailure;
    hide ChecksFor;
    hide Below;
    hide Total;
    hide Promise;
    hide SharesPolicy;
    var record := RequestRecord(request, atMs).value;
    var less, less' := Only(s, ids), Only(s', ids + {record.reservationId});
    OnlyGains(s, ids, record, s');
    forall scope | Promise(p, scope).Some? ensures AtMost(Total(less', scope), Promise(p, scope).value) {
      AdmissionOnTop(less, s, p, request, atMs, less', scope);
    }
  }

  lemma AdmittedStep(s: LedgerState, a: Action, p: Policy, ids: set<ReservationId>)
    requires Sound(s) && Plain(s) && SharedAction(a, p) && ids <= s.reservations.Keys && WithinPolicy(Only(s, ids), p)
    ensures var s' := Perform(s, a);
            var added := if a.Act? then s'.reservations.Keys - s.reservations.Keys else {};
            ids + added <= s'.reservations.Keys && WithinPolicy(Only(s', ids + added), p)
  {
    hide *;
    var s' := Perform(s, a);
    StepFacts(s, a, p);
    var added := if a.Act? then s'.reservations.Keys - s.reservations.Keys else {};
    if added == {} {
      assert ids + added == ids;
      OnlyKept(s, s', ids, p);
    } else {
      NewIsAdmitted(s, a, p);
      AdmitsAdds(s, a.event.request, a.event.atMs, s');
      assert added == {RequestRecord(a.event.request, a.event.atMs).value.reservationId};
      OnlyAdmits(s, ids, p, a.event.request, a.event.atMs, s');
    }
  }

  lemma StepFacts(s: LedgerState, a: Action, p: Policy)
    requires Sound(s) && Plain(s) && SharedAction(a, p)
    ensures var s' := Perform(s, a);
            && Extends(s, s') && WellFormed(s') && Sound(s') && Plain(s')
            && s.imports == s'.imports == map[] && s.reservations.Keys <= s'.reservations.Keys
  {
    PerformIsSound(s, a);
    PerformPlain(s, a, p);
    hide Perform;
    hide WellFormed;
    hide Recorded;
    hide Filed;
    hide Keeps;
  }

  lemma NewIsAdmitted(s: LedgerState, a: Action, p: Policy)
    requires a.Act? && SharedAction(a, p) && Perform(s, a).reservations.Keys - s.reservations.Keys != {}
    ensures a.event.Reserve? && Admits(s, a.event.request, a.event.atMs, Perform(s, a))
    ensures SharesPolicy(a.event.request, p)
  {
    hide Reserved;
    hide Reconciled;
    hide SharesPolicy;
    match a.event
    case Reserve(request, atMs, disk) => ReservationCases(s, request, atMs, disk);
    case Reconcile(id, decision, disk) =>
      ReconciliationCases(s, id, decision, disk);
      hide ValidReconciliation;
  }

  /**
   * Over every course of one policy, with any disk and reopened at any time, the charges of all reservations
   * that were admitted stay within the policy.
   */
  lemma {:induction false} AdmittedStaysWithin(actions: seq<Action>, p: Policy)
    requires SharedCourse(actions, p)
    ensures Plain(Course(actions)) && Admitted(actions) <= Course(actions).reservations.Keys
    ensures WithinPolicy(Only(Course(actions), Admitted(actions)), p)
  {
    hide WithinPolicy;
    hide Perform;
    hide Sound;
    hide Plain;
    if actions == [] {
      EmptyIsWithin(p);
      assert Only(EMPTY, {}) == EMPTY;
      EmptyIsPlain();
    } else {
      var before, last := actions[..|actions| - 1], actions[|actions| - 1];
      AdmittedStaysWithin(before, p);
      CourseKeepsRecords(before, []);
      assert before + [] == before;
      assert SharedAction(last, p);
      PerformPlain(Course(before), last, p);
      AdmittedStep(Course(before), last, p, Admitted(before));
    }
  }

  lemma EmptyIsPlain()
    ensures Plain(EMPTY)
  {
  }
}

/** A machine that may stop: which acknowledged records its restart gives back. */
module LedgerCrash {
  import opened Prelude
  import opened Budget
  import opened Calendar
  import opened LedgerRecords
  import opened LedgerSpec
  import opened LedgerRuns
  import opened LedgerDurable
  import opened LedgerReopening
  import opened LedgerLapse

  /** The process acts or opens the ledger, or the machine stops and loses some files. */
  datatype Happening = Does(action: Action) | Crash(lost: set<FileName>)

  /** One record under its name. */
  type Filing = (FileName, FileRecord)

  /** The ledger, whether a process has it open, and the records ever answered as created and as stored at all. */
  datatype Machine = Machine(ledger: LedgerState, open: bool, created: set<Filing>, acknowledged: set<Filing>)

  const FRESH := Machine(EMPTY, true, {}, {})

  /** What an event is answered with, if not with an error. */
  ghost function Answer(s: LedgerState, e: Event): Option<(AppendOutcome, Filing)> {
    match e
    case Reserve(request, atMs, disk) => (
      match Reserved(s, request, atMs, disk).1
      case Ok((how, record)) => Some((how, (ReservationFile(record.reservationId), ReservationRecord(record))))
      case Err(_) => None)
    case Reconcile(id, decision, disk) => (
      match Reconciled(s, id, decision, disk).1
      case Ok((how, value)) => Some((how, (ReconciliationFile(value.reservationId), ReconciliationRecord(value))))
      case Err(_) => None)
    case Import(legacy, disk) => (
      match Imported(s, legacy, disk).1
      case Ok(how) => Some((how, (LegacyFile(legacy.importId), LegacyRecord(legacy))))
      case Err(_) => None)
  }

  ghost function Handled(m: Machine, e: Event): Machine {
    var answer := Answer(m.ledger, e);
    Machine(Step(m.ledger, e), m.open,
            m.created + (if answer.Some? && answer.value.0 == Created then {answer.value.1} else {}),
            m.acknowledged + (if answer.Some? then {answer.value.1} else {}))
  }

  /** A process that has not opened the ledger does nothing to it; a crash leaves no process. */
  ghost function Happens(m: Machine, h: Happening): Machine {
    match h
    case Does(Act(e)) => if m.open then Handled(m, e) else m
    case Does(Reopen) =>
      if Readable(m.ledger.directory) then m.(ledger := Rebuilt(m.ledger.directory), open := true)
      else m.(open := false)
    case Crash(lost) => m.(ledger := LedgerState(m.ledger.directory - lost, map[], map[]), open := false)
  }

  ghost function History(happenings: seq<Happening>): Machine {
    if happenings == [] then FRESH
    else Happens(History(happenings[..|happenings| - 1]), happenings[|happenings| - 1])
  }

  /** A crash loses no file whose creation was answered after its record and its directory were synced. */
  ghost predicate MayHappen(m: Machine, h: Happening) {
    h.Crash? ==> forall filing :: filing in m.created ==> filing.0 !in h.lost
  }

  ghost predicate Possible(happenings: seq<Happening>) {
    forall i :: 0 <= i < |happenings| ==> MayHappen(History(happenings[..i]), happenings[i])
  }

  predicate OnDisk(m: Machine, filing: Filing) {
    filing.0 in m.ledger.directory && m.ledger.directory[filing.0] == Canonical(filing.1)
  }

  // ---- What every history keeps ----

  /** Memory is in the directory, and so is everything that was ever answered as created. */
  ghost predicate Consistent(m: Machine) {
    && WellFormed(m.ledger) && Recorded(m.ledger)
    && m.created <= m.acknowledged
    && forall filing :: filing in m.created ==> OnDisk(m, filing)
  }

  /** What one event can do to the directory, and what its answer says about it. */
  lemma AppendAnswers(dir: Directory, name: FileName, record: FileRecord, disk: Disk)
    ensures var (dir', outcome) := Append(dir, name, record, disk);
            && (outcome.Ok? ==> name in dir' && dir'[name] == Canonical(record))
            && (disk != FailsToSync ==> forall other :: other in dir' && dir'[other].Canonical? ==>
                  (other in dir && dir'[other] == dir[other]) || (outcome == Ok(Created) && other == name))
  {
  }

  /** The directory after an event: nothing new in it is readable, unless it was answered as created. */
  ghost predicate Answered(s: LedgerState, e: Event, s': LedgerState, answer: Option<(AppendOutcome, Filing)>) {
    && (answer.Some? ==> answer.value.1.0 in s'.directory
                         && s'.directory[answer.value.1.0] == Canonical(answer.value.1.1))
    && (e.disk != FailsToSync ==> forall name :: name in s'.directory && s'.directory[name].Canonical? ==>
          || (name in s.directory && s'.directory[name] == s.directory[name])
          || (answer.Some? && answer.value.0 == Created && answer.value.1.0 == name))
  }

  lemma ReserveAnswers(s: LedgerState, request: Request, atMs: int, disk: Disk)
    requires Recorded(s)
    ensures var e := Reserve(request, atMs, disk); Answered(s, e, Step(s, e), Answer(s, e))
  {
    hide Prepared;
    hide ValidReservation;
    hide Append;
    var prepared := Prepared(s, request, atMs);
    if prepared.Ok? {
      var record := prepared.value;
      AppendAnswers(s.directory, ReservationFile(record.reservationId), ReservationRecord(record), disk);
    }
  }

  lemma ReconcileAnswers(s: LedgerState, id: ReservationId, decision: Decision, disk: Disk)
    requires Recorded(s) && (id in s.reservations ==> s.reservations[id].record.reservationId == id)
    ensures var e := Reconcile(id, decision, disk); Answered(s, e, Step(s, e), Answer(s, e))
  {
    hide ValidReconciliation;
    hide ReconciliationOf;
    hide Append;
    if id in s.reservations {
      var value := ReconciliationOf(s.reservations[id].record, decision);
      ReconciliationNames(s.reservations[id].record, decision);
      AppendAnswers(s.directory, ReconciliationFile(id), ReconciliationRecord(value), disk);
    }
  }

  lemma ImportAnswers(s: LedgerState, legacy: LegacyImport, disk: Disk)
    requires Recorded(s)
    ensures var e := Import(legacy, disk); Answered(s, e, Step(s, e), Answer(s, e))
  {
    hide ValidLegacyImport;
    hide Append;
    AppendAnswers(s.directory, LegacyFile(legacy.importId), LegacyRecord(legacy), disk);
  }

  lemma StepAnswers(s: LedgerState, e: Event)
    requires WellFormed(s) && Recorded(s)
    ensures Answered(s, e, Step(s, e), Answer(s, e))
  {
    match e
    case Reserve(request, atMs, disk) => hide *; ReserveAnswers(s, request, atMs, disk);
    case Reconcile(id, decision, disk) =>
      hide *;
      ReservationIsSound(s, id);
      ReconcileAnswers(s, id, decision, disk);
    case Import(legacy, disk) => hide *; ImportAnswers(s, legacy, disk);
  }

  lemma HandledIsConsistent(m: Machine, e: Event)
    requires Consistent(m)
    ensures Consistent(Handled(m, e)) && Grows(m.ledger.directory, Step(m.ledger, e).directory)
  {
    hide WellFormed;
    hide Recorded;
    hide Step;
    hide Answer;
    StepIsSound(m.ledger, e);
    StepRecords(m.ledger, e);
    StepAnswers(m.ledger, e);
  }

  lemma CrashIsConsistent(m: Machine, lost: set<FileName>)
    requires Consistent(m) && MayHappen(m, Crash(lost))
    ensures Consistent(Happens(m, Crash(lost)))
  {
    hide ValidReservation;
    hide ValidReconciliation;
    hide ValidLegacyImport;
  }

  lemma HappensConsistently(m: Machine, h: Happening)
    requires Consistent(m) && MayHappen(m, h)
    ensures Consistent(Happens(m, h))
    ensures m.created <= Happens(m, h).created && m.acknowledged <= Happens(m, h).acknowledged
  {
    match h
    case Does(Act(e)) =>
      if m.open {
        HandledIsConsistent(m, e);
      }
    case Does(Reopen) =>
      if Readable(m.ledger.directory) {
        RebuiltIsSound(m.ledger.directory);
        hide Rebuilt;
      }
    case Crash(lost) => CrashIsConsistent(m, lost);
  }

  lemma FreshIsConsistent()
    ensures Consistent(FRESH)
  {
  }

  lemma {:induction false} HistoryIsConsistent(happenings: seq<Happening>)
    requires Possible(happenings)
    ensures Consistent(History(happenings))
  {
    hide Consistent;
    hide Happens;
    if happenings == [] {
      FreshIsConsistent();
    } else {
      var last := |happenings| - 1;
      LastMayHappen(happenings);
      HistoryIsConsistent(happenings[..last]);
      HappensConsistently(History(happenings[..last]), happenings[last]);
    }
  }

  lemma LastMayHappen(happenings: seq<Happening>)
    requires Possible(happenings) && happenings != []
    ensures Possible(happenings[..|happenings| - 1])
    ensures MayHappen(History(happenings[..|happenings| - 1]), happenings[|happenings| - 1])
  {
    hide History;
    hide MayHappen;
    var before := happenings[..|happenings| - 1];
    forall i | 0 <= i < |before| ensures MayHappen(History(before[..i]), before[i]) {
      assert before[..i] == happenings[..i];
    }
  }

  lemma {:induction false} CreatedGrows(before: seq<Happening>, after: seq<Happening>)
    requires Possible(before + after)
    ensures History(before).created <= History(before + after).created
    decreases |after|
  {
    hide Consistent;
    hide Happens;
    hide Possible;
    if after == [] {
      assert before + after == before;
    } else {
      var all, last := before + after, |after| - 1;
      assert all[..|all| - 1] == before + after[..last] && all[|all| - 1] == after[last];
      LastMayHappen(all);
      CreatedGrows(before, after[..last]);
      HistoryIsConsistent(before + after[..last]);
      HappensConsistently(History(before + after[..last]), after[last]);
    }
  }

  /** A record once answered as created is on disk in every possible future, through every crash. */
  lemma CreatedIsForever(before: seq<Happening>, after: seq<Happening>, filing: Filing)
    requires Possible(before + after) && filing in History(before).created
    ensures OnDisk(History(before + after), filing)
  {
    hide *;
    CreatedGrows(before, after);
    HistoryIsConsistent(before + after);
    ConsistentDisk(History(before + after), filing);
  }

  lemma ConsistentDisk(m: Machine, filing: Filing)
    requires Consistent(m)
    ensures filing in m.created ==> OnDisk(m, filing)
  {
    hide WellFormed;
    hide Recorded;
    hide OnDisk;
  }

  // ---- Exactly which acknowledgements survive ----

  /** In every possible future, what was acknowledged is on disk. */
  ghost predicate Survives(happenings: seq<Happening>, filing: Filing) {
    forall future :: Possible(happenings + future) ==> OnDisk(History(happenings + future), filing)
  }

  lemma Extended(happenings: seq<Happening>, h: Happening)
    requires Possible(happenings) && MayHappen(History(happenings), h)
    ensures Possible(happenings + [h]) && History(happenings + [h]) == Happens(History(happenings), h)
  {
    hide MayHappen;
    hide Happens;
    var all := happenings + [h];
    assert all[..|happenings|] == happenings;
    forall i | 0 <= i < |all| ensures MayHappen(History(all[..i]), all[i]) {
      if i < |happenings| {
        assert all[..i] == happenings[..i];
      }
    }
  }

  lemma CrashTakes(m: Machine, filing: Filing)
    ensures !OnDisk(Happens(m, Crash({filing.0})), filing)
  {
  }

  /** A record whose file was never answered as created is lost by the crash that takes that file. */
  lemma UnsyncedMayBeLost(happenings: seq<Happening>, filing: Filing)
    requires Possible(happenings) && filing !in History(happenings).created
    ensures !Survives(happenings, filing)
  {
    var m, crash := History(happenings), Crash({filing.0});
    if created :| created in m.created && created.0 == filing.0 {
      HistoryIsConsistent(happenings);
      ConsistentDisk(m, created);
      assert !OnDisk(m, filing);
      assert happenings + [] == happenings;
    } else {
      assert MayHappen(m, crash);
      hide *;
      Extended(happenings, crash);
      CrashTakes(m, filing);
      LostAfter(happenings, [crash], filing);
    }
  }

  lemma LostAfter(happenings: seq<Happening>, future: seq<Happening>, filing: Filing)
    requires Possible(happenings + future) && !OnDisk(History(happenings + future), filing)
    ensures !Survives(happenings, filing)
  {
    hide Possible;
    hide OnDisk;
    hide History;
  }

  /**
   * A record survives every possible future exactly when it was answered as created. So all that was
   * acknowledged survives exactly when no acknowledgement was of a file found there but never so answered.
   */
  lemma SurvivesExactly(happenings: seq<Happening>)
    requires Possible(happenings)
    ensures forall filing :: Survives(happenings, filing) <==> filing in History(happenings).created
    ensures (forall filing :: filing in History(happenings).acknowledged ==> Survives(happenings, filing))
       <==> History(happenings).acknowledged <= History(happenings).created
  {
    hide *;
    forall filing ensures Survives(happenings, filing) <==> filing in History(happenings).created {
      if filing in History(happenings).created {
        CreatedSurvives(happenings, filing);
      } else {
        UnsyncedMayBeLost(happenings, filing);
      }
    }
  }

  lemma CreatedSurvives(happenings: seq<Happening>, filing: Filing)
    requires filing in History(happenings).created
    ensures Survives(happenings, filing)
  {
    hide Possible;
    hide OnDisk;
    hide History;
    forall future | Possible(happenings + future) ensures OnDisk(History(happenings + future), filing) {
      CreatedIsForever(happenings, future, filing);
    }
  }

  // ---- Without failed syncs ----

  ghost predicate Synced(happenings: seq<Happening>) {
    forall i :: 0 <= i < |happenings| && happenings[i].Does? && happenings[i].action.Act? ==>
      happenings[i].action.event.disk != FailsToSync
  }

  /** Whatever is readable in the directory, or was acknowledged, was answered as created. */
  ghost predicate AllCreated(m: Machine) {
    && (forall name :: name in m.ledger.directory && m.ledger.directory[name].Canonical? ==>
          (name, m.ledger.directory[name].record) in m.created)
    && m.acknowledged <= m.created
  }

  lemma HandledCreates(m: Machine, e: Event)
    requires Consistent(m) && AllCreated(m) && e.disk != FailsToSync
    ensures AllCreated(Handled(m, e))
  {
    StepAnswers(m.ledger, e);
    hide WellFormed;
    hide Recorded;
    hide Step;
    hide Answer;
  }

  lemma HappensCreated(m: Machine, h: Happening)
    requires Consistent(m) && AllCreated(m) && Synced([h])
    ensures AllCreated(Happens(m, h))
  {
    assert [h][0] == h;
    match h
    case Does(Act(e)) =>
      if m.open {
        HandledCreates(m, e);
      }
    case Does(Reopen) =>
      assert Readable(m.ledger.directory) ==> Rebuilt(m.ledger.directory).directory == m.ledger.directory;
      hide Rebuilt;
    case Crash(lost) =>
  }

  /** As long as every sync succeeded or the write failed before it, all that was acknowledged survives. */
  lemma {:induction false} SyncedSurvives(happenings: seq<Happening>)
    requires Possible(happenings) && Synced(happenings)
    ensures AllCreated(History(happenings))
    ensures forall filing :: filing in History(happenings).acknowledged ==> Survives(happenings, filing)
  {
    if happenings == [] {
      assert AllCreated(FRESH);
    } else {
      var last := |happenings| - 1;
      var before := happenings[..last];
      assert Synced([happenings[last]]) && Synced(before);
      assert History(happenings) == Happens(History(before), happenings[last]);
      hide *;
      LastMayHappen(happenings);
      HistoryIsConsistent(before);
      SyncedSurvives(before);
      HappensCreated(History(before), happenings[last]);
    }
    AcknowledgedIsCreated(History(happenings));
    hide *;
    SurvivesExactly(happenings);
  }

  lemma AcknowledgedIsCreated(m: Machine)
    requires AllCreated(m)
    ensures m.acknowledged <= m.created
  {
  }

  // ---- A record acknowledged and lost ----

  /** Asked again, a request whose unsynced file is still there is answered as stored, and nothing is synced. */
  lemma RetryIsAcknowledged(s: LedgerState, p: Policy, caps: EffectCaps, attempt: string, atMs: int, disk: Disk,
                            record: Reservation)
    requires HoldsOne(p, caps) && UtcDayId(atMs).Ok? && s.reservations == map[] && s.imports == map[]
    requires RequestRecord(Scheduled(p, caps, attempt), atMs) == Some(record)
    requires ReservationFile(record.reservationId) in s.directory
    requires s.directory[ReservationFile(record.reservationId)] == Canonical(ReservationRecord(record))
    ensures Reserved(s, Scheduled(p, caps, attempt), atMs, disk).1 == Ok((ExistingIdentical, record))
  {
    ScheduledHasRoom(s, p, caps, attempt, atMs);
    hide HoldsOne;
    hide UtcDayId;
    hide RequestRecord;
    hide Headroom;
    hide ValidReservation;
    hide Scheduled;
  }

  lemma ActsWhenOpen(happenings: seq<Happening>, e: Event)
    requires Possible(happenings) && History(happenings).open
    ensures Possible(happenings + [Does(Act(e))])
    ensures History(happenings + [Does(Act(e))]) == Handled(History(happenings), e)
  {
    assert MayHappen(History(happenings), Does(Act(e)));
    hide History;
    hide MayHappen;
    hide Possible;
    Extended(happenings, Does(Act(e)));
  }

  lemma FailedCreation(m: Machine, p: Policy, caps: EffectCaps, attempt: string, atMs: int, record: Reservation)
    requires HoldsOne(p, caps) && UtcDayId(atMs).Ok? && m == FRESH
    requires RequestRecord(Scheduled(p, caps, attempt), atMs) == Some(record)
    ensures var after := Handled(m, Reserve(Scheduled(p, caps, attempt), atMs, FailsToSync));
            && after.open && after.created == {} && after.acknowledged == {}
            && after.ledger.reservations == map[] && after.ledger.imports == map[]
            && ReservationFile(record.reservationId) in after.ledger.directory
            && after.ledger.directory[ReservationFile(record.reservationId)] == Canonical(ReservationRecord(record))
  {
    ScheduledWrites(m.ledger, p, caps, attempt, atMs, FailsToSync);
    hide HoldsOne;
    hide UtcDayId;
    hide RequestRecord;
    hide Reserved;
    hide Scheduled;
  }

  lemma AcknowledgedRetry(m: Machine, p: Policy, caps: EffectCaps, attempt: string, atMs: int, disk: Disk,
                          record: Reservation)
    requires HoldsOne(p, caps) && UtcDayId(atMs).Ok? && m.created == {}
    requires m.ledger.reservations == map[] && m.ledger.imports == map[]
    requires RequestRecord(Scheduled(p, caps, attempt), atMs) == Some(record)
    requires ReservationFile(record.reservationId) in m.ledger.directory
    requires m.ledger.directory[ReservationFile(record.reservationId)] == Canonical(ReservationRecord(record))
    ensures var after := Handled(m, Reserve(Scheduled(p, caps, attempt), atMs, disk));
            && after.created == {}
            && (ReservationFile(record.reservationId), ReservationRecord(record)) in after.acknowledged
  {
    RetryIsAcknowledged(m.ledger, p, caps, attempt, atMs, disk, record);
    hide HoldsOne;
    hide UtcDayId;
    hide RequestRecord;
    hide Reserved;
    hide Scheduled;
  }

  function Retried(request: Request, atMs: int, disk: Disk): seq<Happening> {
    [Does(Act(Reserve(request, atMs, FailsToSync)))] + [Does(Act(Reserve(request, atMs, disk)))]
  }

  /**
   * A reservation that is created but not synced, asked for again and acknowledged, does not survive, even if
   * the disk is sound from then on.
   */
  lemma AcknowledgedAndLost(p: Policy, caps: EffectCaps, attempt: string, atMs: int, disk: Disk)
    requires HoldsOne(p, caps) && UtcDayId(atMs).Ok?
    ensures RequestRecord(Scheduled(p, caps, attempt), atMs).Some?
    ensures var record := RequestRecord(Scheduled(p, caps, attempt), atMs).value;
            var filing := (ReservationFile(record.reservationId), ReservationRecord(record));
            var happenings := Retried(Scheduled(p, caps, attempt), atMs, disk);
            && Possible(happenings) && filing in History(happenings).acknowledged
            && !Survives(happenings, filing)
  {
    var request := Scheduled(p, caps, attempt);
    var first, again := Reserve(request, atMs, FailsToSync), Reserve(request, atMs, disk);
    assert Retried(request, atMs, disk) == [] + [Does(Act(first))] + [Does(Act(again))];
    assert Possible([]) && History([]) == FRESH && FRESH.open;
    assert EMPTY.reservations == map[] && EMPTY.imports == map[];
    hide *;
    ScheduledHasRoom(EMPTY, p, caps, attempt, atMs);
    var record := RequestRecord(request, atMs).value;
    var filing := (ReservationFile(record.reservationId), ReservationRecord(record));
    ActsWhenOpen([], first);
    FailedCreation(FRESH, p, caps, attempt, atMs, record);
    ActsWhenOpen([] + [Does(Act(first))], again);
    AcknowledgedRetry(History([] + [Does(Act(first))]), p, caps, attempt, atMs, disk, record);
    UnsyncedMayBeLost(Retried(request, atMs, disk), filing);
  }
}

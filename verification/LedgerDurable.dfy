/** The in-memory maps are a cache of the directory: reopening rebuilds them, losing evidence never frees budget. */
module LedgerDurable {
  import opened Prelude
  import opened Budget
  import opened LedgerRecords
  import opened Accounting
  import opened LedgerSpec
  import opened LedgerRuns

  const MAX_LEDGER_FILES := 100_000

  /** What one file must be on its own. */
  predicate WellNamed(name: FileName, content: Content) {
    match name
    case ReservationFile(id) =>
      && content.Canonical? && content.record.ReservationRecord?
      && content.record.reservation.reservationId == id
      && ValidReservation(content.record.reservation)
    case ReconciliationFile(id) =>
      && content.Canonical? && content.record.ReconciliationRecord?
      && content.record.reconciliation.reservationId == id
    case LegacyFile(id) =>
      && content.Canonical? && content.record.LegacyRecord?
      && content.record.legacy.importId == id
      && ValidLegacyImport(content.record.legacy)
    case OtherFile(_) => false
  }

  /** One file is what its name says, and a reconciliation belongs to a reservation it is valid for. */
  predicate ReadableFile(dir: Directory, name: FileName)
    requires name in dir
  {
    && WellNamed(name, dir[name])
    && (name.ReconciliationFile? ==>
          var owner := ReservationFile(name.id);
          && owner in dir && dir[owner].Canonical? && dir[owner].record.ReservationRecord?
          && ValidReconciliation(dir[owner].record.reservation, dir[name].record.reconciliation))
  }

  predicate Readable(dir: Directory) {
    && |dir| <= MAX_LEDGER_FILES
    && forall name :: name in dir ==> ReadableFile(dir, name)
  }

  function StoredIn(dir: Directory, id: ReservationId): Stored
    requires Readable(dir) && ReservationFile(id) in dir
  {
    var record := (assert ReadableFile(dir, ReservationFile(id)); dir[ReservationFile(id)].record.reservation);
    if ReconciliationFile(id) in dir then
      assert ReadableFile(dir, ReconciliationFile(id));
      Stored(record, Some(dir[ReconciliationFile(id)].record.reconciliation))
    else Stored(record, None)
  }

  function ImportIn(dir: Directory, id: ImportId): LegacyImport
    requires Readable(dir) && LegacyFile(id) in dir
  {
    assert ReadableFile(dir, LegacyFile(id));
    dir[LegacyFile(id)].record.legacy
  }

  /** The ledger that a readable directory records. */
  function Rebuilt(dir: Directory): LedgerState
    requires Readable(dir)
  {
    LedgerState(
      dir,
      map name | name in dir && name.ReservationFile? :: name.id := StoredIn(dir, name.id),
      map name | name in dir && name.LegacyFile? :: name.importId := ImportIn(dir, name.importId))
  }

  // ---- Completed steps: memory and directory mirror each other ----

  predicate MirrorsFile(s: LedgerState, name: FileName) {
    match name
    case ReservationFile(id) =>
      if id in s.reservations then
        name in s.directory && s.directory[name] == Canonical(ReservationRecord(s.reservations[id].record))
      else name !in s.directory
    case ReconciliationFile(id) =>
      if id in s.reservations && s.reservations[id].reconciliation.Some? then
        && name in s.directory
        && s.directory[name] == Canonical(ReconciliationRecord(s.reservations[id].reconciliation.value))
      else name !in s.directory
    case LegacyFile(id) =>
      if id in s.imports then
        name in s.directory && s.directory[name] == Canonical(LegacyRecord(s.imports[id]))
      else name !in s.directory
    case OtherFile(_) => name !in s.directory
  }

  ghost predicate Mirrors(s: LedgerState) {
    forall name :: MirrorsFile(s, name)
  }

  ghost predicate Completed(events: seq<Event>) {
    forall i :: 0 <= i < |events| ==> events[i].disk == Persists
  }

  lemma StepMirrors(s: LedgerState, e: Event)
    requires WellFormed(s) && Mirrors(s) && e.disk == Persists
    ensures Mirrors(Step(s, e))
  {
    forall name ensures MirrorsFile(Step(s, e), name) {
      assert MirrorsFile(s, name);
      match e
      case Reserve(request, atMs, disk) => ReserveMirrors(s, request, atMs, name);
      case Reconcile(id, decision, disk) =>
        ReservationIsSound(s, id);
        ReconcileMirrors(s, id, decision, name);
      case Import(legacy, disk) => ImportMirrors(s, legacy, name);
    }
  }

  lemma ReserveMirrors(s: LedgerState, request: Request, atMs: int, name: FileName)
    requires Mirrors(s)
    ensures MirrorsFile(Reserved(s, request, atMs, Persists).0, name)
  {
    hide Prepared;
    hide ValidReservation;
    assert MirrorsFile(s, name);
    var prepared := Prepared(s, request, atMs);
    if prepared.Ok? {
      assert MirrorsFile(s, ReservationFile(prepared.value.reservationId));
      assert MirrorsFile(s, ReconciliationFile(prepared.value.reservationId));
    }
  }

  lemma ReconciliationNames(record: Reservation, decision: Decision)
    ensures ReconciliationOf(record, decision).reservationId == record.reservationId
  {
  }

  lemma ReconcileMirrors(s: LedgerState, id: ReservationId, decision: Decision, name: FileName)
    requires Mirrors(s) && (id in s.reservations ==> s.reservations[id].record.reservationId == id)
    ensures MirrorsFile(Reconciled(s, id, decision, Persists).0, name)
  {
    hide ValidReconciliation;
    hide ReconciliationOf;
    assert MirrorsFile(s, name);
    assert MirrorsFile(s, ReconciliationFile(id));
    if id in s.reservations {
      ReconciliationNames(s.reservations[id].record, decision);
    }
  }

  lemma ImportMirrors(s: LedgerState, legacy: LegacyImport, name: FileName)
    requires Mirrors(s)
    ensures MirrorsFile(Imported(s, legacy, Persists).0, name)
  {
    hide ValidLegacyImport;
    assert MirrorsFile(s, name);
    assert MirrorsFile(s, LegacyFile(legacy.importId));
  }

  lemma {:induction false} RunMirrors(events: seq<Event>)
    requires Completed(events)
    ensures WellFormed(After(EMPTY, events)) && Mirrors(After(EMPTY, events))
  {
    assert WellFormed(EMPTY) && Mirrors(EMPTY);
    hide WellFormed;
    hide Mirrors;
    hide Step;
    RunIsSound(EMPTY, events);
    if events != [] {
      var before := events[..|events| - 1];
      RunMirrors(before);
      StepMirrors(After(EMPTY, before), events[|events| - 1]);
    }
  }

  lemma ReconciliationBinds(record: Reservation, v: Reconciliation)
    requires ValidReconciliation(record, v)
    ensures v.reservationId == record.reservationId
  {
  }

  lemma MirrorIsReadable(s: LedgerState)
    requires WellFormed(s) && Mirrors(s) && |s.directory| <= MAX_LEDGER_FILES
    ensures Readable(s.directory) && Rebuilt(s.directory) == s
  {
    hide ValidReservation;
    hide ValidReconciliation;
    hide ValidLegacyImport;
    forall name | name in s.directory ensures ReadableFile(s.directory, name) {
      assert MirrorsFile(s, name);
      match name
      case ReservationFile(id) => assert SoundReservation(id, s.reservations[id]);
      case ReconciliationFile(id) =>
        assert SoundReservation(id, s.reservations[id]);
        assert MirrorsFile(s, ReservationFile(id));
        ReconciliationBinds(s.reservations[id].record, s.reservations[id].reconciliation.value);
      case LegacyFile(id) => assert SoundImport(id, s.imports[id]);
    }
    assert Rebuilt(s.directory).reservations == s.reservations by { SameReservations(s); }
    assert Rebuilt(s.directory).imports == s.imports by { SameImports(s); }
  }

  lemma SameReservations(s: LedgerState)
    requires Mirrors(s) && Readable(s.directory)
    ensures Rebuilt(s.directory).reservations == s.reservations
  {
    hide ReadableFile;
    var rebuilt := Rebuilt(s.directory).reservations;
    forall id ensures id in rebuilt <==> id in s.reservations {
      assert MirrorsFile(s, ReservationFile(id));
    }
    forall id | id in s.reservations ensures rebuilt[id] == s.reservations[id] {
      assert MirrorsFile(s, ReservationFile(id)) && MirrorsFile(s, ReconciliationFile(id));
    }
  }

  lemma SameImports(s: LedgerState)
    requires Mirrors(s) && Readable(s.directory)
    ensures Rebuilt(s.directory).imports == s.imports
  {
    hide ReadableFile;
    var rebuilt := Rebuilt(s.directory).imports;
    forall id ensures id in rebuilt <==> id in s.imports {
      assert MirrorsFile(s, LegacyFile(id));
    }
    forall id | id in s.imports ensures rebuilt[id] == s.imports[id] {
      assert MirrorsFile(s, LegacyFile(id));
    }
  }

  /** After completed steps within the file bound, the directory is readable and reopening it gives the ledger back. */
  lemma ReopeningRebuilds(events: seq<Event>)
    requires Completed(events) && |After(EMPTY, events).directory| <= MAX_LEDGER_FILES
    ensures Readable(After(EMPTY, events).directory)
    ensures Rebuilt(After(EMPTY, events).directory) == After(EMPTY, events)
  {
    hide After;
    RunMirrors(events);
    MirrorIsReadable(After(EMPTY, events));
  }

  // ---- Interrupted steps ----

  /** Everything in memory is in the directory, whatever the disk did. */
  ghost predicate Recorded(s: LedgerState) {
    && (forall id :: id in s.reservations ==>
          && ReservationFile(id) in s.directory
          && s.directory[ReservationFile(id)] == Canonical(ReservationRecord(s.reservations[id].record)))
    && (forall id :: id in s.reservations && s.reservations[id].reconciliation.Some? ==>
          && ReconciliationFile(id) in s.directory
          && s.directory[ReconciliationFile(id)]
             == Canonical(ReconciliationRecord(s.reservations[id].reconciliation.value)))
    && (forall id :: id in s.imports ==>
          LegacyFile(id) in s.directory && s.directory[LegacyFile(id)] == Canonical(LegacyRecord(s.imports[id])))
  }

  lemma AppendRecords(dir: Directory, name: FileName, record: FileRecord, disk: Disk)
    ensures var (dir', outcome) := Append(dir, name, record, disk);
            && Grows(dir, dir')
            && (outcome.Ok? ==> name in dir' && dir'[name] == Canonical(record))
  {
  }

  lemma ReserveRecords(s: LedgerState, request: Request, atMs: int, disk: Disk)
    requires Recorded(s)
    ensures Recorded(Reserved(s, request, atMs, disk).0)
  {
    hide Prepared;
    hide ValidReservation;
    hide Append;
    var prepared := Prepared(s, request, atMs);
    if prepared.Ok? {
      var record := prepared.value;
      AppendRecords(s.directory, ReservationFile(record.reservationId), ReservationRecord(record), disk);
    }
  }

  lemma ReconcileRecords(s: LedgerState, id: ReservationId, decision: Decision, disk: Disk)
    requires Recorded(s) && (id in s.reservations ==> s.reservations[id].record.reservationId == id)
    ensures Recorded(Reconciled(s, id, decision, disk).0)
  {
    hide ValidReconciliation;
    hide ReconciliationOf;
    hide Append;
    if id in s.reservations {
      var value := ReconciliationOf(s.reservations[id].record, decision);
      ReconciliationNames(s.reservations[id].record, decision);
      AppendRecords(s.directory, ReconciliationFile(id), ReconciliationRecord(value), disk);
    }
  }

  lemma ImportRecords(s: LedgerState, legacy: LegacyImport, disk: Disk)
    requires Recorded(s)
    ensures Recorded(Imported(s, legacy, disk).0)
  {
    hide ValidLegacyImport;
    hide Append;
    AppendRecords(s.directory, LegacyFile(legacy.importId), LegacyRecord(legacy), disk);
  }

  lemma ReservationIsSound(s: LedgerState, id: ReservationId)
    requires WellFormed(s)
    ensures id in s.reservations ==> s.reservations[id].record.reservationId == id
  {
    hide ValidReservation;
    hide ValidReconciliation;
  }

  lemma StepRecords(s: LedgerState, e: Event)
    requires WellFormed(s) && Recorded(s)
    ensures Recorded(Step(s, e))
  {
    hide WellFormed;
    hide Recorded;
    hide Reserved;
    hide Reconciled;
    hide Imported;
    match e
    case Reserve(request, atMs, disk) => ReserveRecords(s, request, atMs, disk);
    case Reconcile(id, decision, disk) =>
      ReservationIsSound(s, id);
      ReconcileRecords(s, id, decision, disk);
    case Import(legacy, disk) => ImportRecords(s, legacy, disk);
  }

  lemma {:induction false} RunRecords(events: seq<Event>)
    ensures WellFormed(After(EMPTY, events)) && Recorded(After(EMPTY, events))
  {
    assert WellFormed(EMPTY) && Recorded(EMPTY);
    hide WellFormed;
    hide Recorded;
    hide Step;
    RunIsSound(EMPTY, events);
    if events != [] {
      var before := events[..|events| - 1];
      RunRecords(before);
      StepRecords(After(EMPTY, before), events[|events| - 1]);
    }
  }

  /**
   * Whatever the disk did on the way, a directory that still opens gives back every reservation,
   * reconciliation and import the process had acknowledged.
   */
  lemma NothingAcknowledgedIsLost(events: seq<Event>)
    requires Readable(After(EMPTY, events).directory)
    ensures Extends(After(EMPTY, events), Rebuilt(After(EMPTY, events).directory))
  {
    hide After;
    RunRecords(events);
    RecordedIsRebuilt(After(EMPTY, events));
  }

  lemma RecordedIsRebuilt(s: LedgerState)
    requires Recorded(s) && Readable(s.directory)
    ensures Extends(s, Rebuilt(s.directory))
  {
    hide ReadableFile;
    var rebuilt := Rebuilt(s.directory);
    forall id | id in s.reservations
      ensures id in rebuilt.reservations && Keeps(s.reservations[id], rebuilt.reservations[id])
    {
      assert ReservationFile(id) in s.directory;
    }
    forall id | id in s.imports ensures id in rebuilt.imports && rebuilt.imports[id] == s.imports[id] {
      assert LegacyFile(id) in s.directory;
    }
  }

  /** A torn record holds the ledger closed for ever: no later event can make the directory readable again. */
  lemma TornRecordHolds(before: seq<Event>, after: seq<Event>, name: FileName)
    requires name in After(EMPTY, before).directory && After(EMPTY, before).directory[name] == Unreadable
    ensures !Readable(After(EMPTY, before + after).directory)
  {
    assert WellFormed(EMPTY);
    hide WellFormed;
    hide After;
    RunIsSound(EMPTY, before);
    RunIsSound(After(EMPTY, before), after);
    AfterSplits(EMPTY, before, after);
    var dir := After(EMPTY, before + after).directory;
    assert name in dir && dir[name] == Unreadable;
    assert !ReadableFile(dir, name);
  }

  // ---- Lost reconciliations ----

  function Losing(dir: Directory, lost: set<ReservationId>): Directory {
    map name | name in dir && !(name.ReconciliationFile? && name.id in lost) :: dir[name]
  }

  lemma LosingStaysReadable(dir: Directory, lost: set<ReservationId>)
    requires Readable(dir)
    ensures Readable(Losing(dir, lost))
  {
    var dir' := Losing(dir, lost);
    assert dir'.Keys <= dir.Keys;
    Smaller(dir'.Keys, dir.Keys);
    hide ValidReservation;
    hide ValidReconciliation;
    hide ValidLegacyImport;
    forall name | name in dir' ensures ReadableFile(dir', name) {
      assert ReadableFile(dir, name);
    }
  }

  lemma {:induction false} Smaller<T>(a: set<T>, b: set<T>)
    requires a <= b
    ensures |a| <= |b|
  {
    if a != {} {
      var x :| x in a;
      Smaller(a - {x}, b - {x});
    }
  }

  lemma LosingKeepsRecords(dir: Directory, lost: set<ReservationId>, id: ReservationId)
    requires Readable(dir) && Readable(Losing(dir, lost)) && ReservationFile(id) in dir
    ensures var kept, full := StoredIn(Losing(dir, lost), id), StoredIn(dir, id);
            && kept.record == full.record
            && (kept == full || kept.reconciliation.None?)
  {
    hide ReadableFile;
  }

  lemma StoredIsSound(dir: Directory, id: ReservationId)
    requires Readable(dir) && ReservationFile(id) in dir
    ensures SoundReservation(id, StoredIn(dir, id))
  {
    hide ValidReservation;
    hide ValidReconciliation;
    assert ReadableFile(dir, ReservationFile(id));
  }

  lemma LostShare(dir: Directory, lost: set<ReservationId>, id: ReservationId, scope: Scope)
    requires Readable(dir) && Readable(Losing(dir, lost)) && ReservationFile(id) in dir
    ensures AtMost(Share(EntryOf(StoredIn(dir, id)), scope), Share(EntryOf(StoredIn(Losing(dir, lost), id)), scope))
  {
    LosingKeepsRecords(dir, lost, id);
    StoredIsSound(dir, id);
    var was, now := StoredIn(dir, id), StoredIn(Losing(dir, lost), id);
    hide StoredIn;
    hide Losing;
    hide Readable;
    hide ValidReservation;
    hide ValidReconciliation;
    hide FromCaps;
    hide FromCharge;
    hide InScope;
    SameEntryScope(was, now, scope);
    if was != now {
      ReconciliationNeverRaises(was.record, was.reconciliation.value);
    }
  }

  lemma RebuiltAt(dir: Directory, id: ReservationId)
    requires Readable(dir)
    ensures id in Rebuilt(dir).reservations <==> ReservationFile(id) in dir
    ensures id in Rebuilt(dir).reservations ==> Rebuilt(dir).reservations[id] == StoredIn(dir, id)
  {
    hide StoredIn;
    hide ImportIn;
  }

  lemma LosingKeepsImports(dir: Directory, lost: set<ReservationId>)
    requires Readable(dir) && Readable(Losing(dir, lost))
    ensures Rebuilt(Losing(dir, lost)).imports == Rebuilt(dir).imports
  {
    hide StoredIn;
    hide ReadableFile;
  }

  /** Losing any set of reconciliation records leaves a readable directory in which no usage total is lower. */
  lemma LostReconciliationsOnlyCharge(dir: Directory, lost: set<ReservationId>, scope: Scope)
    requires Readable(dir)
    ensures Readable(Losing(dir, lost))
    ensures AtMost(Total(Rebuilt(dir), scope), Total(Rebuilt(Losing(dir, lost)), scope))
  {
    LosingStaysReadable(dir, lost);
    LosingKeepsImports(dir, lost);
    var dir' := Losing(dir, lost);
    assert forall id :: ReservationFile(id) in dir <==> ReservationFile(id) in dir';
    var full, kept := Rebuilt(dir), Rebuilt(dir');
    hide Total;
    hide Share;
    hide EntryOf;
    hide StoredIn;
    hide Readable;
    hide Rebuilt;
    hide Losing;
    forall id | id in full.reservations
      ensures id in kept.reservations
      ensures AtMost(Share(EntryOf(full.reservations[id]), scope), Share(EntryOf(kept.reservations[id]), scope))
    {
      RebuiltAt(dir, id);
      RebuiltAt(dir', id);
      LostShare(dir, lost, id, scope);
    }
    SharesAreMonotone(full, scope, kept, scope);
  }
}

/** When the directory itself, and not only the maps in memory, stays within the policy. */
module LedgerDirectory {
  import opened Prelude
  import opened Budget
  import opened LedgerRecords
  import opened LedgerSpec
  import opened LedgerRuns
  import opened LedgerDurable
  import opened LedgerReopening

  /** What can be said of an action without knowing its request: the kind, and how the disk answered a reservation. */
  datatype Move = Reserving(disk: Disk) | Settling | Reopening

  function MoveOf(a: Action): Move {
    match a
    case Act(Reserve(_, _, disk)) => Reserving(disk)
    case Act(_) => Settling
    case Reopen => Reopening
  }

  function Moves(actions: seq<Action>): (moves: seq<Move>)
    ensures |moves| == |actions|
  {
    if actions == [] then [] else Moves(actions[..|actions| - 1]) + [MoveOf(actions[|actions| - 1])]
  }

  /** A reservation was written but not acknowledged, and the ledger has not been reopened since. */
  predicate Lagging(moves: seq<Move>) {
    && moves != []
    && match moves[|moves| - 1]
       case Reopening => false
       case Reserving(FailsToSync) => true
       case _ => Lagging(moves[..|moves| - 1])
  }

  /** Nothing is written for a reservation while another one is written but unknown to memory. */
  predicate Careful(moves: seq<Move>) {
    || moves == []
    || (&& Careful(moves[..|moves| - 1])
        && (moves[|moves| - 1] in {Reserving(Persists), Reserving(FailsToSync)} ==> !Lagging(moves[..|moves| - 1])))
  }

  ghost predicate DirectoryWithin(s: LedgerState, p: Policy) {
    Readable(s.directory) ==> WithinPolicy(Rebuilt(s.directory), p)
  }

  /** Memory knows every reservation of the directory. */
  ghost predicate Covered(s: LedgerState) {
    Readable(s.directory) ==> Rebuilt(s.directory).reservations.Keys == s.reservations.Keys
  }

  // ---- Directories that grow ----

  /** A directory that does not open never opens again. */
  lemma StaysUnreadable(s: LedgerState, a: Action)
    requires Sound(s) && !Readable(s.directory)
    ensures !Readable(Perform(s, a).directory)
  {
    PerformIsSound(s, a);
    var dir, dir' := s.directory, Perform(s, a).directory;
    hide Perform;
    hide WellFormed;
    hide Recorded;
    hide ReadableFile;
    hide Keeps;
    if |dir| > MAX_LEDGER_FILES {
      Smaller(dir.Keys, dir'.Keys);
    } else {
      var name :| name in dir && !ReadableFile(dir, name);
      assert dir'[name] == Unreadable;
      TornIsUnreadable(dir', name);
    }
  }

  lemma TornIsUnreadable(dir: Directory, name: FileName)
    requires name in dir && dir[name] == Unreadable
    ensures !Readable(dir)
  {
    assert !ReadableFile(dir, name);
  }

  ghost predicate SameReservationFiles(dir: Directory, dir': Directory) {
    forall id :: ReservationFile(id) in dir <==> ReservationFile(id) in dir'
  }

  lemma RebuiltKeys(dir: Directory)
    requires Readable(dir)
    ensures forall id :: id in Rebuilt(dir).reservations <==> ReservationFile(id) in dir
    ensures forall id :: id in Rebuilt(dir).reservations ==> Rebuilt(dir).reservations[id] == StoredIn(dir, id)
  {
    hide StoredIn;
    hide ImportIn;
    hide ReadableFile;
  }

  lemma GrownIsBelow(dir: Directory, dir': Directory)
    requires Readable(dir) && Readable(dir') && Grows(dir, dir') && SameReservationFiles(dir, dir')
    requires Rebuilt(dir).imports == Rebuilt(dir').imports == map[]
    ensures Below(Rebuilt(dir'), Rebuilt(dir))
  {
    hide *;
    forall id | id in Rebuilt(dir').reservations
      ensures id in Rebuilt(dir).reservations
      ensures Keeps(Rebuilt(dir).reservations[id], Rebuilt(dir').reservations[id])
      ensures SoundReservation(id, Rebuilt(dir').reservations[id])
    {
      GrownRecord(dir, dir', id);
    }
    KeptIsBelow(Rebuilt(dir'), Rebuilt(dir));
  }

  lemma GrownRecord(dir: Directory, dir': Directory, id: ReservationId)
    requires Readable(dir) && Readable(dir') && Grows(dir, dir') && SameReservationFiles(dir, dir')
    requires id in Rebuilt(dir').reservations
    ensures id in Rebuilt(dir).reservations
    ensures Keeps(Rebuilt(dir).reservations[id], Rebuilt(dir').reservations[id])
    ensures SoundReservation(id, Rebuilt(dir').reservations[id])
  {
    RebuiltAt(dir, id);
    RebuiltAt(dir', id);
    hide Readable;
    hide Rebuilt;
    hide StoredIn;
    hide Keeps;
    hide SoundReservation;
    hide Grows;
    GrownKeeps(dir, dir', id);
    StoredIsSound(dir', id);
  }

  lemma SameKeys(dir: Directory, dir': Directory)
    requires Readable(dir) && Readable(dir') && SameReservationFiles(dir, dir')
    ensures Rebuilt(dir').reservations.Keys == Rebuilt(dir).reservations.Keys
  {
    RebuiltKeys(dir);
    RebuiltKeys(dir');
    hide Readable;
    hide Rebuilt;
    hide StoredIn;
  }

  lemma GrownKeeps(dir: Directory, dir': Directory, id: ReservationId)
    requires Readable(dir) && Readable(dir') && Grows(dir, dir') && ReservationFile(id) in dir
    ensures Keeps(StoredIn(dir, id), StoredIn(dir', id))
  {
    hide ReadableFile;
  }

  lemma GrownWithin(s: LedgerState, s': LedgerState, p: Policy)
    requires Plain(s) && Plain(s') && Grows(s.directory, s'.directory)
    requires SameReservationFiles(s.directory, s'.directory)
    requires Readable(s'.directory) ==> Readable(s.directory)
    requires DirectoryWithin(s, p)
    ensures DirectoryWithin(s', p)
    ensures Covered(s) && s'.reservations.Keys == s.reservations.Keys ==> Covered(s')
  {
    if Readable(s'.directory) {
      RebuiltPlain(s);
      RebuiltPlain(s');
      GrownIsBelow(s.directory, s'.directory);
      SameKeys(s.directory, s'.directory);
      hide Rebuilt;
      hide Readable;
      hide Below;
      hide WithinPolicy;
      BelowIsWithin(Rebuilt(s'.directory), Rebuilt(s.directory), p);
    }
  }

  // ---- One action ----

  lemma SettlingKeepsFiles(s: LedgerState, id: ReservationId, decision: Decision, disk: Disk)
    ensures var s' := Reconciled(s, id, decision, disk).0;
            SameReservationFiles(s.directory, s'.directory) && s'.reservations.Keys == s.reservations.Keys
  {
    hide ValidReconciliation;
    hide ReconciliationOf;
  }

  /** A reservation writes its record: it was proposed, new to memory, and passed every check. */
  ghost predicate Writes(s: LedgerState, request: Request, atMs: int, s': LedgerState) {
    && RequestRecord(request, atMs).Some? && LimitsFor(request).Some?
    && var record := RequestRecord(request, atMs).value;
       && record.reservationId !in s.reservations && ReservationFile(record.reservationId) !in s.directory
       && FirstFailure(s, ChecksFor(LimitsFor(request).value, record), FromCaps(record.caps)).None?
       && s'.directory == s.directory[ReservationFile(record.reservationId) := Canonical(ReservationRecord(record))]
  }

  ghost predicate Tears(s: LedgerState, s': LedgerState) {
    exists name :: name in s'.directory && name !in s.directory && s'.directory[name] == Unreadable
  }

  /** The file of the record that a reservation would write is already there. */
  ghost predicate Finds(s: LedgerState, s': LedgerState) {
    && s'.directory == s.directory
    && exists id :: id !in s.reservations && ReservationFile(id) in s.directory
  }

  lemma ReservingCases(s: LedgerState, request: Request, atMs: int, disk: Disk)
    ensures var s' := Reserved(s, request, atMs, disk).0;
            || s' == s
            || Finds(s, s')
            || (disk == TearsWrite && Tears(s, s'))
            || (disk == FailsToSync && Writes(s, request, atMs, s') && s'.reservations == s.reservations)
            || (&& disk == Persists && Writes(s, request, atMs, s')
                && GainsKey(s.reservations.Keys, RequestRecord(request, atMs).value.reservationId,
                            s'.reservations.Keys))
  {
    ProposalIsValid(request, atMs);
    hide ValidReservation;
    hide RequestRecord;
    hide ExistingMatchesRequest;
    hide LimitsFor;
    hide ClockRolledBack;
    hide ChecksFor;
    hide FirstFailure;
    hide FromCaps;
    var s' := Reserved(s, request, atMs, disk).0;
    if s' != s {
      var record := Prepared(s, request, atMs).value;
      assert record.reservationId !in s.reservations;
      if ReservationFile(record.reservationId) in s.directory {
        assert Finds(s, s');
      } else if disk == TearsWrite {
        assert ReservationFile(record.reservationId) in s'.directory;
      }
    }
  }

  lemma StoredUnchanged(dir: Directory, record: Reservation, dir': Directory, id: ReservationId)
    requires Readable(dir) && Readable(dir') && ReservationFile(id) in dir && id != record.reservationId
    requires dir' == dir[ReservationFile(record.reservationId) := Canonical(ReservationRecord(record))]
    ensures StoredIn(dir', id) == StoredIn(dir, id)
  {
    hide ReadableFile;
  }

  lemma StoredFresh(dir: Directory, record: Reservation, dir': Directory)
    requires Readable(dir) && Readable(dir') && ReservationFile(record.reservationId) !in dir
    requires dir' == dir[ReservationFile(record.reservationId) := Canonical(ReservationRecord(record))]
    ensures StoredIn(dir', record.reservationId) == Stored(record, None)
  {
    hide ValidReservation;
    hide ValidReconciliation;
    var name := ReconciliationFile(record.reservationId);
    assert name in dir ==> ReadableFile(dir, name);
  }

  lemma RebuiltGains(dir: Directory, record: Reservation, dir': Directory)
    requires Readable(dir) && Readable(dir') && ReservationFile(record.reservationId) !in dir
    requires dir' == dir[ReservationFile(record.reservationId) := Canonical(ReservationRecord(record))]
    ensures record.reservationId !in Rebuilt(dir).reservations
    ensures Rebuilt(dir').reservations == Rebuilt(dir).reservations[record.reservationId := Stored(record, None)]
  {
    hide Readable;
    hide Rebuilt;
    hide StoredIn;
    RebuiltKeys(dir);
    RebuiltKeys(dir');
    StoredFresh(dir, record, dir');
    forall id | id in Rebuilt(dir).reservations ensures Rebuilt(dir').reservations[id]
        == Rebuilt(dir).reservations[id] {
      StoredUnchanged(dir, record, dir', id);
    }
  }

  lemma CoveredIsBelow(s: LedgerState)
    requires Sound(s) && Plain(s) && Readable(s.directory) && Covered(s)
    ensures Below(Rebuilt(s.directory), s)
  {
    RecordedIsRebuilt(s);
    RebuiltPlain(s);
    RebuiltIsSound(s.directory);
    hide Readable;
    hide Rebuilt;
    hide Recorded;
    hide Filed;
    hide Keeps;
    hide SoundReservation;
    KeptIsBelow(Rebuilt(s.directory), s);
  }

  lemma WriteFacts(s: LedgerState, request: Request, atMs: int, s': LedgerState)
    requires Writes(s, request, atMs, s') && Readable(s.directory) && Readable(s'.directory) && Plain(s) && Plain(s')
    ensures RequestRecord(request, atMs).Some? && LimitsFor(request).Some?
    ensures var record := RequestRecord(request, atMs).value;
            var less, less' := Rebuilt(s.directory), Rebuilt(s'.directory);
            && FirstFailure(s, ChecksFor(LimitsFor(request).value, record), FromCaps(record.caps)).None?
            && record.reservationId !in less.reservations && less'.imports == less.imports == map[]
            && less'.reservations == less.reservations[record.reservationId := Stored(record, None)]
  {
    hide RequestRecord;
    hide LimitsFor;
    hide FirstFailure;
    hide ChecksFor;
    hide Readable;
    hide Rebuilt;
    RebuiltPlain(s);
    RebuiltPlain(s');
    RebuiltGains(s.directory, RequestRecord(request, atMs).value, s'.directory);
  }

  lemma WritingStaysWithin(s: LedgerState, request: Request, atMs: int, s': LedgerState, p: Policy)
    requires Sound(s) && Plain(s) && Plain(s') && Covered(s) && SharesPolicy(request, p)
    requires Readable(s.directory) && Readable(s'.directory) && WithinPolicy(Rebuilt(s.directory), p)
    requires Writes(s, request, atMs, s')
    ensures WithinPolicy(Rebuilt(s'.directory), p)
    ensures RequestRecord(request, atMs).Some?
    ensures GainsKey(Rebuilt(s.directory).reservations.Keys, RequestRecord(request, atMs).value.reservationId,
                     Rebuilt(s'.directory).reservations.Keys)
  {
    hide RequestRecord;
    hide LimitsFor;
    hide FirstFailure;
    hide ChecksFor;
    hide SharesPolicy;
    hide Sound;
    hide Plain;
    hide Covered;
    hide Writes;
    hide Readable;
    hide Rebuilt;
    hide Total;
    hide Promise;
    hide Below;
    CoveredIsBelow(s);
    WriteFacts(s, request, atMs, s');
    var less, less' := Rebuilt(s.directory), Rebuilt(s'.directory);
    forall scope | Promise(p, scope).Some? ensures AtMost(Total(less', scope), Promise(p, scope).value) {
      AdmissionOnTop(less, s, p, request, atMs, less', scope);
    }
  }

  // ---- Careful courses ----

  lemma DirectoryStep(s: LedgerState, a: Action, p: Policy)
    requires Sound(s) && Plain(s) && SharedAction(a, p) && DirectoryWithin(s, p)
    requires MoveOf(a) in {Reserving(Persists), Reserving(FailsToSync)} ==> Covered(s)
    ensures DirectoryWithin(Perform(s, a), p)
    ensures MoveOf(a) == Reopening ==> Covered(Perform(s, a))
    ensures Covered(s) && MoveOf(a) != Reserving(FailsToSync) ==> Covered(Perform(s, a))
  {
    hide *;
    var s' := Perform(s, a);
    StepFacts(s, a, p);
    MoveFacts(a);
    if !Readable(s.directory) {
      StaysUnreadable(s, a);
      UnreadableIsFine(s', p);
    } else {
      match a
      case Act(Reserve(request, atMs, disk)) => ReservingStep(s, request, atMs, disk, p);
      case Act(Reconcile(id, decision, disk)) => SettlingStep(s, id, decision, disk, p);
      case Act(Import(legacy, disk)) => NoImports(a, p);
      case Reopen => ReopeningStep(s, p);
    }
  }

  lemma MoveFacts(a: Action)
    ensures MoveOf(a) == match a case Act(Reserve(_, _, disk)) => Reserving(disk) case Act(_) =>
            Settling case Reopen => Reopening
  {
  }

  lemma GrowsOn(s: LedgerState, s': LedgerState)
    requires Extends(s, s')
    ensures Grows(s.directory, s'.directory)
  {
    hide Grows;
    hide Keeps;
  }

  lemma UnreadableIsFine(s: LedgerState, p: Policy)
    requires !Readable(s.directory)
    ensures DirectoryWithin(s, p) && Covered(s)
  {
  }

  lemma NoImports(a: Action, p: Policy)
    requires SharedAction(a, p)
    ensures !(a.Act? && a.event.Import?)
  {
  }

  lemma ReopeningStep(s: LedgerState, p: Policy)
    requires Readable(s.directory) && DirectoryWithin(s, p)
    ensures DirectoryWithin(Perform(s, Reopen), p) && Covered(Perform(s, Reopen))
  {
    hide WithinPolicy;
    hide Readable;
    hide StoredIn;
    hide ImportIn;
  }

  lemma SettlingStep(s: LedgerState, id: ReservationId, decision: Decision, disk: Disk, p: Policy)
    requires Sound(s) && Plain(s) && Readable(s.directory) && DirectoryWithin(s, p)
    ensures var s' := Perform(s, Act(Reconcile(id, decision, disk)));
            DirectoryWithin(s', p) && (Covered(s) ==> Covered(s'))
  {
    var a := Act(Reconcile(id, decision, disk));
    var s' := Perform(s, a);
    assert s' == Reconciled(s, id, decision, disk).0;
    hide *;
    SharedSettling(id, decision, disk, p);
    StepFacts(s, a, p);
    GrowsOn(s, s');
    SettlingKeepsFiles(s, id, decision, disk);
    GrownWithin(s, s', p);
  }

  lemma SharedSettling(id: ReservationId, decision: Decision, disk: Disk, p: Policy)
    ensures SharedAction(Act(Reconcile(id, decision, disk)), p)
  {
  }

  lemma ReservingStep(s: LedgerState, request: Request, atMs: int, disk: Disk, p: Policy)
    requires Sound(s) && Plain(s) && SharedAction(Act(Reserve(request, atMs, disk)), p)
    requires Readable(s.directory) && DirectoryWithin(s, p)
    requires disk == Persists || disk == FailsToSync ==> Covered(s)
    ensures var s' := Perform(s, Act(Reserve(request, atMs, disk)));
            DirectoryWithin(s', p) && (Covered(s) && disk != FailsToSync ==> Covered(s'))
  {
    var a := Act(Reserve(request, atMs, disk));
    var s' := Perform(s, a);
    assert s' == Reserved(s, request, atMs, disk).0 && SharesPolicy(request, p);
    hide *;
    StepFacts(s, a, p);
    ReservingCases(s, request, atMs, disk);
    if Tears(s, s') {
      TearsClose(s, s', p);
    } else if Finds(s, s') {
      FoundIsFine(s, s', p);
    } else if s' != s && Readable(s'.directory) {
      WithinNow(s, p);
      WritingStaysWithin(s, request, atMs, s', p);
      WithinAgain(s, s', p);
    } else if s' != s {
      UnreadableIsFine(s', p);
    }
  }

  lemma TearsClose(s: LedgerState, s': LedgerState, p: Policy)
    requires Tears(s, s')
    ensures DirectoryWithin(s', p) && Covered(s')
  {
    var name :| name in s'.directory && name !in s.directory && s'.directory[name] == Unreadable;
    TornIsUnreadable(s'.directory, name);
    hide Readable;
  }

  lemma FoundIsFine(s: LedgerState, s': LedgerState, p: Policy)
    requires Readable(s.directory) && Finds(s, s') && DirectoryWithin(s, p)
    ensures DirectoryWithin(s', p) && !Covered(s)
  {
    RebuiltKeys(s.directory);
    hide Readable;
    hide Rebuilt;
    hide WithinPolicy;
  }

  lemma WithinNow(s: LedgerState, p: Policy)
    requires Readable(s.directory) && DirectoryWithin(s, p)
    ensures WithinPolicy(Rebuilt(s.directory), p)
  {
    hide Readable;
    hide Rebuilt;
    hide WithinPolicy;
  }

  predicate GainsKey(keys: set<ReservationId>, id: ReservationId, keys': set<ReservationId>) {
    keys' == keys + {id}
  }

  lemma WithinAgain(s: LedgerState, s': LedgerState, p: Policy)
    requires Readable(s.directory) && Readable(s'.directory) && WithinPolicy(Rebuilt(s'.directory), p)
    ensures DirectoryWithin(s', p)
    ensures forall id :: Covered(s) && GainsKey(s.reservations.Keys, id, s'.reservations.Keys)
                         && GainsKey(Rebuilt(s.directory).reservations.Keys, id,
                                     Rebuilt(s'.directory).reservations.Keys)
                         ==> Covered(s')
  {
    hide Readable;
    hide Rebuilt;
    hide WithinPolicy;
  }

  /** In every careful course of one policy the directory stays within it for as long as it opens. */
  lemma {:induction false} CarefulStaysWithin(actions: seq<Action>, p: Policy)
    requires SharedCourse(actions, p) && Careful(Moves(actions))
    ensures Sound(Course(actions)) && Plain(Course(actions)) && DirectoryWithin(Course(actions), p)
    ensures !Lagging(Moves(actions)) ==> Covered(Course(actions))
  {
    hide Sound;
    hide Plain;
    hide DirectoryWithin;
    hide Covered;
    hide Perform;
    hide SharedAction;
    hide MoveOf;
    if actions == [] {
      EmptyDirectory(p);
    } else {
      var before, last := actions[..|actions| - 1], actions[|actions| - 1];
      assert Moves(actions)[..|before|] == Moves(before) && Moves(actions)[|before|] == MoveOf(last);
      CarefulStaysWithin(before, p);
      assert SharedAction(last, p);
      StepFacts(Course(before), last, p);
      DirectoryStep(Course(before), last, p);
    }
  }

  lemma EmptyDirectory(p: Policy)
    ensures Sound(EMPTY) && Plain(EMPTY) && DirectoryWithin(EMPTY, p) && Covered(EMPTY)
  {
    EmptyIsSound();
    EmptyIsPlain();
    EmptyIsWithin(p);
    EmptyRebuilds();
    hide WithinPolicy;
    hide Readable;
    hide Rebuilt;
  }

  lemma EmptyRebuilds()
    ensures Readable(map[]) && Rebuilt(map[]) == EMPTY
  {
  }

  /** A ledger that is reopened for every reservation, as each schedule transaction does, is always careful. */
  lemma {:induction false} ReopeningIsCareful(moves: seq<Move>)
    requires forall i :: 0 <= i < |moves| && moves[i].Reserving? ==> 0 < i && moves[i - 1] == Reopening
    ensures Careful(moves)
  {
    if moves != [] {
      var before := moves[..|moves| - 1];
      ReopeningIsCareful(before);
      if moves[|moves| - 1].Reserving? {
        assert before[|before| - 1] == Reopening;
      }
    }
  }
}

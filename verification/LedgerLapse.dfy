/** Why the directory needs care: courses that are not careful can exceed the policy, so care is the exact condition. */
module LedgerLapse {
  import opened Prelude
  import opened Budget
  import opened Calendar
  import opened LedgerRecords
  import opened Accounting
  import opened LedgerSpec
  import opened LedgerRuns
  import opened LedgerHistory
  import opened LedgerDurable
  import opened LedgerReopening
  import opened LedgerDirectory
  import opened LedgerScenarios

  /** The scheduled pool of the policy holds exactly one such effect. */
  ghost predicate HoldsOne(p: Policy, caps: EffectCaps) {
    OnlyPools(p) && ValidEffectCaps(caps) && PoolOf(p, ScheduledClass) == Some(FromCaps(caps))
  }

  function Scheduled(p: Policy, caps: EffectCaps, attempt: string): Request {
    Wanted(ScheduledClass, caps, p, attempt)
  }

  function RecordFile(record: Reservation): map<FileName, Content> {
    map[ReservationFile(record.reservationId) := Canonical(ReservationRecord(record))]
  }

  /** A scheduled request whose pool memory believes to be free writes its record. */
  lemma ScheduledWrites(s: LedgerState, p: Policy, caps: EffectCaps, attempt: string, atMs: int, disk: Disk)
    requires HoldsOne(p, caps) && UtcDayId(atMs).Ok? && s.reservations == map[] && s.imports == map[]
    requires ReservationFile(WantedId(attempt)) !in s.directory && (disk == Persists || disk == FailsToSync)
    ensures RequestRecord(Scheduled(p, caps, attempt), atMs).Some?
    ensures var record := RequestRecord(Scheduled(p, caps, attempt), atMs).value;
            var (s', outcome) := Reserved(s, Scheduled(p, caps, attempt), atMs, disk);
            && record.reservationId == WantedId(attempt)
            && s'.imports == map[] && s'.directory == s.directory + RecordFile(record)
            && (disk == Persists ==> outcome.Ok?) && (disk == FailsToSync ==> outcome.Err? && s'.reservations == map[])
  {
    hide *;
    EmptyIsWellFormed(s);
    ScheduledHasRoom(s, p, caps, attempt, atMs);
    RoomReserves(s, Scheduled(p, caps, attempt), atMs, disk);
    FileAdded(s.directory, RequestRecord(Scheduled(p, caps, attempt), atMs).value);
  }

  lemma EmptyIsWellFormed(s: LedgerState)
    requires s.reservations == map[] && s.imports == map[]
    ensures WellFormed(s)
  {
  }

  lemma FileAdded(dir: Directory, record: Reservation)
    ensures dir[ReservationFile(record.reservationId) := Canonical(ReservationRecord(record))]
            == dir + RecordFile(record)
  {
  }

  lemma HoldsOneFacts(p: Policy, caps: EffectCaps)
    requires HoldsOne(p, caps)
    ensures OnlyPools(p) && ValidEffectCaps(caps)
    ensures AtMost(FromCaps(caps), PoolCap(ScheduledClass, caps, p))
  {
    hide OnlyPools;
    hide ValidEffectCaps;
    hide FromCaps;
  }

  lemma ScheduledHasRoom(s: LedgerState, p: Policy, caps: EffectCaps, attempt: string, atMs: int)
    requires HoldsOne(p, caps) && UtcDayId(atMs).Ok? && s.reservations == map[] && s.imports == map[]
    ensures Headroom(s, Scheduled(p, caps, attempt), atMs).None?
    ensures var proposed := RequestRecord(Scheduled(p, caps, attempt), atMs);
            && proposed.Some? && proposed.value.reservationId == WantedId(attempt) && ValidReservation(proposed.value)
            && proposed.value.accountingClass == ScheduledClass && proposed.value.caps == caps
            && proposed.value.reservedAtMs == atMs
  {
    assert Scheduled(p, caps, attempt) == Wanted(ScheduledClass, caps, p, attempt);
    hide *;
    HoldsOneFacts(p, caps);
    RoomForFirst(ScheduledClass, caps, p);
    NoLoad(s, atMs);
    WantedIsValid(ScheduledClass, caps, p, attempt, atMs);
    ProposalIsValid(Scheduled(p, caps, attempt), atMs);
    HeadroomUnderLoad(s, atMs, NOTHING_HELD, ScheduledClass, caps, p, attempt);
  }

  lemma TwoFilesAreReadable(a: Reservation, b: Reservation)
    requires ValidReservation(a) && ValidReservation(b) && a.reservationId != b.reservationId
    ensures Readable(RecordFile(a)) && Readable(RecordFile(a) + RecordFile(b))
  {
    hide ValidReservation;
    var dir := RecordFile(a) + RecordFile(b);
    assert dir.Keys == {ReservationFile(a.reservationId), ReservationFile(b.reservationId)};
  }

  lemma RebuiltOfTwo(a: Reservation, b: Reservation)
    requires ValidReservation(a) && ValidReservation(b) && a.reservationId != b.reservationId
    ensures Readable(RecordFile(a) + RecordFile(b))
    ensures Rebuilt(RecordFile(a) + RecordFile(b)).reservations
         == map[a.reservationId := Stored(a, None)][b.reservationId := Stored(b, None)]
    ensures Rebuilt(RecordFile(a) + RecordFile(b)).imports == map[]
  {
    hide *;
    TwoFilesAreReadable(a, b);
    EmptyRebuilds();
    EmptyFacts();
    TwoFiles(a, b);
    var first, both := RecordFile(a), RecordFile(a) + RecordFile(b);
    RebuiltGains(map[], a, first);
    assert Rebuilt(first).reservations == map[a.reservationId := Stored(a, None)];
    RebuiltGains(first, b, both);
    RebuiltPlain(LedgerState(both, map[], map[]));
    PlainHasNoImports(Rebuilt(both));
  }

  lemma TwoFiles(a: Reservation, b: Reservation)
    requires a.reservationId != b.reservationId
    ensures RecordFile(a) == (map[])[ReservationFile(a.reservationId) := Canonical(ReservationRecord(a))]
    ensures RecordFile(a) + RecordFile(b)
         == RecordFile(a)[ReservationFile(b.reservationId) := Canonical(ReservationRecord(b))]
    ensures ReservationFile(b.reservationId) !in RecordFile(a)
    ensures Plain(LedgerState(RecordFile(a) + RecordFile(b), map[], map[]))
  {
  }

  lemma PlainHasNoImports(s: LedgerState)
    requires Plain(s)
    ensures s.imports == map[]
  {
  }

  lemma ScheduledShare(record: Reservation, atMs: int)
    requires UtcDayId(atMs).Ok? && record.reservedAtMs == atMs && record.accountingClass == ScheduledClass
    ensures var scope := ClassOnDay(ScheduledClass, UtcDayId(atMs).value);
            Share(EntryOf(Stored(record, None)), scope) == FromCaps(record.caps)
  {
    hide UtcDayId;
    hide FromCaps;
  }

  lemma TwiceIsMore(one: Amounts)
    requires one.attempts == 1
    ensures !AtMost(Plus(one, Plus(one, NOTHING)), one)
  {
  }

  lemma TotalOfTwo(s: LedgerState, a: Reservation, b: Reservation, atMs: int, caps: EffectCaps)
    requires UtcDayId(atMs).Ok? && a.reservationId != b.reservationId && s.imports == map[]
    requires s.reservations == map[a.reservationId := Stored(a, None)][b.reservationId := Stored(b, None)]
    requires a.reservedAtMs == b.reservedAtMs == atMs && a.accountingClass == b.accountingClass == ScheduledClass
    requires a.caps == b.caps == caps
    ensures Total(s, ClassOnDay(ScheduledClass, UtcDayId(atMs).value))
         == Plus(FromCaps(caps), Plus(FromCaps(caps), NOTHING))
  {
    hide UtcDayId;
    hide Total;
    hide Share;
    hide EntryOf;
    hide Plus;
    hide FromCaps;
    var scope := ClassOnDay(ScheduledClass, UtcDayId(atMs).value);
    var one := LedgerState(map[], map[a.reservationId := Stored(a, None)], map[]);
    TotalOfEmpty(scope);
    TotalOfAdmission(EMPTY, a.reservationId, Stored(a, None), one, scope);
    TotalOfAdmission(one, b.reservationId, Stored(b, None), s, scope);
    ScheduledShare(a, atMs);
    ScheduledShare(b, atMs);
  }

  /** Two records of one day do not fit a pool that holds one. */
  lemma TwoExceed(p: Policy, caps: EffectCaps, a: Reservation, b: Reservation, atMs: int)
    requires HoldsOne(p, caps) && UtcDayId(atMs).Ok? && a.reservationId != b.reservationId
    requires ValidReservation(a) && ValidReservation(b) && a.caps == b.caps == caps
    requires a.reservedAtMs == b.reservedAtMs == atMs && a.accountingClass == b.accountingClass == ScheduledClass
    ensures Readable(RecordFile(a) + RecordFile(b))
    ensures !WithinPolicy(Rebuilt(RecordFile(a) + RecordFile(b)), p)
  {
    hide *;
    RebuiltOfTwo(a, b);
    var s := Rebuilt(RecordFile(a) + RecordFile(b));
    TotalOfTwo(s, a, b, atMs, caps);
    PoolExceeded(s, p, caps, UtcDayId(atMs).value);
  }

  lemma PoolExceeded(s: LedgerState, p: Policy, caps: EffectCaps, day: string)
    requires HoldsOne(p, caps)
    requires Total(s, ClassOnDay(ScheduledClass, day)) == Plus(FromCaps(caps), Plus(FromCaps(caps), NOTHING))
    ensures !WithinPolicy(s, p)
  {
    TwiceIsMore(FromCaps(caps));
    assert Promise(p, ClassOnDay(ScheduledClass, day)) == Some(FromCaps(caps));
    hide Total;
    hide Promise;
    hide FromCaps;
    hide Plus;
    hide OnlyPools;
  }

  /** Where carelessness shows: a record written but unknown to memory, and the next one written without reopening. */
  predicate IsLapse(moves: seq<Move>, i: nat, n: nat) {
    && i < n < |moves|
    && moves[i] == Reserving(FailsToSync)
    && moves[n] in {Reserving(Persists), Reserving(FailsToSync)}
    && forall k :: i < k < n ==> moves[k] != Reopening
  }

  lemma {:induction false} LagHasASource(moves: seq<Move>) returns (i: nat)
    requires Lagging(moves)
    ensures i < |moves| && moves[i] == Reserving(FailsToSync) && forall k :: i < k < |moves| ==> moves[k] != Reopening
  {
    var last := |moves| - 1;
    if moves[last] == Reserving(FailsToSync) {
      i := last;
    } else {
      i := LagHasASource(moves[..last]);
    }
  }

  lemma {:induction false} CarelessHasALapse(moves: seq<Move>) returns (i: nat, n: nat)
    requires !Careful(moves)
    ensures IsLapse(moves, i, n)
  {
    var last := |moves| - 1;
    if Careful(moves[..last]) {
      i := LagHasASource(moves[..last]);
      n := last;
    } else {
      i, n := CarelessHasALapse(moves[..last]);
    }
  }

  /** An action of the given kind that has no effect: its time is not a time of the calendar. */
  function Idle(move: Move, p: Policy, caps: EffectCaps): Action {
    match move
    case Reserving(disk) => Act(Reserve(Scheduled(p, caps, "first"), 0, disk))
    case Settling => Act(Reconcile(WantedId("first"), ProvedPreEffect("", 0), Persists))
    case Reopening => Reopen
  }

  lemma NoSuchTime(request: Request)
    ensures RequestRecord(request, 0).None?
  {
    DayIdNamesTheDay(0);
    hide UtcDayId;
    hide LimitsFor;
    hide StableId;
  }

  lemma NoSuchSettlement(record: Reservation)
    ensures !ValidReconciliation(record, ReconciliationOf(record, ProvedPreEffect("", 0)))
  {
  }

  lemma IdleKeeps(s: LedgerState, move: Move, p: Policy, caps: EffectCaps)
    ensures var a := Idle(move, p, caps);
            && MoveOf(a) == move && SharedAction(a, p) && Perform(s, a).directory == s.directory
            && (move != Reopening ==> Perform(s, a) == s)
  {
    assert SharesPolicy(Scheduled(p, caps, "first"), p);
    hide SharesPolicy;
    hide Scheduled;
    hide ValidReconciliation;
    hide ReconciliationOf;
    hide RequestRecord;
    hide Readable;
    hide StoredIn;
    hide ImportIn;
    match move
    case Reserving(disk) => NoSuchTime(Scheduled(p, caps, "first"));
    case Settling =>
      if WantedId("first") in s.reservations { NoSuchSettlement(s.reservations[WantedId("first")].record); }
    case Reopening =>
  }

  /** A course of the given kinds in which only the two writes of the lapse have an effect. */
  function LapseAt(moves: seq<Move>, i: nat, n: nat, p: Policy, caps: EffectCaps, atMs: int, k: nat): Action
    requires IsLapse(moves, i, n) && k < |moves|
  {
    if k == i then Act(Reserve(Scheduled(p, caps, "first"), atMs, FailsToSync))
    else if k == n then Act(Reserve(Scheduled(p, caps, "second"), atMs, moves[n].disk))
    else Idle(moves[k], p, caps)
  }

  function Lapse(moves: seq<Move>, i: nat, n: nat, p: Policy, caps: EffectCaps, atMs: int,
                 count: nat): (actions: seq<Action>)
    requires IsLapse(moves, i, n) && count <= |moves|
    ensures |actions| == count
  {
    if count == 0 then []
    else Lapse(moves, i, n, p, caps, atMs, count - 1) + [LapseAt(moves, i, n, p, caps, atMs, count - 1)]
  }

  lemma LapseAtIsShared(moves: seq<Move>, i: nat, n: nat, p: Policy, caps: EffectCaps, atMs: int, k: nat)
    requires IsLapse(moves, i, n) && k < |moves|
    ensures MoveOf(LapseAt(moves, i, n, p, caps, atMs, k)) == moves[k]
    ensures SharedAction(LapseAt(moves, i, n, p, caps, atMs, k), p)
  {
    IdleKeeps(EMPTY, moves[k], p, caps);
    hide Idle;
  }

  lemma {:induction false} LapseIsShared(moves: seq<Move>, i: nat, n: nat, p: Policy, caps: EffectCaps, atMs: int,
                                         count: nat)
    requires IsLapse(moves, i, n) && count <= |moves|
    ensures var actions := Lapse(moves, i, n, p, caps, atMs, count);
            Moves(actions) == moves[..count] && SharedCourse(actions, p)
  {
    hide LapseAt;
    hide SharedAction;
    hide MoveOf;
    hide IsLapse;
    if count > 0 {
      var before := Lapse(moves, i, n, p, caps, atMs, count - 1);
      var actions := Lapse(moves, i, n, p, caps, atMs, count);
      LapseIsShared(moves, i, n, p, caps, atMs, count - 1);
      LapseAtIsShared(moves, i, n, p, caps, atMs, count - 1);
      assert actions[..count - 1] == before;
      assert moves[..count] == moves[..count - 1] + [moves[count - 1]];
    }
  }

  function RecordOf(p: Policy, caps: EffectCaps, attempt: string, atMs: int): Reservation
    requires RequestRecord(Scheduled(p, caps, attempt), atMs).Some?
  {
    RequestRecord(Scheduled(p, caps, attempt), atMs).value
  }

  /** The files of a lapse after some of its actions. */
  function LapseFiles(i: nat, n: nat, first: Reservation, second: Reservation, count: nat): Directory {
    if count <= i then map[] else if count <= n then RecordFile(first) else RecordFile(first) + RecordFile(second)
  }

  lemma AttemptsDiffer()
    ensures WantedId("first") != WantedId("second")
  {
    assert "first"[0] == 'f' && "second"[0] == 's';
  }

  lemma LapseStep(s: LedgerState, moves: seq<Move>, i: nat, n: nat, p: Policy, caps: EffectCaps, atMs: int, k: nat)
    requires IsLapse(moves, i, n) && k < |moves| && HoldsOne(p, caps) && UtcDayId(atMs).Ok?
    requires RequestRecord(Scheduled(p, caps, "first"), atMs).Some?
    requires RequestRecord(Scheduled(p, caps, "second"), atMs).Some?
    requires s.directory == LapseFiles(i, n, RecordOf(p, caps, "first", atMs), RecordOf(p, caps, "second", atMs), k)
    requires k <= n ==> s.reservations == map[] && s.imports == map[]
    ensures var s' := Perform(s, LapseAt(moves, i, n, p, caps, atMs, k));
            && s'.directory == LapseFiles(i, n, RecordOf(p, caps, "first", atMs), RecordOf(p, caps, "second", atMs),
                                          k + 1)
            && (k + 1 <= n ==> s'.reservations == map[] && s'.imports == map[])
  {
    hide Perform;
    hide Idle;
    hide RequestRecord;
    hide HoldsOne;
    hide UtcDayId;
    hide RecordFile;
    if k == i {
      assert s == EMPTY;
      FirstWrite(s, p, caps, atMs);
    } else if k == n {
      SecondWrite(s, p, caps, atMs, moves[n].disk);
    } else {
      IdleKeeps(s, moves[k], p, caps);
      if k < n && moves[k] == Reopening {
        IdleReopening(s, p, caps);
      }
    }
  }

  lemma IdleReopening(s: LedgerState, p: Policy, caps: EffectCaps)
    requires s == EMPTY
    ensures Perform(s, Idle(Reopening, p, caps)) == EMPTY
  {
    EmptyRebuilds();
    hide Rebuilt;
    hide Readable;
  }

  lemma FirstWrite(s: LedgerState, p: Policy, caps: EffectCaps, atMs: int)
    requires HoldsOne(p, caps) && UtcDayId(atMs).Ok? && s == EMPTY
    ensures RequestRecord(Scheduled(p, caps, "first"), atMs).Some?
    ensures var s' := Perform(s, Act(Reserve(Scheduled(p, caps, "first"), atMs, FailsToSync)));
            && s'.directory == RecordFile(RecordOf(p, caps, "first", atMs))
            && s'.reservations == map[] && s'.imports == map[]
    ensures Reserved(s, Scheduled(p, caps, "first"), atMs, FailsToSync).1.Err?
  {
    ScheduledWrites(s, p, caps, "first", atMs, FailsToSync);
  }

  lemma SecondWrite(s: LedgerState, p: Policy, caps: EffectCaps, atMs: int, disk: Disk)
    requires HoldsOne(p, caps) && UtcDayId(atMs).Ok? && s.reservations == map[] && s.imports == map[]
    requires RequestRecord(Scheduled(p, caps, "first"), atMs).Some? && (disk == Persists || disk == FailsToSync)
    requires s.directory == RecordFile(RecordOf(p, caps, "first", atMs))
    ensures RequestRecord(Scheduled(p, caps, "second"), atMs).Some?
    ensures Perform(s, Act(Reserve(Scheduled(p, caps, "second"), atMs, disk)))
         == Reserved(s, Scheduled(p, caps, "second"), atMs, disk).0
    ensures var (s', outcome) := Reserved(s, Scheduled(p, caps, "second"), atMs, disk);
            && s'.directory
               == RecordFile(RecordOf(p, caps, "first", atMs)) + RecordFile(RecordOf(p, caps, "second", atMs))
            && (disk == Persists ==> outcome.Ok?)
  {
    AttemptsDiffer();
    ScheduledHasRoom(EMPTY, p, caps, "first", atMs);
    ScheduledWrites(s, p, caps, "second", atMs, disk);
  }

  lemma {:induction false} LapseCourse(moves: seq<Move>, i: nat, n: nat, p: Policy, caps: EffectCaps, atMs: int,
                                       count: nat)
    requires IsLapse(moves, i, n) && count <= |moves| && HoldsOne(p, caps) && UtcDayId(atMs).Ok?
    requires RequestRecord(Scheduled(p, caps, "first"), atMs).Some?
    requires RequestRecord(Scheduled(p, caps, "second"), atMs).Some?
    ensures var s := Course(Lapse(moves, i, n, p, caps, atMs, count));
            && s.directory == LapseFiles(i, n, RecordOf(p, caps, "first", atMs), RecordOf(p, caps, "second", atMs),
                                         count)
            && (count <= n ==> s.reservations == map[] && s.imports == map[])
  {
    hide RequestRecord;
    hide Perform;
    hide HoldsOne;
    hide UtcDayId;
    hide IsLapse;
    hide LapseAt;
    hide RecordOf;
    if count > 0 {
      hide LapseFiles;
      var actions := Lapse(moves, i, n, p, caps, atMs, count);
      assert actions[..count - 1] == Lapse(moves, i, n, p, caps, atMs, count - 1);
      LapseCourse(moves, i, n, p, caps, atMs, count - 1);
      LapseStep(Course(actions[..count - 1]), moves, i, n, p, caps, atMs, count - 1);
    }
  }

  /** After a lapse the directory still opens, and holds two reservations where the pool allows one. */
  lemma LapseExceeds(moves: seq<Move>, i: nat, n: nat, p: Policy, caps: EffectCaps, atMs: int)
    requires IsLapse(moves, i, n) && HoldsOne(p, caps) && UtcDayId(atMs).Ok?
    ensures var actions := Lapse(moves, i, n, p, caps, atMs, |moves|);
            Moves(actions) == moves && SharedCourse(actions, p) && !DirectoryWithin(Course(actions), p)
  {
    LapseFacts(moves, i, n);
    hide *;
    LapseIsShared(moves, i, n, p, caps, atMs, |moves|);
    assert moves[..|moves|] == moves;
    BothRecords(p, caps, atMs);
    LapseCourse(moves, i, n, p, caps, atMs, |moves|);
    var first, second := RecordOf(p, caps, "first", atMs), RecordOf(p, caps, "second", atMs);
    LastFiles(i, n, first, second, |moves|);
    TwoExceed(p, caps, first, second, atMs);
    NotWithin(Course(Lapse(moves, i, n, p, caps, atMs, |moves|)), p);
  }

  lemma LapseFacts(moves: seq<Move>, i: nat, n: nat)
    requires IsLapse(moves, i, n)
    ensures i < n < |moves|
  {
  }

  lemma LastFiles(i: nat, n: nat, first: Reservation, second: Reservation, count: nat)
    requires i < n < count
    ensures LapseFiles(i, n, first, second, count) == RecordFile(first) + RecordFile(second)
  {
  }

  lemma NotWithin(s: LedgerState, p: Policy)
    requires Readable(s.directory) && !WithinPolicy(Rebuilt(s.directory), p)
    ensures !DirectoryWithin(s, p)
  {
    hide WithinPolicy;
  }

  lemma BothRecords(p: Policy, caps: EffectCaps, atMs: int)
    requires HoldsOne(p, caps) && UtcDayId(atMs).Ok?
    ensures RequestRecord(Scheduled(p, caps, "first"), atMs).Some?
    ensures RequestRecord(Scheduled(p, caps, "second"), atMs).Some?
    ensures var a, b := RecordOf(p, caps, "first", atMs), RecordOf(p, caps, "second", atMs);
            && a.reservationId != b.reservationId && ValidReservation(a) && ValidReservation(b)
                && a.caps == b.caps == caps
            && a.reservedAtMs == b.reservedAtMs == atMs && a.accountingClass == b.accountingClass == ScheduledClass
  {
    AttemptsDiffer();
    hide HoldsOne;
    hide UtcDayId;
    hide RequestRecord;
    hide Scheduled;
    hide WantedId;
    hide ValidReservation;
    ScheduledHasRoom(EMPTY, p, caps, "first", atMs);
    ScheduledHasRoom(EMPTY, p, caps, "second", atMs);
  }

  // ---- The exact condition ----

  /** Whatever is requested under whichever policy, actions of these kinds keep the directory within the policy. */
  ghost predicate KeepsWithin(moves: seq<Move>) {
    forall actions, p :: Moves(actions) == moves && SharedCourse(actions, p) ==> DirectoryWithin(Course(actions), p)
  }

  lemma PooledHoldsOne(caps: EffectCaps)
    requires ValidEffectCaps(caps)
    ensures HoldsOne(PooledPolicy(caps), caps)
  {
    hide ValidEffectCaps;
    hide ValidPolicy;
    hide OnlyPools;
    hide FromCaps;
    PooledIsValid(caps);
    PooledIsOnlyPools(caps);
  }

  lemma SomePolicyHoldsOne() returns (p: Policy, caps: EffectCaps)
    ensures HoldsOne(p, caps)
  {
    caps := EffectCaps(1, 1, 0, 1, 0, 0);
    assert ValidEffectCaps(caps);
    hide *;
    p := PooledPolicy(caps);
    PooledHoldsOne(caps);
  }

  /**
   * The directory is sure to stay within every policy exactly when nothing is written for a reservation while
   * another one has been written without acknowledgement and the ledger has not been reopened since.
   */
  lemma KeepsWithinExactly(moves: seq<Move>)
    ensures KeepsWithin(moves) <==> Careful(moves)
  {
    hide Careful;
    hide DirectoryWithin;
    hide SharedCourse;
    hide Course;
    hide Moves;
    if Careful(moves) {
      forall actions, p | Moves(actions) == moves && SharedCourse(actions, p)
          ensures DirectoryWithin(Course(actions), p) {
        CarefulStaysWithin(actions, p);
      }
    } else {
      var i, n := CarelessHasALapse(moves);
      var p, caps := SomePolicyHoldsOne();
      assert UtcDayId(1).Ok? by { DayIdNamesTheDay(1); }
      hide HoldsOne;
      hide UtcDayId;
      hide IsLapse;
      hide Lapse;
      LapseExceeds(moves, i, n, p, caps, 1);
      assert Moves(Lapse(moves, i, n, p, caps, 1, |moves|)) == moves;
    }
  }

  /**
   * The shortest failing run, on any day: one reservation is written but not acknowledged, a second one for the
   * same pool is admitted, and the directory exceeds the pool. Once reopened, even the replay of the first one
   * is acknowledged, so acknowledgements alone do not stay within the policy; admissions do.
   */
  lemma UnsyncedRunExceeds(p: Policy, caps: EffectCaps, atMs: int, disk: Disk)
    requires HoldsOne(p, caps) && UtcDayId(atMs).Ok?
    ensures var first, second := Scheduled(p, caps, "first"), Scheduled(p, caps, "second");
            var s := Perform(EMPTY, Act(Reserve(first, atMs, FailsToSync)));
            var s' := Perform(s, Act(Reserve(second, atMs, Persists)));
            && Reserved(EMPTY, first, atMs, FailsToSync).1.Err? && Reserved(s, second, atMs, Persists).1.Ok?
            && Readable(s'.directory) && !WithinPolicy(Perform(s', Reopen), p)
            && Reserved(Perform(s', Reopen), first, atMs, disk).1.Ok?
  {
    hide *;
    var first, second := Scheduled(p, caps, "first"), Scheduled(p, caps, "second");
    BothRecords(p, caps, atMs);
    FirstWrite(EMPTY, p, caps, atMs);
    var s := Perform(EMPTY, Act(Reserve(first, atMs, FailsToSync)));
    PerformedReserve(EMPTY, first, atMs, FailsToSync);
    SecondWrite(s, p, caps, atMs, Persists);
    PerformedReserve(s, second, atMs, Persists);
    var s' := Perform(s, Act(Reserve(second, atMs, Persists)));
    var a, b := RecordOf(p, caps, "first", atMs), RecordOf(p, caps, "second", atMs);
    TwoExceed(p, caps, a, b, atMs);
    Reopened(s');
    RebuiltOfTwo(a, b);
    RebuiltIsSound(s'.directory);
    FirstReplays(Rebuilt(s'.directory), p, caps, atMs, disk);
  }

  lemma PerformedReserve(s: LedgerState, request: Request, atMs: int, disk: Disk)
    ensures Perform(s, Act(Reserve(request, atMs, disk))) == Reserved(s, request, atMs, disk).0
  {
    hide Reserved;
  }

  lemma Reopened(s: LedgerState)
    requires Readable(s.directory)
    ensures Perform(s, Reopen) == Rebuilt(s.directory)
  {
    hide Readable;
    hide Rebuilt;
  }

  lemma FirstReplays(s: LedgerState, p: Policy, caps: EffectCaps, atMs: int, disk: Disk)
    requires Sound(s) && UtcDayId(atMs).Ok? && RequestRecord(Scheduled(p, caps, "first"), atMs).Some?
    requires var a := RecordOf(p, caps, "first", atMs);
             a.reservationId in s.reservations && s.reservations[a.reservationId].record == a
    ensures Reserved(s, Scheduled(p, caps, "first"), atMs, disk).1.Ok?
  {
    ProposalKey(Scheduled(p, caps, "first"), atMs);
    ProposalIsValid(Scheduled(p, caps, "first"), atMs);
    hide Recorded;
    hide Filed;
    hide WellFormed;
    hide RequestRecord;
    hide Reserved;
    hide UtcDayId;
    hide ExistingMatchesRequest;
    hide Scheduled;
    StoredRequestReplays(s, Scheduled(p, caps, "first"), atMs, disk);
  }
}

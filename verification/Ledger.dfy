/** The file-backed ledger: a directory of immutable records and two maps that cache it. */
module Ledger {
  import opened Prelude
  import opened Budget
  import opened Calendar
  import opened LedgerRecords
  import opened Accounting
  import opened LedgerSpec
  import opened LedgerRuns
  import opened LedgerDurable

  /** The greatest recorded time, or zero if nothing was recorded. */
  ghost predicate IsLatest(s: LedgerState, latest: int) {
    && (forall id :: id in s.reservations ==> StoredTime(s.reservations[id]) <= latest)
    && (forall id :: id in s.imports ==> s.imports[id].observedAtMs <= latest)
    && (|| latest == 0
        || (exists id :: id in s.reservations && StoredTime(s.reservations[id]) == latest)
        || (exists id :: id in s.imports && s.imports[id].observedAtMs == latest))
  }

  lemma LatestDecides(s: LedgerState, latest: int, nowMs: int)
    requires IsLatest(s, latest) && 0 <= nowMs
    ensures latest > nowMs <==> ClockRolledBack(s, nowMs)
  {
  }

  class FileCompatibilityLedger {
    var directory: Directory
    var reservations: map<ReservationId, Stored>
    var imports: map<ImportId, LegacyImport>

    ghost function State(): LedgerState
      reads this
    {
      LedgerState(directory, reservations, imports)
    }

    constructor (directory: Directory, reservations: map<ReservationId, Stored>, imports: map<ImportId, LegacyImport>)
      ensures State() == LedgerState(directory, reservations, imports)
    {
      this.directory := directory;
      this.reservations := reservations;
      this.imports := imports;
    }

    /** The usage in a scope, unless a total does not fit an unsigned 64-bit integer. */
    method CurrentUsage(scope: Scope) returns (usage: Option<Amounts>)
      ensures usage == if Representable(Total(State(), scope)) then Some(Total(State(), scope)) else None
    {
      hide Sum;
      ghost var reserved := Sum(ReservationEntries(State()), scope);
      PlusNothing(reserved);
      usage := AddShares(ReservationEntries(LedgerState(directory, reservations, imports)), scope, NOTHING);
      if usage.Some? {
        usage := AddShares(ImportEntries(LedgerState(directory, reservations, imports)), scope, usage.value);
      }
    }

    /** The latest time of any record; nothing recorded counts as time zero. */
    method LatestTime() returns (latest: int)
      ensures 0 <= latest
      ensures forall nowMs :: 0 <= nowMs ==> (latest > nowMs <==> ClockRolledBack(State(), nowMs))
    {
      hide ClockRolledBack;
      latest := 0;
      var remaining := reservations.Keys;
      while remaining != {}
        invariant remaining <= reservations.Keys && 0 <= latest
        invariant forall id :: id in reservations && id !in remaining ==> StoredTime(reservations[id]) <= latest
        invariant latest == 0 || exists id :: id in reservations && StoredTime(reservations[id]) == latest
        decreases |remaining|
      {
        var id :| id in remaining;
        if StoredTime(reservations[id]) > latest {
          latest := StoredTime(reservations[id]);
        }
        remaining := remaining - {id};
      }
      var left := imports.Keys;
      while left != {}
        invariant left <= imports.Keys && 0 <= latest
        invariant forall id :: id in reservations ==> StoredTime(reservations[id]) <= latest
        invariant forall id :: id in imports && id !in left ==> imports[id].observedAtMs <= latest
        invariant || latest == 0
                  || (exists id :: id in reservations && StoredTime(reservations[id]) == latest)
                  || (exists id :: id in imports && imports[id].observedAtMs == latest)
        decreases |left|
      {
        var id :| id in left;
        if imports[id].observedAtMs > latest {
          latest := imports[id].observedAtMs;
        }
        left := left - {id};
      }
      assert IsLatest(State(), latest);
      forall nowMs | 0 <= nowMs ensures latest > nowMs <==> ClockRolledBack(State(), nowMs) {
        LatestDecides(State(), latest, nowMs);
      }
    }

    /** The first of the two refusals of a single budget, if it refuses. */
    method CheckBudget(check: Check, reserve: Amounts) returns (refused: Option<LedgerError>)
      ensures var total := Plus(Total(State(), check.scope), reserve);
              refused == if !Representable(total) then Some(InvalidRequest)
                         else if !AtMost(total, check.cap) then Some(Refused(check.refusal))
                         else None
    {
      hide Total;
      var usage := CurrentUsage(check.scope);
      match usage
      case None => return Some(InvalidRequest);
      case Some(total) =>
        match CheckedAdd(total, reserve)
        case None => return Some(InvalidRequest);
        case Some(sum) =>
          refused := if AtMost(sum, check.cap) then None else Some(Refused(check.refusal));
    }

    method CheckHeadroom(request: Request, nowMs: int) returns (refused: Option<LedgerError>)
      ensures refused == Headroom(State(), request, nowMs)
    {
      ProposalIsValid(request, nowMs);
      PositiveTime(request, nowMs);
      hide RequestRecord;
      hide ValidReservation;
      hide ExistingMatchesRequest;
      hide LimitsFor;
      hide Total;
      hide ClockRolledBack;
      hide FirstFailure;
      hide FromCaps;
      match RequestRecord(request, nowMs)
      case None => return Some(InvalidRequest);
      case Some(proposed) =>
        if proposed.reservationId in reservations {
          if ExistingMatchesRequest(reservations[proposed.reservationId].record, request) {
            return None;
          }
          return Some(InvalidRequest);
        }
        var latest := LatestTime();
        if latest > nowMs {
          return Some(Refused(ClockRollback));
        }
        var limits := LimitsFor(request).value;
        var reserve := FromCaps(proposed.caps);
        var day := proposed.utcDayId;
        ghost var checks := ChecksFor(limits, proposed);
        assert checks[0..] == checks;
        NextCheck(State(), checks, 0, reserve);
        refused := CheckBudget(Check(OnDay(day), limits.utcDay, UtcDayExhausted), reserve);
        if refused.Some? { return; }
        NextCheck(State(), checks, 1, reserve);
        refused := CheckBudget(Check(Rolling(nowMs), limits.rolling24h, Rolling24hExhausted), reserve);
        if refused.Some? { return; }
        NextCheck(State(), checks, 2, reserve);
        refused := CheckBudget(Check(CaseOnDay(request.caseId, day), limits.perCase, PerCaseExhausted), reserve);
        if refused.Some? { return; }
        NextCheck(State(), checks, 3, reserve);
        refused := CheckBudget(Check(ProviderOnDay(request.providerFamily, day), limits.perProvider,
                                     PerProviderExhausted), reserve);
        if refused.Some? { return; }
        if limits.perTrigger.Some? {
          NextCheck(State(), checks, 4, reserve);
          refused := CheckBudget(Check(TriggerOnDay(proposed.trigger, day), limits.perTrigger.value,
                                       PerTriggerExhausted), reserve);
          if refused.Some? { return; }
        }
        NextCheck(State(), checks, |checks| - 1, reserve);
        refused := CheckBudget(Check(ClassOnDay(proposed.accountingClass, day), limits.classPool, limits.classRefusal),
                               reserve);
    }

    /** Creates a record under a new name, or recognises the identical one that is already there. */
    method AppendRecord(name: FileName, record: FileRecord, disk: Disk)
        returns (outcome: Result<AppendOutcome, LedgerError>)
      modifies this`directory
      ensures (directory, outcome) == Append(old(directory), name, record, disk)
    {
      if name in directory {
        if directory[name] == Canonical(record) {
          return Ok(ExistingIdentical);
        }
        return Err(NotPersisted);
      }
      match disk
      case RefusesToCreate =>
        return Err(NotPersisted);
      case TearsWrite =>
        directory := directory[name := Unreadable];
        return Err(NotPersisted);
      case FailsToSync =>
        directory := directory[name := Canonical(record)];
        return Err(NotPersisted);
      case Persists =>
        directory := directory[name := Canonical(record)];
        return Ok(Created);
    }

    method PrepareReservation(request: Request, atMs: int) returns (prepared: Result<Reservation, LedgerError>)
      ensures prepared == Prepared(State(), request, atMs)
    {
      hide Headroom;
      hide RequestRecord;
      AdmittedHasRecord(State(), request, atMs);
      var refused := CheckHeadroom(request, atMs);
      match refused
      case Some(error) => return Err(error);
      case None =>
        var proposed := RequestRecord(request, atMs).value;
        if proposed.reservationId in reservations {
          return Ok(reservations[proposed.reservationId].record);
        }
        return Ok(proposed);
    }

    method CommitPreparedReservation(record: Reservation, disk: Disk)
      returns (outcome: Result<(AppendOutcome, Reservation), LedgerError>)
      modifies this
      ensures (State(), outcome) == Committed(old(State()), record, disk)
    {
      hide ValidReservation;
      hide Append;
      if !ValidReservation(record) {
        return Err(InvalidRequest);
      }
      if record.reservationId in reservations {
        if reservations[record.reservationId].record == record {
          return Ok((ExistingIdentical, record));
        }
        return Err(Rebound);
      }
      if exists id :: id in reservations && reservations[id].record.attemptKey == record.attemptKey {
        return Err(Rebound);
      }
      var appended := AppendRecord(ReservationFile(record.reservationId), ReservationRecord(record), disk);
      match appended
      case Err(error) => return Err(error);
      case Ok(how) =>
        reservations := reservations[record.reservationId := Stored(record, None)];
        return Ok((how, record));
    }

    method Reserve(request: Request, atMs: int, disk: Disk)
      returns (outcome: Result<(AppendOutcome, Reservation), LedgerError>)
      modifies this
      ensures (State(), outcome) == Reserved(old(State()), request, atMs, disk)
    {
      hide Prepared;
      hide Committed;
      var prepared := PrepareReservation(request, atMs);
      match prepared
      case Err(error) => return Err(error);
      case Ok(record) => outcome := CommitPreparedReservation(record, disk);
    }

    method Reconcile(id: ReservationId, decision: Decision, disk: Disk)
      returns (outcome: Result<(AppendOutcome, Reconciliation), LedgerError>)
      modifies this
      ensures (State(), outcome) == Reconciled(old(State()), id, decision, disk)
    {
      hide ValidReconciliation;
      hide ReconciliationOf;
      hide Append;
      if id !in reservations {
        return Err(ReservationAbsent);
      }
      var stored := reservations[id];
      var value := ReconciliationOf(stored.record, decision);
      if !ValidReconciliation(stored.record, value) {
        return Err(InvalidReconciliation);
      }
      if stored.reconciliation.Some? {
        if stored.reconciliation.value == value {
          return Ok((ExistingIdentical, value));
        }
        return Err(AlreadyReconciled);
      }
      var appended := AppendRecord(ReconciliationFile(value.reservationId), ReconciliationRecord(value), disk);
      match appended
      case Err(error) => return Err(error);
      case Ok(how) =>
        reservations := reservations[id := Stored(stored.record, Some(value))];
        return Ok((how, value));
    }

    method ImportLegacy(value: LegacyImport, disk: Disk) returns (outcome: Result<AppendOutcome, LedgerError>)
      modifies this
      ensures (State(), outcome) == Imported(old(State()), value, disk)
    {
      hide ValidLegacyImport;
      hide Append;
      if !ValidLegacyImport(value) {
        return Err(InvalidImport);
      }
      if value.importId in imports {
        if imports[value.importId] == value {
          return Ok(ExistingIdentical);
        }
        return Err(Rebound);
      }
      var appended := AppendRecord(LegacyFile(value.importId), LegacyRecord(value), disk);
      match appended
      case Err(error) => return Err(error);
      case Ok(how) =>
        imports := imports[value.importId := value];
        return Ok(how);
    }
  }

  lemma AdmittedHasRecord(s: LedgerState, request: Request, atMs: int)
    ensures Headroom(s, request, atMs).None? ==> RequestRecord(request, atMs).Some?
  {
    hide RequestRecord;
    hide FirstFailure;
  }

  /** Opens exactly the readable directories, and then holds what they record. */
  method Open(directory: Directory) returns (ledger: Option<FileCompatibilityLedger>)
    ensures ledger.Some? <==> Readable(directory)
    ensures ledger.Some? ==> fresh(ledger.value) && ledger.value.State() == Rebuilt(directory)
  {
    hide Readable;
    hide Rebuilt;
    var scanned := Scan(directory);
    match scanned
    case None => ledger := None;
    case Some(s) =>
      var rebuilt := new FileCompatibilityLedger(s.directory, s.reservations, s.imports);
      ledger := Some(rebuilt);
  }

  datatype Scanned = Scanned(
    reservations: map<ReservationId, Stored>,
    reconciliations: map<ReservationId, Reconciliation>,
    imports: map<ImportId, LegacyImport>)

  /** The maps hold exactly the records of the files `done`. */
  ghost predicate Holds(dir: Directory, done: set<FileName>, maps: Scanned) {
    && done <= dir.Keys
    && (forall name :: name in done ==> WellNamed(name, dir[name]))
    && (forall id :: id in maps.reservations <==> ReservationFile(id) in done)
    && (forall id :: ReservationFile(id) in done ==>
          maps.reservations[id] == Stored(dir[ReservationFile(id)].record.reservation, None))
    && (forall id :: id in maps.reconciliations <==> ReconciliationFile(id) in done)
    && (forall id :: ReconciliationFile(id) in done ==>
          maps.reconciliations[id] == dir[ReconciliationFile(id)].record.reconciliation)
    && (forall id :: id in maps.imports <==> LegacyFile(id) in done)
    && (forall id :: LegacyFile(id) in done ==> maps.imports[id] == dir[LegacyFile(id)].record.legacy)
  }

  lemma HoldsOneMore(dir: Directory, done: set<FileName>, maps: Scanned, name: FileName)
    requires Holds(dir, done, maps) && name in dir && WellNamed(name, dir[name])
    ensures Holds(dir, done + {name}, WithFile(maps, name, dir[name]))
  {
    hide ValidReservation;
    hide ValidLegacyImport;
  }

  /** The maps with the record of one more file. */
  function WithFile(maps: Scanned, name: FileName, content: Content): Scanned
    requires WellNamed(name, content)
  {
    match name
    case ReservationFile(id) => maps.(reservations := maps.reservations[id := Stored(content.record.reservation, None)])
    case ReconciliationFile(id) => maps.(reconciliations := maps.reconciliations[id := content.record.reconciliation])
    case LegacyFile(id) => maps.(imports := maps.imports[id := content.record.legacy])
  }

  /** Reads every file, in any order; one file that is not what its name says refuses them all. */
  method ReadFiles(dir: Directory) returns (r: Option<Scanned>)
    ensures r.Some? <==> forall name :: name in dir ==> WellNamed(name, dir[name])
    ensures r.Some? ==> Holds(dir, dir.Keys, r.value)
  {
    var maps := Scanned(map[], map[], map[]);
    var names := dir.Keys;
    assert Holds(dir, dir.Keys - names, maps);
    hide Holds;
    hide WellNamed;
    while names != {}
      invariant names <= dir.Keys
      invariant Holds(dir, dir.Keys - names, maps)
      decreases |names|
    {
      var name :| name in names;
      if !WellNamed(name, dir[name]) {
        return None;
      }
      HoldsOneMore(dir, dir.Keys - names, maps, name);
      assert dir.Keys - names + {name} == dir.Keys - (names - {name});
      maps := WithFile(maps, name, dir[name]);
      names := names - {name};
    }
    assert dir.Keys - names == dir.Keys;
    AllWellNamed(dir, maps);
    r := Some(maps);
  }

  lemma AllWellNamed(dir: Directory, maps: Scanned)
    requires Holds(dir, dir.Keys, maps)
    ensures forall name :: name in dir ==> WellNamed(name, dir[name])
  {
  }

  /** A reconciliation finds its reservation and is bound to it. */
  predicate Attaches(maps: Scanned, id: ReservationId)
    requires id in maps.reconciliations
  {
    id in maps.reservations && ValidReconciliation(maps.reservations[id].record, maps.reconciliations[id])
  }

  /** Attaches every reconciliation to its reservation, or refuses if one does not belong. */
  method AttachReconciliations(maps: Scanned) returns (r: Option<map<ReservationId, Stored>>)
    requires forall id :: id in maps.reservations ==> maps.reservations[id].reconciliation.None?
    ensures r.Some? <==> forall id :: id in maps.reconciliations ==> Attaches(maps, id)
    ensures r.Some? ==>
              && r.value.Keys == maps.reservations.Keys
              && forall id :: id in maps.reservations ==>
                   r.value[id] == Stored(maps.reservations[id].record,
                                         if id in maps.reconciliations then Some(maps.reconciliations[id]) else None)
  {
    hide ValidReconciliation;
    var reservations := maps.reservations;
    var remaining := maps.reconciliations.Keys;
    while remaining != {}
      invariant remaining <= maps.reconciliations.Keys && reservations.Keys == maps.reservations.Keys
      invariant forall id :: id in maps.reconciliations && id !in remaining ==> Attaches(maps, id)
      invariant forall id :: id in maps.reservations ==>
                  reservations[id] == Stored(maps.reservations[id].record,
                                             if id in maps.reconciliations && id !in remaining
                                             then Some(maps.reconciliations[id]) else None)
      decreases |remaining|
    {
      var id :| id in remaining;
      if id !in reservations || !ValidReconciliation(reservations[id].record, maps.reconciliations[id]) {
        assert !Attaches(maps, id);
        return None;
      }
      reservations := reservations[id := reservations[id].(reconciliation := Some(maps.reconciliations[id]))];
      remaining := remaining - {id};
    }
    r := Some(reservations);
  }

  lemma ReadableMeans(dir: Directory, maps: Scanned)
    requires Holds(dir, dir.Keys, maps) && |dir| <= MAX_LEDGER_FILES
    ensures Readable(dir) <==> forall id :: id in maps.reconciliations ==> Attaches(maps, id)
  {
    hide ValidReservation;
    hide ValidReconciliation;
    hide ValidLegacyImport;
    if forall id :: id in maps.reconciliations ==> Attaches(maps, id) {
      forall name | name in dir ensures ReadableFile(dir, name) {
        assert WellNamed(name, dir[name]);
        if name.ReconciliationFile? {
          assert Attaches(maps, name.id);
          assert WellNamed(ReservationFile(name.id), dir[ReservationFile(name.id)]);
        }
      }
    }
    if Readable(dir) {
      forall id | id in maps.reconciliations ensures Attaches(maps, id) {
        assert ReadableFile(dir, ReconciliationFile(id));
      }
    }
  }

  lemma RebuiltMeans(dir: Directory, maps: Scanned, reservations: map<ReservationId, Stored>)
    requires Holds(dir, dir.Keys, maps) && Readable(dir)
    requires reservations.Keys == maps.reservations.Keys
    requires forall id :: id in maps.reservations ==>
               reservations[id] == Stored(maps.reservations[id].record,
                                          if id in maps.reconciliations then Some(maps.reconciliations[id]) else None)
    ensures Rebuilt(dir) == LedgerState(dir, reservations, maps.imports)
  {
    hide WellNamed;
    hide ReadableFile;
    var rebuilt := Rebuilt(dir);
    assert rebuilt.reservations == reservations;
    assert rebuilt.imports == maps.imports;
  }

  /** Rebuilds the in-memory maps from a directory: exactly the readable ones open, and to what they record. */
  method Scan(dir: Directory) returns (r: Option<LedgerState>)
    ensures r.Some? <==> Readable(dir)
    ensures r.Some? ==> r.value == Rebuilt(dir)
  {
    if |dir| > MAX_LEDGER_FILES {
      return None;
    }
    var scanned := ReadFiles(dir);
    if scanned.None? {
      UnreadableFile(dir);
      return None;
    }
    var maps := scanned.value;
    assert forall id :: id in maps.reservations ==> maps.reservations[id].reconciliation.None?;
    hide Holds;
    hide Readable;
    hide Attaches;
    hide Rebuilt;
    ReadableMeans(dir, maps);
    var reservations := AttachReconciliations(maps);
    if reservations.None? {
      return None;
    }
    RebuiltMeans(dir, maps, reservations.value);
    r := Some(LedgerState(dir, reservations.value, maps.imports));
  }

  lemma UnreadableFile(dir: Directory)
    requires exists name :: name in dir && !WellNamed(name, dir[name])
    ensures !Readable(dir)
  {
    hide ValidReservation;
    hide ValidReconciliation;
    hide ValidLegacyImport;
    var name :| name in dir && !WellNamed(name, dir[name]);
    assert !ReadableFile(dir, name);
  }

  lemma NextCheck(s: LedgerState, checks: seq<Check>, i: nat, reserve: Amounts)
    requires i < |checks|
    ensures FirstFailure(s, checks[i..], reserve)
         == var total := Plus(Total(s, checks[i].scope), reserve);
            if !Representable(total) then Some(InvalidRequest)
            else if !AtMost(total, checks[i].cap) then Some(Refused(checks[i].refusal))
            else FirstFailure(s, checks[i + 1..], reserve)
    ensures i + 1 == |checks| ==> FirstFailure(s, checks[i + 1..], reserve) == None
  {
    hide Total;
    assert checks[i..][1..] == checks[i + 1..];
  }

  /** Adds the shares of all entries to a running total, one checked addition at a time. */
  method AddShares<K(==)>(entries: map<K, Entry>, scope: Scope, start: Amounts) returns (usage: Option<Amounts>)
    requires Representable(start)
    ensures usage == if Representable(Plus(start, Sum(entries, scope))) then Some(Plus(start, Sum(entries, scope)))
            else None
  {
    hide Share;
    hide Sum;
    hide InScope;
    hide Plus;
    hide Representable;
    var total := start;
    var remaining := entries.Keys;
    ghost var rest := entries;
    while remaining != {}
      invariant rest.Keys == remaining <= entries.Keys
      invariant forall k :: k in rest ==> rest[k] == entries[k]
      invariant Plus(total, Sum(rest, scope)) == Plus(start, Sum(entries, scope))
      invariant Representable(total)
      decreases |remaining|
    {
      var k :| k in remaining;
      var entry := entries[k];
      SumSplits(rest, scope, k);
      ShareOf(entry, scope);
      rest := rest - {k};
      Shift(total, Share(entry, scope), Sum(rest, scope));
      if InScope(entry, scope) {
        match CheckedAdd(total, entry.charge)
        case None => return None;
        case Some(sum) => total := sum;
      } else {
        PlusNothing(total);
      }
      remaining := remaining - {k};
    }
    SumOfNone(rest, scope);
    PlusNothing(total);
    usage := Some(total);
  }

  function StoredTime(stored: Stored): int {
    if stored.reconciliation.Some? && stored.reconciliation.value.reconciledAtMs > stored.record.reservedAtMs
    then stored.reconciliation.value.reconciledAtMs
    else stored.record.reservedAtMs
  }

  lemma ShareOf(e: Entry, scope: Scope)
    ensures Share(e, scope) == if InScope(e, scope) then e.charge else NOTHING
  {
    hide InScope;
  }

  lemma Shift(total: Amounts, share: Amounts, rest: Amounts)
    ensures Plus(total, Plus(share, rest)) == Plus(Plus(total, share), rest)
    ensures Representable(Plus(total, Plus(share, rest))) ==> Representable(Plus(total, share))
  {
  }

  lemma PositiveTime(request: Request, nowMs: int)
    ensures RequestRecord(request, nowMs).Some? ==>
              && 0 < nowMs
              && RequestRecord(request, nowMs).value.caseId == request.caseId
              && RequestRecord(request, nowMs).value.providerFamily == request.providerFamily
  {
    hide LimitsFor;
    hide StableId;
    hide ValidReservation;
    hide CivilFromDays;
  }
}

/**
 * What the ledger's operations do to its directory and to its in-memory maps, as functions of values.
 * The class in module Ledger is proved to behave as these functions say.
 */
module LedgerSpec {
  import opened Prelude
  import opened Budget
  import opened LedgerRecords
  import opened Accounting

  // ---- The directory ----

  datatype FileName =
    | ReservationFile(id: ReservationId)
    | ReconciliationFile(id: ReservationId)
    | LegacyFile(importId: ImportId)
    | OtherFile(name: string)

  datatype FileRecord =
    | ReservationRecord(reservation: Reservation)
    | ReconciliationRecord(reconciliation: Reconciliation)
    | LegacyRecord(legacy: LegacyImport)

  /** A file holds the canonical bytes of one record, or bytes that are not the canonical form of any. */
  datatype Content = Canonical(record: FileRecord) | Unreadable

  type Directory = map<FileName, Content>

  /**
   * How an attempt to create a record is answered. Refusing to create covers the state quota and the byte bound of
   * a record too: all of them leave the directory as it was.
   */
  datatype Disk = Persists | RefusesToCreate | TearsWrite | FailsToSync

  datatype AppendOutcome = Created | ExistingIdentical

  datatype LedgerError =
    | InvalidRequest
    | Refused(refusal: Refusal)
    | Rebound
    | NotPersisted
    | ReservationAbsent
    | InvalidReconciliation
    | AlreadyReconciled
    | InvalidImport

  /** The directory and the outcome after an attempt to append a record under a new name. */
  function Append(dir: Directory, name: FileName, record: FileRecord, disk: Disk)
    : (Directory, Result<AppendOutcome, LedgerError>)
  {
    if name in dir then
      (dir, if dir[name] == Canonical(record) then Ok(ExistingIdentical) else Err(NotPersisted))
    else
      match disk
      case Persists => (dir[name := Canonical(record)], Ok(Created))
      case RefusesToCreate => (dir, Err(NotPersisted))
      case TearsWrite => (dir[name := Unreadable], Err(NotPersisted))
      case FailsToSync => (dir[name := Canonical(record)], Err(NotPersisted))
  }

  // ---- The ledger ----

  datatype LedgerState = LedgerState(
    directory: Directory,
    reservations: map<ReservationId, Stored>,
    imports: map<ImportId, LegacyImport>)

  const EMPTY := LedgerState(map[], map[], map[])

  function ReservationEntries(s: LedgerState): map<ReservationId, Entry> {
    map id | id in s.reservations :: EntryOf(s.reservations[id])
  }

  function ImportEntries(s: LedgerState): map<ImportId, Entry> {
    map id | id in s.imports :: EntryOfImport(s.imports[id])
  }

  /** The usage that a scope selects. */
  ghost function Total(s: LedgerState, scope: Scope): Amounts {
    Plus(Sum(ReservationEntries(s), scope), Sum(ImportEntries(s), scope))
  }

  /** Some recorded time lies after `nowMs`. */
  predicate ClockRolledBack(s: LedgerState, nowMs: int) {
    || (exists id :: id in s.reservations && s.reservations[id].record.reservedAtMs > nowMs)
    || (exists id :: id in s.reservations && s.reservations[id].reconciliation.Some?
                     && s.reservations[id].reconciliation.value.reconciledAtMs > nowMs)
    || (exists id :: id in s.imports && s.imports[id].observedAtMs > nowMs)
  }

  /** One budget to respect: the usage in `scope` plus the reservation must stay within `cap`. */
  datatype Check = Check(scope: Scope, cap: Amounts, refusal: Refusal)

  function ChecksFor(limits: Limits, proposed: Reservation): seq<Check> {
    var day := proposed.utcDayId;
    [ Check(OnDay(day), limits.utcDay, UtcDayExhausted),
      Check(Rolling(proposed.reservedAtMs), limits.rolling24h, Rolling24hExhausted),
      Check(CaseOnDay(proposed.caseId, day), limits.perCase, PerCaseExhausted),
      Check(ProviderOnDay(proposed.providerFamily, day), limits.perProvider, PerProviderExhausted) ]
    + (match limits.perTrigger
       case Some(cap) => [Check(TriggerOnDay(proposed.trigger, day), cap, PerTriggerExhausted)]
       case None => [])
    + [Check(ClassOnDay(proposed.accountingClass, day), limits.classPool, limits.classRefusal)]
  }

  /** The first budget, in the given order, that a reservation would exceed. */
  ghost function FirstFailure(s: LedgerState, checks: seq<Check>, reserve: Amounts): Option<LedgerError> {
    if checks == [] then None
    else
      var total := Plus(Total(s, checks[0].scope), reserve);
      if !Representable(total) then Some(InvalidRequest)
      else if !AtMost(total, checks[0].cap) then Some(Refused(checks[0].refusal))
      else FirstFailure(s, checks[1..], reserve)
  }

  /** Why a request may not be admitted at a time, if it may not. */
  ghost function Headroom(s: LedgerState, request: Request, nowMs: int): Option<LedgerError> {
    match RequestRecord(request, nowMs)
    case None => Some(InvalidRequest)
    case Some(proposed) =>
      if proposed.reservationId in s.reservations then
        if ExistingMatchesRequest(s.reservations[proposed.reservationId].record, request) then None
        else Some(InvalidRequest)
      else if ClockRolledBack(s, nowMs) then Some(Refused(ClockRollback))
      else FirstFailure(s, ChecksFor(LimitsFor(request).value, proposed), FromCaps(proposed.caps))
  }

  ghost function Prepared(s: LedgerState, request: Request, atMs: int): Result<Reservation, LedgerError> {
    match Headroom(s, request, atMs)
    case Some(error) => Err(error)
    case None =>
      var proposed := RequestRecord(request, atMs).value;
      if proposed.reservationId in s.reservations then Ok(s.reservations[proposed.reservationId].record)
      else Ok(proposed)
  }

  ghost function Committed(s: LedgerState, record: Reservation, disk: Disk)
    : (LedgerState, Result<(AppendOutcome, Reservation), LedgerError>)
  {
    if !ValidReservation(record) then (s, Err(InvalidRequest))
    else if record.reservationId in s.reservations then
      if s.reservations[record.reservationId].record == record then (s, Ok((ExistingIdentical, record)))
      else (s, Err(Rebound))
    else if exists id :: id in s.reservations && s.reservations[id].record.attemptKey == record.attemptKey then
      (s, Err(Rebound))
    else
      var (dir, outcome) := Append(s.directory, ReservationFile(record.reservationId), ReservationRecord(record), disk);
      match outcome
      case Err(error) => (s.(directory := dir), Err(error))
      case Ok(how) =>
        (s.(directory := dir,
            reservations := s.reservations[record.reservationId := Stored(record, None)]),
         Ok((how, record)))
  }

  ghost function Reserved(s: LedgerState, request: Request, atMs: int, disk: Disk)
    : (LedgerState, Result<(AppendOutcome, Reservation), LedgerError>)
  {
    match Prepared(s, request, atMs)
    case Err(error) => (s, Err(error))
    case Ok(record) => Committed(s, record, disk)
  }

  function Reconciled(s: LedgerState, id: ReservationId, decision: Decision, disk: Disk)
    : (LedgerState, Result<(AppendOutcome, Reconciliation), LedgerError>)
  {
    if id !in s.reservations then (s, Err(ReservationAbsent))
    else
      var stored := s.reservations[id];
      var value := ReconciliationOf(stored.record, decision);
      if !ValidReconciliation(stored.record, value) then (s, Err(InvalidReconciliation))
      else if stored.reconciliation.Some? then
        (s, if stored.reconciliation.value == value then Ok((ExistingIdentical, value)) else Err(AlreadyReconciled))
      else
        var (dir, outcome) := Append(s.directory, ReconciliationFile(value.reservationId), ReconciliationRecord(value),
                                     disk);
        match outcome
        case Err(error) => (s.(directory := dir), Err(error))
        case Ok(how) =>
          (s.(directory := dir,
              reservations := s.reservations[id := Stored(stored.record, Some(value))]),
           Ok((how, value)))
  }

  function Imported(s: LedgerState, value: LegacyImport, disk: Disk)
    : (LedgerState, Result<AppendOutcome, LedgerError>)
  {
    if !ValidLegacyImport(value) then (s, Err(InvalidImport))
    else if value.importId in s.imports then
      (s, if s.imports[value.importId] == value then Ok(ExistingIdentical) else Err(Rebound))
    else
      var (dir, outcome) := Append(s.directory, LegacyFile(value.importId), LegacyRecord(value), disk);
      match outcome
      case Err(error) => (s.(directory := dir), Err(error))
      case Ok(how) => (s.(directory := dir, imports := s.imports[value.importId := value]), Ok(how))
  }

  /** Only a proved pre-effect release lets a regenerated successor of an attempt be admitted. */
  predicate MayAdmitSuccessor(s: LedgerState, id: ReservationId) {
    && id in s.reservations
    && s.reservations[id].reconciliation.Some?
    && s.reservations[id].reconciliation.value.disposition.ReleasedPreEffect?
  }

  // ---- Runs ----

  datatype Event =
    | Reserve(request: Request, atMs: int, disk: Disk)
    | Reconcile(id: ReservationId, decision: Decision, disk: Disk)
    | Import(legacy: LegacyImport, disk: Disk)

  ghost function Step(s: LedgerState, e: Event): LedgerState {
    match e
    case Reserve(request, atMs, disk) => Reserved(s, request, atMs, disk).0
    case Reconcile(id, decision, disk) => Reconciled(s, id, decision, disk).0
    case Import(legacy, disk) => Imported(s, legacy, disk).0
  }

  /** The state after a run, whatever each of its events returned. */
  ghost function After(s: LedgerState, events: seq<Event>): LedgerState {
    if events == [] then s else Step(After(s, events[..|events| - 1]), events[|events| - 1])
  }
}

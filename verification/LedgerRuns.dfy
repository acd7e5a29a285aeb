/** Safety of every run of the ledger's operations. */
module LedgerRuns {
  import opened Prelude
  import opened Budget
  import opened Calendar
  import opened LedgerRecords
  import opened Accounting
  import opened LedgerSpec

  // ---- What every step keeps ----

  predicate SoundReservation(id: ReservationId, stored: Stored) {
    && ValidReservation(stored.record)
    && stored.record.reservationId == id
    && (stored.reconciliation.Some? ==> ValidReconciliation(stored.record, stored.reconciliation.value))
  }

  predicate SoundImport(id: ImportId, legacy: LegacyImport) {
    ValidLegacyImport(legacy) && legacy.importId == id
  }

  ghost predicate WellFormed(s: LedgerState) {
    && (forall id :: id in s.reservations ==> SoundReservation(id, s.reservations[id]))
    && (forall id :: id in s.imports ==> SoundImport(id, s.imports[id]))
  }

  /** The record is the same, and so is its reconciliation once there is one. */
  predicate Keeps(earlier: Stored, later: Stored) {
    && later.record == earlier.record
    && (earlier.reconciliation.Some? ==> later == earlier)
  }

  /** The directory only grows. */
  ghost predicate Grows(dir: Directory, dir': Directory) {
    forall name :: name in dir ==> name in dir' && dir'[name] == dir[name]
  }

  /** `later` still holds every record of `earlier`, unchanged. */
  ghost predicate Extends(earlier: LedgerState, later: LedgerState) {
    && (forall id :: id in earlier.reservations ==>
          id in later.reservations && Keeps(earlier.reservations[id], later.reservations[id]))
    && (forall id :: id in earlier.imports ==> id in later.imports && later.imports[id] == earlier.imports[id])
    && Grows(earlier.directory, later.directory)
  }

  ghost predicate Admits(s: LedgerState, request: Request, atMs: int, s': LedgerState) {
    var proposed := RequestRecord(request, atMs);
    && proposed.Some?
    && proposed.value.reservationId !in s.reservations
    && !ClockRolledBack(s, atMs)
    && FirstFailure(s, ChecksFor(LimitsFor(request).value, proposed.value), FromCaps(proposed.value.caps)).None?
    && s'.reservations == s.reservations[proposed.value.reservationId := Stored(proposed.value, None)]
  }

  lemma ProposalIsValid(request: Request, atMs: int)
    ensures var proposed := RequestRecord(request, atMs);
            proposed.Some? ==>
              && ValidReservation(proposed.value)
              && LimitsFor(request).Some?
              && proposed.value.reservedAtMs == atMs
              && ExistingMatchesRequest(proposed.value, request)
  {
    hide UtcDayId;
    hide LimitsFor;
    hide StableId;
  }

  lemma AppendGrows(dir: Directory, name: FileName, record: FileRecord, disk: Disk)
    ensures Grows(dir, Append(dir, name, record, disk).0)
  {
  }

  /** A reservation event changes nothing in memory, or adds the proposed record after every check passed. */
  lemma ReservationCases(s: LedgerState, request: Request, atMs: int, disk: Disk)
    ensures var s' := Reserved(s, request, atMs, disk).0;
            && s'.imports == s.imports
            && Grows(s.directory, s'.directory)
            && (s'.reservations == s.reservations || Admits(s, request, atMs, s'))
  {
    hide ValidReservation;
    hide RequestRecord;
    hide ExistingMatchesRequest;
    hide LimitsFor;
    hide ClockRolledBack;
    hide ChecksFor;
    hide FirstFailure;
    hide FromCaps;
    hide Append;
    var prepared := Prepared(s, request, atMs);
    if prepared.Ok? {
      var record := prepared.value;
      AppendGrows(s.directory, ReservationFile(record.reservationId), ReservationRecord(record), disk);
    }
  }

  /** A reconciliation binds one open reservation for good. */
  ghost predicate Settles(s: LedgerState, id: ReservationId, decision: Decision, s': LedgerState) {
    && id in s.reservations
    && s.reservations[id].reconciliation.None?
    && var value := ReconciliationOf(s.reservations[id].record, decision);
       && ValidReconciliation(s.reservations[id].record, value)
       && s'.reservations == s.reservations[id := Stored(s.reservations[id].record, Some(value))]
  }

  lemma ReconciliationCases(s: LedgerState, id: ReservationId, decision: Decision, disk: Disk)
    ensures var s' := Reconciled(s, id, decision, disk).0;
            && s'.imports == s.imports
            && Grows(s.directory, s'.directory)
            && (s'.reservations == s.reservations || Settles(s, id, decision, s'))
  {
    hide ValidReconciliation;
    hide ReconciliationOf;
    hide Append;
    if id in s.reservations {
      var value := ReconciliationOf(s.reservations[id].record, decision);
      AppendGrows(s.directory, ReconciliationFile(value.reservationId), ReconciliationRecord(value), disk);
    }
  }

  lemma ImportCases(s: LedgerState, legacy: LegacyImport, disk: Disk)
    ensures var s' := Imported(s, legacy, disk).0;
            && s'.reservations == s.reservations
            && Grows(s.directory, s'.directory)
            && (|| s'.imports == s.imports
                || (&& ValidLegacyImport(legacy) && legacy.importId !in s.imports
                    && s'.imports == s.imports[legacy.importId := legacy]))
  {
    hide ValidLegacyImport;
    hide Append;
    AppendGrows(s.directory, LegacyFile(legacy.importId), LegacyRecord(legacy), disk);
  }

  lemma AdmissionIsSound(s: LedgerState, request: Request, atMs: int, s': LedgerState)
    requires WellFormed(s) && Admits(s, request, atMs, s') && s'.imports == s.imports
    requires Grows(s.directory, s'.directory)
    ensures WellFormed(s') && Extends(s, s')
  {
    ProposalIsValid(request, atMs);
    hide ValidReservation;
    hide SoundImport;
    hide ValidReconciliation;
    hide RequestRecord;
    hide FirstFailure;
    hide ClockRolledBack;
  }

  lemma SettlementIsSound(s: LedgerState, id: ReservationId, decision: Decision, s': LedgerState)
    requires WellFormed(s) && Settles(s, id, decision, s') && s'.imports == s.imports
    requires Grows(s.directory, s'.directory)
    ensures WellFormed(s') && Extends(s, s')
  {
    hide ValidReservation;
    hide SoundImport;
    hide ValidReconciliation;
    hide ReconciliationOf;
  }

  /** Every step keeps the maps well formed and every earlier record in place. */
  lemma StepIsSound(s: LedgerState, e: Event)
    requires WellFormed(s)
    ensures WellFormed(Step(s, e)) && Extends(s, Step(s, e))
  {
    hide SoundReservation;
    hide ValidLegacyImport;
    hide Reserved;
    hide Reconciled;
    hide Imported;
    hide Admits;
    hide Settles;
    match e
    case Reserve(request, atMs, disk) =>
      ReservationCases(s, request, atMs, disk);
      if Step(s, e).reservations != s.reservations {
        AdmissionIsSound(s, request, atMs, Step(s, e));
      }
    case Reconcile(id, decision, disk) =>
      ReconciliationCases(s, id, decision, disk);
      if Step(s, e).reservations != s.reservations {
        SettlementIsSound(s, id, decision, Step(s, e));
      }
    case Import(legacy, disk) => ImportCases(s, legacy, disk);
  }

  /** After any run from a well-formed ledger, including the empty one. */
  lemma {:induction false} RunIsSound(s: LedgerState, events: seq<Event>)
    requires WellFormed(s)
    ensures WellFormed(After(s, events)) && Extends(s, After(s, events))
  {
    hide WellFormed;
    hide Step;
    if events == [] {
      ExtendsItself(s);
    } else {
      var before := events[..|events| - 1];
      RunIsSound(s, before);
      StepIsSound(After(s, before), events[|events| - 1]);
      ExtendsChains(s, After(s, before), After(s, events));
    }
  }

  lemma ExtendsItself(s: LedgerState)
    ensures Extends(s, s)
  {
  }

  lemma ExtendsChains(a: LedgerState, b: LedgerState, c: LedgerState)
    requires Extends(a, b) && Extends(b, c)
    ensures Extends(a, c)
  {
  }

  lemma {:induction false} AfterSplits(s: LedgerState, first: seq<Event>, second: seq<Event>)
    ensures After(s, first + second) == After(After(s, first), second)
  {
    hide Step;
    if second == [] {
      assert first + second == first;
    } else {
      var last := |second| - 1;
      AfterSplits(s, first, second[..last]);
      assert (first + second)[..|first + second| - 1] == first + second[..last];
    }
  }

  // ---- Budgets over runs ----

  /** The requests of a run draw on one policy, through standing grants or manual acknowledgements. */
  ghost predicate SharesPolicy(request: Request, p: Policy) {
    match request.budgetAuthority
    case CharacterizationBudget(_, _, _, _) => false
    case StandingBudget(_, budgets) => budgets == p
    case ManualBudget(_, _, budgets) => budgets == p
  }

  ghost predicate SharedRun(events: seq<Event>, p: Policy) {
    forall i :: 0 <= i < |events| ==>
      match events[i]
      case Reserve(request, _, _) => SharesPolicy(request, p)
      case Reconcile(_, _, _) => true
      case Import(_, _) => false
  }

  function OrNothing(cap: Option<Amounts>): Amounts {
    match cap
    case Some(amounts) => amounts
    case None => NOTHING
  }

  /**
   * What the policy promises for a scope. A case, provider, trigger or class the policy does not name
   * gets nothing at all; manual requests have no trigger cap; any interval of at most 24 hours of
   * admission times gets the rolling cap.
   */
  function Promise(p: Policy, scope: Scope): Option<Amounts> {
    match scope
    case OnDay(_) => Some(p.utcDay)
    case Rolling(_) => None
    case CaseOnDay(caseId, _) => Some(OrNothing(FindNamed(p.perCase, caseId)))
    case ProviderOnDay(provider, _) => Some(OrNothing(FindNamed(p.perProvider, provider)))
    case TriggerOnDay(trigger, _) =>
      if trigger == ManualCompatibility then None else Some(OrNothing(FindTrigger(p.perTriggerPool, trigger)))
    case ClassOnDay(c, _) => Some(OrNothing(PoolOf(p, c)))
    case AdmittedWithin(afterMs, untilMs) => if untilMs - afterMs <= DAY_MILLIS then Some(p.rolling24h) else None
    case ClassWithin(_, _, _) => None
  }

  ghost predicate WithinPolicy(s: LedgerState, p: Policy) {
    && s.imports == map[]
    && forall scope :: Promise(p, scope).Some? ==> AtMost(Total(s, scope), Promise(p, scope).value)
  }

  /** Passing the checks bounds the usage of every scope that a checked scope covers. */
  lemma {:induction false} ChecksBound(s: LedgerState, checks: seq<Check>, reserve: Amounts, check: Check)
    requires FirstFailure(s, checks, reserve).None? && check in checks
    ensures AtMost(Plus(Total(s, check.scope), reserve), check.cap)
  {
    hide Total;
    if checks[0] != check {
      ChecksBound(s, checks[1..], reserve, check);
    }
  }

  /** The budget that admission checked for a scope the admitted record falls in. */
  lemma CoveringCheck(p: Policy, request: Request, atMs: int, scope: Scope) returns (check: Check)
    requires RequestRecord(request, atMs).Some? && SharesPolicy(request, p) && Promise(p, scope).Some?
    requires InScope(EntryOf(Stored(RequestRecord(request, atMs).value, None)), scope)
    ensures check in ChecksFor(LimitsFor(request).value, RequestRecord(request, atMs).value)
    ensures check.cap == Promise(p, scope).value
    ensures forall e: Entry {:trigger InScope(e, scope)} ::
              e.rollingExpiresAtMs == SaturatingAddDay(e.admittedAtMs) && InScope(e, scope) ==> InScope(e, check.scope)
  {
    DayIdNamesTheDay(atMs);
    hide UtcDayId;
    hide StableId;
    hide ValidPolicy;
    hide FindNamed;
    hide FindTrigger;
    var limits, proposed := LimitsFor(request).value, RequestRecord(request, atMs).value;
    var checks := ChecksFor(limits, proposed);
    match scope
    case OnDay(_) => check := checks[0];
    case CaseOnDay(_, _) => check := checks[2];
    case ProviderOnDay(_, _) => check := checks[3];
    case TriggerOnDay(_, _) => check := checks[4];
    case ClassOnDay(_, _) => check := checks[|checks| - 1];
    case AdmittedWithin(_, _) => check := checks[1];
  }

  lemma SharesAreMonotone(less: LedgerState, a: Scope, more: LedgerState, b: Scope)
    requires less.reservations.Keys <= more.reservations.Keys && less.imports == more.imports
    requires a == b || less.imports == map[]
    requires forall id :: id in less.reservations ==>
               AtMost(Share(EntryOf(less.reservations[id]), a), Share(EntryOf(more.reservations[id]), b))
    ensures AtMost(Total(less, a), Total(more, b))
  {
    hide Share;
    hide Sum;
    hide EntryOf;
    ImportsShare(less, a, more, b);
    hide ImportEntries;
    SumIsMonotone(ReservationEntries(less), a, ReservationEntries(more), b);
  }

  lemma ImportsShare(less: LedgerState, a: Scope, more: LedgerState, b: Scope)
    requires less.imports == more.imports && (a == b || less.imports == map[])
    ensures Sum(ImportEntries(less), a) == Sum(ImportEntries(more), b)
  {
    hide Sum;
    hide EntryOfImport;
    assert ImportEntries(less) == ImportEntries(more);
    if less.imports == map[] {
      SumOfNone(ImportEntries(less), a);
      SumOfNone(ImportEntries(less), b);
    }
  }

  lemma TotalOfAdmission(s: LedgerState, id: ReservationId, stored: Stored, s': LedgerState, scope: Scope)
    requires id !in s.reservations && s'.imports == s.imports
    requires s'.reservations == s.reservations[id := stored]
    ensures Total(s', scope) == Plus(Share(EntryOf(stored), scope), Total(s, scope))
  {
    hide Share;
    hide Sum;
    hide EntryOf;
    SumOfUpdate(ReservationEntries(s), scope, id, EntryOf(stored));
    assert ReservationEntries(s') == ReservationEntries(s)[id := EntryOf(stored)];
    assert ReservationEntries(s) - {id} == ReservationEntries(s);
    assert ImportEntries(s') == ImportEntries(s);
  }

  /** Every record of `less` is in `more`, and charged at least as much there. */
  ghost predicate Below(less: LedgerState, more: LedgerState) {
    && less.imports == more.imports == map[]
    && forall id :: id in less.reservations ==>
         && id in more.reservations
         && less.reservations[id].record == more.reservations[id].record
         && AtMost(Charge(less.reservations[id]), Charge(more.reservations[id]))
  }

  lemma SameEntryScope(a: Stored, b: Stored, scope: Scope)
    requires a.record == b.record
    ensures InScope(EntryOf(a), scope) == InScope(EntryOf(b), scope)
  {
    hide UtcDayId;
  }

  lemma BelowShares(less: Stored, a: Scope, more: Stored, b: Scope)
    requires less.record == more.record && AtMost(Charge(less), Charge(more))
    requires InScope(EntryOf(less), a) ==> InScope(EntryOf(less), b)
    ensures AtMost(Share(EntryOf(less), a), Share(EntryOf(more), b))
  {
    SameEntryScope(less, more, b);
    hide InScope;
    hide FromCaps;
    hide FromCharge;
  }

  lemma BelowTotals(less: LedgerState, more: LedgerState, a: Scope, b: Scope)
    requires Below(less, more)
    requires forall e: Entry {:trigger InScope(e, a)} ::
               e.rollingExpiresAtMs == SaturatingAddDay(e.admittedAtMs) && InScope(e, a) ==> InScope(e, b)
    ensures AtMost(Total(less, a), Total(more, b))
  {
    hide Total;
    hide InScope;
    hide Share;
    hide Charge;
    forall id | id in less.reservations
      ensures AtMost(Share(EntryOf(less.reservations[id]), a), Share(EntryOf(more.reservations[id]), b))
    {
      BelowShares(less.reservations[id], a, more.reservations[id], b);
    }
    SharesAreMonotone(less, a, more, b);
  }

  /** A record whose checks passed against `more` fits on top of anything below `more`. */
  lemma AdmissionOnTop(less: LedgerState, more: LedgerState, p: Policy, request: Request, atMs: int, less': LedgerState,
                       scope: Scope)
    requires Below(less, more) && SharesPolicy(request, p) && RequestRecord(request, atMs).Some?
    requires LimitsFor(request).Some?
    requires Promise(p, scope).Some? && AtMost(Total(less, scope), Promise(p, scope).value)
    requires var proposed := RequestRecord(request, atMs).value;
             && FirstFailure(more, ChecksFor(LimitsFor(request).value, proposed), FromCaps(proposed.caps)).None?
             && proposed.reservationId !in less.reservations && less'.imports == less.imports
             && less'.reservations == less.reservations[proposed.reservationId := Stored(proposed, None)]
    ensures AtMost(Total(less', scope), Promise(p, scope).value)
  {
    hide RequestRecord;
    hide LimitsFor;
    hide ChecksFor;
    hide FirstFailure;
    hide Total;
    hide InScope;
    hide Promise;
    hide SharesPolicy;
    hide Below;
    var proposed := RequestRecord(request, atMs).value;
    var stored := Stored(proposed, None);
    TotalOfAdmission(less, proposed.reservationId, stored, less', scope);
    if InScope(EntryOf(stored), scope) {
      var check := CoveringCheck(p, request, atMs, scope);
      ChecksBound(more, ChecksFor(LimitsFor(request).value, proposed), FromCaps(proposed.caps), check);
      BelowTotals(less, more, scope, check.scope);
    } else {
      PlusNothing(Total(less, scope));
    }
  }

  lemma AdmissionStaysWithin(s: LedgerState, p: Policy, request: Request, atMs: int, s': LedgerState, scope: Scope)
    requires s.imports == map[] && SharesPolicy(request, p)
    requires Promise(p, scope).Some? && AtMost(Total(s, scope), Promise(p, scope).value)
    requires Admits(s, request, atMs, s') && s'.imports == s.imports
    ensures AtMost(Total(s', scope), Promise(p, scope).value)
  {
    ProposalIsValid(request, atMs);
    hide RequestRecord;
    hide LimitsFor;
    hide ChecksFor;
    hide FirstFailure;
    hide ClockRolledBack;
    hide Total;
    hide Promise;
    hide SharesPolicy;
    AdmissionOnTop(s, s, p, request, atMs, s', scope);
  }

  lemma SettlementLowers(s: LedgerState, id: ReservationId, decision: Decision, s': LedgerState, scope: Scope)
    requires WellFormed(s) && s.imports == map[]
    requires Settles(s, id, decision, s') && s'.imports == s.imports
    ensures AtMost(Total(s', scope), Total(s, scope))
  {
    hide Total;
    hide InScope;
    hide ValidReservation;
    hide ValidReconciliation;
    hide ReconciliationOf;
    hide FromCharge;
    hide FromCaps;
    var open, settled := s.reservations[id], s'.reservations[id];
    ReconciliationNeverRaises(open.record, settled.reconciliation.value);
    assert AtMost(Charge(settled), Charge(open));
    assert InScope(EntryOf(settled), scope) == InScope(EntryOf(open), scope) by {
      SameEntryScope(open, settled, scope);
    }
    SharesAreMonotone(s', scope, s, scope);
  }

  lemma StepStaysWithin(s: LedgerState, p: Policy, e: Event)
    requires WellFormed(s) && WithinPolicy(s, p) && SharedRun([e], p)
    ensures WithinPolicy(Step(s, e), p)
  {
    hide WellFormed;
    hide Reserved;
    hide Reconciled;
    hide Imported;
    hide Admits;
    hide Settles;
    hide Promise;
    hide Total;
    assert [e][0] == e;
    var s' := Step(s, e);
    match e
    case Reserve(request, atMs, disk) =>
      ReservationCases(s, request, atMs, disk);
      forall scope | Promise(p, scope).Some? ensures AtMost(Total(s', scope), Promise(p, scope).value) {
        if Admits(s, request, atMs, s') {
          AdmissionStaysWithin(s, p, request, atMs, s', scope);
        } else {
          SameMapsSameTotal(s, s', scope);
        }
      }
    case Reconcile(id, decision, disk) =>
      ReconciliationCases(s, id, decision, disk);
      forall scope | Promise(p, scope).Some? ensures AtMost(Total(s', scope), Promise(p, scope).value) {
        if Settles(s, id, decision, s') {
          SettlementLowers(s, id, decision, s', scope);
        } else {
          SameMapsSameTotal(s, s', scope);
        }
      }
  }

  lemma SameMapsSameTotal(s: LedgerState, s': LedgerState, scope: Scope)
    requires s'.reservations == s.reservations && s'.imports == s.imports
    ensures Total(s', scope) == Total(s, scope)
  {
    assert ReservationEntries(s') == ReservationEntries(s);
    assert ImportEntries(s') == ImportEntries(s);
  }

  lemma TotalOfEmpty(scope: Scope)
    ensures Total(EMPTY, scope) == NOTHING
  {
    hide Share;
    SumOfNone(ReservationEntries(EMPTY), scope);
    SumOfNone(ImportEntries(EMPTY), scope);
  }

  lemma EmptyIsWithin(p: Policy)
    ensures WellFormed(EMPTY) && WithinPolicy(EMPTY, p)
  {
    hide Promise;
    hide Total;
    hide SoundReservation;
    hide SoundImport;
    forall scope | Promise(p, scope).Some? ensures AtMost(Total(EMPTY, scope), Promise(p, scope).value) {
      TotalOfEmpty(scope);
    }
  }

  /**
   * In every run of reservations and reconciliations that share one policy, whatever the disk does and
   * whichever requests are refused: for every UTC day the day's total, each case's, each provider's, each
   * standing trigger's and each class's stay within their caps, and the charges admitted in any 24 hours,
   * ending at any instant, stay within the rolling cap, in all four dimensions.
   */
  lemma {:induction false} RunStaysWithinPolicy(events: seq<Event>, p: Policy)
    requires SharedRun(events, p)
    ensures WithinPolicy(After(EMPTY, events), p)
  {
    hide WithinPolicy;
    hide WellFormed;
    hide Step;
    EmptyIsWithin(p);
    if events != [] {
      var before, last := events[..|events| - 1], events[|events| - 1];
      RunStaysWithinPolicy(before, p);
      RunIsSound(EMPTY, before);
      StepStaysWithin(After(EMPTY, before), p, last);
    }
  }

  lemma PromiseHolds(s: LedgerState, p: Policy, scope: Scope)
    requires WithinPolicy(s, p) && Promise(p, scope).Some?
    ensures AtMost(Total(s, scope), Promise(p, scope).value)
  {
    hide Total;
    hide Promise;
  }

  /** The sliding window on its own: the interval (t - 24h, t] for every instant t. */
  lemma SlidingWindowIsSafe(events: seq<Event>, p: Policy, t: int)
    requires SharedRun(events, p)
    ensures AtMost(Total(After(EMPTY, events), AdmittedWithin(t - DAY_MILLIS, t)), p.rolling24h)
  {
    hide After;
    hide WithinPolicy;
    hide Total;
    RunStaysWithinPolicy(events, p);
    PromiseHolds(After(EMPTY, events), p, AdmittedWithin(t - DAY_MILLIS, t));
  }

  // ---- The protected pools ----

  /** Runs that may also hold one-shot characterizations, each admitted under its own caps. */
  ghost predicate MixedRun(events: seq<Event>, p: Policy) {
    forall i :: 0 <= i < |events| ==>
      match events[i]
      case Reserve(request, _, _) => SharesPolicy(request, p) || request.budgetAuthority.CharacterizationBudget?
      case Reconcile(_, _, _) => true
      case Import(_, _) => false
  }

  ghost predicate PoolsWithin(s: LedgerState, p: Policy) {
    && s.imports == map[]
    && forall c, day :: PoolOf(p, c).Some? ==> AtMost(Total(s, ClassOnDay(c, day)), PoolOf(p, c).value)
  }

  lemma CharacterizationClassOnly(request: Request, atMs: int)
    requires RequestRecord(request, atMs).Some? && request.budgetAuthority.CharacterizationBudget?
    ensures RequestRecord(request, atMs).value.accountingClass == CharacterizationClass
  {
    hide UtcDayId;
    hide StableId;
    hide ValidReservation;
  }

  lemma PoolStep(s: LedgerState, p: Policy, e: Event, c: AccountingClass, day: string)
    requires WellFormed(s) && PoolsWithin(s, p) && MixedRun([e], p) && PoolOf(p, c).Some?
    ensures Step(s, e).imports == map[]
    ensures AtMost(Total(Step(s, e), ClassOnDay(c, day)), PoolOf(p, c).value)
  {
    hide WellFormed;
    hide Reserved;
    hide Reconciled;
    hide Imported;
    hide Settles;
    hide RequestRecord;
    hide LimitsFor;
    hide FirstFailure;
    hide ClockRolledBack;
    hide AdmittedOn;
    hide Total;
    assert [e][0] == e;
    var s', scope := Step(s, e), ClassOnDay(c, day);
    match e
    case Reserve(request, atMs, disk) =>
      ReservationCases(s, request, atMs, disk);
      if s'.reservations == s.reservations {
        SameMapsSameTotal(s, s', scope);
      } else if SharesPolicy(request, p) {
        AdmissionStaysWithin(s, p, request, atMs, s', scope);
      } else {
        var proposed := RequestRecord(request, atMs).value;
        CharacterizationClassOnly(request, atMs);
        TotalOfAdmission(s, proposed.reservationId, Stored(proposed, None), s', scope);
        PlusNothing(Total(s, scope));
      }
    case Reconcile(id, decision, disk) =>
      ReconciliationCases(s, id, decision, disk);
      if s'.reservations == s.reservations {
        SameMapsSameTotal(s, s', scope);
      } else {
        SettlementLowers(s, id, decision, s', scope);
      }
  }

  /** No history of reservations takes a class beyond its pool on any day. */
  lemma {:induction false} PoolsStayWithin(events: seq<Event>, p: Policy)
    requires MixedRun(events, p)
    ensures PoolsWithin(After(EMPTY, events), p)
  {
    hide WellFormed;
    hide Step;
    hide Total;
    if events == [] {
      forall c, day ensures Total(EMPTY, ClassOnDay(c, day)) == NOTHING {
        TotalOfEmpty(ClassOnDay(c, day));
      }
    } else {
      var before, last := events[..|events| - 1], events[|events| - 1];
      var s := After(EMPTY, before);
      PoolsStayWithin(before, p);
      EmptyIsWithin(p);
      RunIsSound(EMPTY, before);
      assert MixedRun([last], p);
      PoolStep(s, p, last, ManualClass, "");
      forall c, day | PoolOf(p, c).Some?
        ensures AtMost(Total(Step(s, last), ClassOnDay(c, day)), PoolOf(p, c).value)
      {
        PoolStep(s, p, last, c, day);
      }
    }
  }

  lemma {:induction false} RefusalHasACheck(s: LedgerState, checks: seq<Check>, reserve: Amounts) returns (i: nat)
    requires FirstFailure(s, checks, reserve).Some? && FirstFailure(s, checks, reserve).value.Refused?
    ensures i < |checks| && FirstFailure(s, checks, reserve) == Some(Refused(checks[i].refusal))
    ensures !AtMost(Plus(Total(s, checks[i].scope), reserve), checks[i].cap)
  {
    hide Total;
    if !AtMost(Plus(Total(s, checks[0].scope), reserve), checks[0].cap) {
      i := 0;
    } else {
      i := RefusalHasACheck(s, checks[1..], reserve);
      i := i + 1;
    }
  }

  /** The classes of a day add up to the day, imports included. */
  lemma ClassTotalsAddUp(s: LedgerState, day: string)
    ensures Total(s, OnDay(day))
         == FourClasses(Total(s, ClassOnDay(CharacterizationClass, day)), Total(s, ClassOnDay(ScheduledClass, day)),
                        Total(s, ClassOnDay(TestMergeClass, day)), Total(s, ClassOnDay(ManualClass, day)))
  {
    hide Sum;
    hide Plus;
    hide FourClasses;
    var r, m := ReservationEntries(s), ImportEntries(s);
    ClassesPartitionDay(r, day);
    ClassesPartitionDay(m, day);
    var s0, s1, s2, s3 := ClassOnDay(CharacterizationClass, day), ClassOnDay(ScheduledClass, day),
                          ClassOnDay(TestMergeClass, day), ClassOnDay(ManualClass, day);
    Regroup(Sum(r, s0), Sum(r, s1), Sum(r, s2), Sum(r, s3), Sum(m, s0), Sum(m, s1), Sum(m, s2), Sum(m, s3));
  }

  lemma PoolsFitDay(p: Policy, c: AccountingClass, characterization: Amounts, scheduled: Amounts, testMerge: Amounts,
                    manual: Amounts, reserve: Amounts)
    requires PoolOf(p, c).Some?
    requires AtMost(scheduled, p.protectedScheduled) && AtMost(testMerge, p.protectedTestMerge)
    requires AtMost(manual, p.manualUnallocated)
    requires c == ScheduledClass ==> AtMost(Plus(scheduled, reserve), p.protectedScheduled)
    requires c == TestMergeClass ==> AtMost(Plus(testMerge, reserve), p.protectedTestMerge)
    requires c == ManualClass ==> AtMost(Plus(manual, reserve), p.manualUnallocated)
    ensures AtMost(Plus(FourClasses(characterization, scheduled, testMerge, manual), reserve),
                   Plus(characterization, Allocated(p)))
  {
  }

  /** A request's own class pool has room for it on its day. */
  ghost predicate OwnPoolHasRoom(s: LedgerState, p: Policy, proposed: Reservation) {
    && PoolOf(p, proposed.accountingClass).Some?
    && AtMost(Plus(Total(s, ClassOnDay(proposed.accountingClass, proposed.utcDayId)), FromCaps(proposed.caps)),
              PoolOf(p, proposed.accountingClass).value)
  }

  lemma RoomInPoolIsRoomInDay(s: LedgerState, p: Policy, proposed: Reservation)
    requires PoolsWithin(s, p) && OwnPoolHasRoom(s, p, proposed)
    ensures var day := proposed.utcDayId;
            AtMost(Plus(Total(s, OnDay(day)), FromCaps(proposed.caps)),
                   Plus(Total(s, ClassOnDay(CharacterizationClass, day)), Allocated(p)))
  {
    hide Total;
    hide FourClasses;
    hide FromCaps;
    hide Allocated;
    var day := proposed.utcDayId;
    ClassTotalsAddUp(s, day);
    assert PoolOf(p, ScheduledClass).Some? && PoolOf(p, TestMergeClass).Some? && PoolOf(p, ManualClass).Some?;
    PoolsFitDay(p, proposed.accountingClass, Total(s, ClassOnDay(CharacterizationClass, day)),
                Total(s, ClassOnDay(ScheduledClass, day)), Total(s, ClassOnDay(TestMergeClass, day)),
                Total(s, ClassOnDay(ManualClass, day)), FromCaps(proposed.caps));
  }

  /**
   * The pools are a guarantee, not just a limit. While a request's own class pool has room for it, the
   * shared day budget can refuse it only if the one-shot characterizations charged to that day leave less
   * than the three pools together; what the other classes did never matters.
   */
  lemma ProtectedPool(events: seq<Event>, p: Policy, request: Request, nowMs: int)
    requires MixedRun(events, p) && SharesPolicy(request, p) && RequestRecord(request, nowMs).Some?
    requires OwnPoolHasRoom(After(EMPTY, events), p, RequestRecord(request, nowMs).value)
    ensures var s, day := After(EMPTY, events), RequestRecord(request, nowMs).value.utcDayId;
            Headroom(s, request, nowMs) == Some(Refused(UtcDayExhausted)) ==>
              !AtMost(Plus(Total(s, ClassOnDay(CharacterizationClass, day)), Allocated(p)), p.utcDay)
  {
    hide Total;
    hide After;
    hide RequestRecord;
    hide LimitsFor;
    hide Headroom;
    hide FromCaps;
    hide Allocated;
    hide Plus;
    hide MixedRun;
    hide SharesPolicy;
    hide OwnPoolHasRoom;
    hide PoolsWithin;
    var s := After(EMPTY, events);
    PoolsStayWithin(events, p);
    RoomInPoolIsRoomInDay(s, p, RequestRecord(request, nowMs).value);
    if Headroom(s, request, nowMs) == Some(Refused(UtcDayExhausted)) {
      SharedLimits(request, nowMs, p);
      DayRefusal(s, request, nowMs);
    }
  }

  /** Without characterizations the guarantee is unconditional. */
  lemma ProtectedPoolNeverDayRefused(events: seq<Event>, p: Policy, request: Request, nowMs: int)
    requires SharedRun(events, p) && SharesPolicy(request, p) && RequestRecord(request, nowMs).Some?
    requires OwnPoolHasRoom(After(EMPTY, events), p, RequestRecord(request, nowMs).value)
    ensures Headroom(After(EMPTY, events), request, nowMs) != Some(Refused(UtcDayExhausted))
  {
    hide Total;
    hide After;
    hide RequestRecord;
    hide Headroom;
    hide OwnPoolHasRoom;
    hide SharesPolicy;
    hide ValidPolicy;
    SharedPolicyIsValid(request, nowMs, p);
    NoCharacterizations(events, p, RequestRecord(request, nowMs).value.utcDayId);
    hide Plus;
    hide Allocated;
    hide AtMost;
    ProtectedPool(events, p, request, nowMs);
  }

  lemma NoCharacterizations(events: seq<Event>, p: Policy, day: string)
    requires SharedRun(events, p) && ValidPolicy(p)
    ensures MixedRun(events, p)
    ensures AtMost(Plus(Total(After(EMPTY, events), ClassOnDay(CharacterizationClass, day)), Allocated(p)), p.utcDay)
  {
    hide Total;
    hide After;
    hide SharesPolicy;
    hide Allocated;
    hide ValidAggregateCaps;
    hide ValidNamed;
    hide ValidTriggers;
    RunStaysWithinPolicy(events, p);
    var scope := ClassOnDay(CharacterizationClass, day);
    assert Promise(p, scope) == Some(NOTHING);
    PlusNothing(Allocated(p));
    assert Total(After(EMPTY, events), scope) == NOTHING;
  }

  lemma SharedPolicyIsValid(request: Request, nowMs: int, p: Policy)
    requires SharesPolicy(request, p) && RequestRecord(request, nowMs).Some?
    ensures ValidPolicy(p)
  {
    hide UtcDayId;
    hide StableId;
    hide ValidReservation;
  }

  lemma SharedLimits(request: Request, nowMs: int, p: Policy)
    requires SharesPolicy(request, p) && RequestRecord(request, nowMs).Some?
    ensures LimitsFor(request).Some? && LimitsFor(request).value.utcDay == p.utcDay
    ensures PoolOf(p, RequestRecord(request, nowMs).value.accountingClass).Some?
  {
    hide UtcDayId;
    hide StableId;
    hide ValidPolicy;
    hide ValidReservation;
  }

  lemma DayRefusal(s: LedgerState, request: Request, nowMs: int)
    requires RequestRecord(request, nowMs).Some? && LimitsFor(request).Some?
    requires Headroom(s, request, nowMs) == Some(Refused(UtcDayExhausted))
    ensures var proposed := RequestRecord(request, nowMs).value;
            !AtMost(Plus(Total(s, OnDay(proposed.utcDayId)), FromCaps(proposed.caps)), LimitsFor(request).value.utcDay)
  {
    hide UtcDayId;
    hide RequestRecord;
    hide ClockRolledBack;
    hide ExistingMatchesRequest;
    hide FirstFailure;
    hide Total;
    hide StableId;
    hide ValidPolicy;
    hide FindNamed;
    hide FindTrigger;
    var proposed := RequestRecord(request, nowMs).value;
    var checks := ChecksFor(LimitsFor(request).value, proposed);
    var i := RefusalHasACheck(s, checks, FromCaps(proposed.caps));
    assert forall j :: 1 <= j < |checks| ==> checks[j].refusal != UtcDayExhausted;
  }
}

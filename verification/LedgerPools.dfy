/** What one-shot characterizations can take from the protected pools. */
module LedgerPools {
  import opened Prelude
  import opened Budget
  import opened Calendar
  import opened LedgerRecords
  import opened Accounting
  import opened LedgerSpec
  import opened LedgerRuns
  import opened LedgerScenarios
  import opened LedgerFilling

  // ---- Characterizations ----

  lemma CharacterizationLimits(request: Request, atMs: int)
    requires RequestRecord(request, atMs).Some? && request.budgetAuthority.CharacterizationBudget?
    ensures var proposed := RequestRecord(request, atMs).value;
            && LimitsFor(request).Some? && LimitsFor(request).value.utcDay == FromCaps(proposed.caps)
            && LimitsFor(request).value.rolling24h == FromCaps(proposed.caps)
            && proposed.accountingClass == CharacterizationClass
            && AtMost(FromCaps(proposed.caps), ONE_EFFECT)
  {
    hide UtcDayId;
    hide StableId;
  }

  lemma FullOfOwn(total: Amounts, own: Amounts)
    requires AtMost(Plus(total, own), own)
    ensures total == NOTHING
  {
  }

  /** A characterization is admitted only when nothing is charged to its day or to the last 24 hours. */
  lemma CharacterizationNeedsEmptyBudgets(s: LedgerState, request: Request, atMs: int, s': LedgerState)
    requires Admits(s, request, atMs, s') && request.budgetAuthority.CharacterizationBudget?
    ensures Total(s, OnDay(RequestRecord(request, atMs).value.utcDayId)) == NOTHING
    ensures Total(s, Rolling(RequestRecord(request, atMs).value.reservedAtMs)) == NOTHING
  {
    CharacterizationLimits(request, atMs);
    hide RequestRecord;
    hide LimitsFor;
    hide Total;
    hide FirstFailure;
    hide ClockRolledBack;
    hide FromCaps;
    hide ChecksFor;
    hide AtMost;
    var proposed := RequestRecord(request, atMs).value;
    var limits := LimitsFor(request).value;
    FirstChecks(limits, proposed);
    OwnCapMeansEmpty(s, ChecksFor(limits, proposed), Check(OnDay(proposed.utcDayId), limits.utcDay, UtcDayExhausted));
    OwnCapMeansEmpty(s, ChecksFor(limits, proposed),
                     Check(Rolling(proposed.reservedAtMs), limits.rolling24h, Rolling24hExhausted));
  }

  lemma FirstChecks(limits: Limits, proposed: Reservation)
    ensures var checks := ChecksFor(limits, proposed);
            && Check(OnDay(proposed.utcDayId), limits.utcDay, UtcDayExhausted) in checks
            && Check(Rolling(proposed.reservedAtMs), limits.rolling24h, Rolling24hExhausted) in checks
  {
    var checks := ChecksFor(limits, proposed);
    assert checks[0] in checks && checks[1] in checks;
  }

  lemma OwnCapMeansEmpty(s: LedgerState, checks: seq<Check>, check: Check)
    requires check in checks && FirstFailure(s, checks, check.cap).None?
    ensures Total(s, check.scope) == NOTHING
  {
    hide *;
    ChecksBound(s, checks, check.cap, check);
    FullOfOwn(Total(s, check.scope), check.cap);
  }

  lemma NothingBelow(total: Amounts)
    requires AtMost(total, NOTHING)
    ensures total == NOTHING
  {
  }

  /** The characterizations of a day, or of an interval of at most 24 hours. */
  predicate OneShotScope(scope: Scope) {
    || (scope.ClassOnDay? && scope.accountingClass == CharacterizationClass)
    || (scope.ClassWithin? && scope.accountingClass == CharacterizationClass
        && scope.untilMs - scope.afterMs <= DAY_MILLIS)
  }

  /** Around a time in the scope, everything in it is charged to the day of that time or to its last 24 hours. */
  lemma OneShotScopeIsChecked(e: Entry, other: Entry, atMs: int, day: string, scope: Scope)
    requires OneShotScope(scope) && UtcDayId(atMs) == Ok(day) && e.admittedAtMs == atMs
    requires InScope(e, scope) && InScope(other, scope)
    requires other.rollingExpiresAtMs == SaturatingAddDay(other.admittedAtMs)
    ensures InScope(other, if scope.ClassOnDay? then OnDay(day) else Rolling(atMs))
  {
    DayIdNamesTheDay(atMs);
    hide UtcDayId;
  }

  lemma OneShotScopeIsEmpty(s: LedgerState, record: Reservation, scope: Scope)
    requires OneShotScope(scope) && UtcDayId(record.reservedAtMs) == Ok(record.utcDayId) && s.imports == map[]
    requires InScope(EntryOf(Stored(record, None)), scope)
    requires Total(s, OnDay(record.utcDayId)) == NOTHING && Total(s, Rolling(record.reservedAtMs)) == NOTHING
    ensures Total(s, scope) == NOTHING
  {
    hide UtcDayId;
    hide OneShotScope;
    hide InScope;
    hide Total;
    hide Charge;
    var checked := if scope.ClassOnDay? then OnDay(record.utcDayId) else Rolling(record.reservedAtMs);
    forall id | id in s.reservations
      ensures AtMost(Share(EntryOf(s.reservations[id]), scope), Share(EntryOf(s.reservations[id]), checked))
    {
      if InScope(EntryOf(s.reservations[id]), scope) {
        OneShotScopeIsChecked(EntryOf(Stored(record, None)), EntryOf(s.reservations[id]), record.reservedAtMs,
                              record.utcDayId, scope);
      }
    }
    SharesAreMonotone(s, scope, s, checked);
    NothingBelow(Total(s, scope));
  }

  lemma CharacterizationAdmission(s: LedgerState, request: Request, atMs: int, s': LedgerState, scope: Scope)
    requires Admits(s, request, atMs, s') && request.budgetAuthority.CharacterizationBudget?
    requires s.imports == s'.imports == map[] && OneShotScope(scope)
    requires AtMost(Total(s, scope), ONE_EFFECT)
    ensures AtMost(Total(s', scope), ONE_EFFECT)
  {
    hide RequestRecord;
    hide LimitsFor;
    hide Total;
    hide FirstFailure;
    hide ClockRolledBack;
    hide FromCaps;
    hide AtMost;
    hide Plus;
    hide UtcDayId;
    hide OneShotScope;
    hide InScope;
    var proposed := RequestRecord(request, atMs).value;
    var stored := Stored(proposed, None);
    ProposalIsValid(request, atMs);
    TotalOfAdmission(s, proposed.reservationId, stored, s', scope);
    PlusNothing(Total(s, scope));
    if InScope(EntryOf(stored), scope) {
      CharacterizationLimits(request, atMs);
      CharacterizationNeedsEmptyBudgets(s, request, atMs, s');
      OneShotScopeIsEmpty(s, proposed, scope);
      PlusNothing(FromCaps(proposed.caps));
    }
  }

  lemma OtherAdmission(s: LedgerState, p: Policy, request: Request, atMs: int, s': LedgerState, scope: Scope)
    requires Admits(s, request, atMs, s') && SharesPolicy(request, p) && s'.imports == s.imports && OneShotScope(scope)
    ensures Total(s', scope) == Total(s, scope)
  {
    hide RequestRecord;
    hide LimitsFor;
    hide Total;
    hide FirstFailure;
    hide ClockRolledBack;
    hide SharesPolicy;
    hide AdmittedOn;
    var proposed := RequestRecord(request, atMs).value;
    SharedLimits(request, atMs, p);
    TotalOfAdmission(s, proposed.reservationId, Stored(proposed, None), s', scope);
    PlusNothing(Total(s, scope));
  }

  lemma CharacterizationStep(s: LedgerState, p: Policy, e: Event, scope: Scope)
    requires WellFormed(s) && s.imports == map[] && MixedRun([e], p) && OneShotScope(scope)
    requires AtMost(Total(s, scope), ONE_EFFECT)
    ensures Step(s, e).imports == map[] && AtMost(Total(Step(s, e), scope), ONE_EFFECT)
  {
    hide WellFormed;
    hide Reserved;
    hide Reconciled;
    hide Imported;
    hide Settles;
    hide Admits;
    hide Total;
    hide OneShotScope;
    assert [e][0] == e;
    var s' := Step(s, e);
    match e
    case Reserve(request, atMs, disk) =>
      ReservationCases(s, request, atMs, disk);
      if s'.reservations == s.reservations {
        SameMapsSameTotal(s, s', scope);
      } else if SharesPolicy(request, p) {
        OtherAdmission(s, p, request, atMs, s', scope);
      } else {
        CharacterizationAdmission(s, request, atMs, s', scope);
      }
    case Reconcile(id, decision, disk) =>
      ReconciliationCases(s, id, decision, disk);
      if s'.reservations == s.reservations {
        SameMapsSameTotal(s, s', scope);
      } else {
        SettlementLowers(s, id, decision, s', scope);
      }
  }

  /** In every mixed run, the characterizations of any day and of any 24 hours come to at most one effect. */
  lemma {:induction false} CharacterizationsAreOneEffect(events: seq<Event>, p: Policy, scope: Scope)
    requires MixedRun(events, p) && OneShotScope(scope)
    ensures After(EMPTY, events).imports == map[]
    ensures AtMost(Total(After(EMPTY, events), scope), ONE_EFFECT)
  {
    hide WellFormed;
    hide Step;
    hide Total;
    hide OneShotScope;
    if events == [] {
      TotalOfEmpty(scope);
    } else {
      var before, last := events[..|events| - 1], events[|events| - 1];
      CharacterizationsAreOneEffect(before, p, scope);
      EmptyIsWithin(p);
      RunIsSound(EMPTY, before);
      assert MixedRun([last], p);
      CharacterizationStep(After(EMPTY, before), p, last, scope);
    }
  }

  // ---- The guarantee as a property of the policy ----

  /** Whatever happened before, a request whose own pool has room for it is not refused because of the day. */
  ghost predicate PoolsAreProtected(p: Policy) {
    forall events, request, nowMs :: !RefusedDespiteRoom(events, p, request, nowMs, UtcDayExhausted)
  }

  lemma OneShotsOfDay(day: string)
    ensures OneShotScope(ClassOnDay(CharacterizationClass, day))
  {
  }

  lemma Together(a: Amounts, b: Amounts, pools: Amounts, day: Amounts)
    requires AtMost(a, b) && AtMost(Plus(b, pools), day)
    ensures AtMost(Plus(a, pools), day)
  {
  }

  /** A day with room for one effect beyond the pools keeps every pool protected, characterizations or not. */
  lemma RoomForOneEffectProtects(p: Policy)
    requires AtMost(Plus(ONE_EFFECT, Allocated(p)), p.utcDay)
    ensures PoolsAreProtected(p)
  {
    forall events, request, nowMs ensures !RefusedDespiteRoom(events, p, request, nowMs, UtcDayExhausted) {
      hide *;
      if RefusedDespiteRoom(events, p, request, nowMs, UtcDayExhausted) {
        RefusalFacts(events, p, request, nowMs, UtcDayExhausted);
        var day := RequestRecord(request, nowMs).value.utcDayId;
        ProtectedPool(events, p, request, nowMs);
        OneShotsOfDay(day);
        CharacterizationsAreOneEffect(events, p, ClassOnDay(CharacterizationClass, day));
        Together(Total(After(EMPTY, events), ClassOnDay(CharacterizationClass, day)), ONE_EFFECT, Allocated(p),
                 p.utcDay);
      }
    }
  }

  // ---- Where the guarantee fails ----

  /**
   * A run in which a pool is not protected, unless the day has room for an effect beyond the pools. A
   * characterization takes a whole effect of an empty day; of the requests that then fill the pools, one
   * no longer fits the day.
   */
  lemma UnprotectedRun(p: Policy, atMs: int) returns (events: seq<Event>, refused: Option<Request>)
    requires UtcDayId(atMs).Ok? && OnlyPools(p) && FillablePools(p) && p.rolling24h == p.utcDay
    ensures match refused
            case Some(request) => RefusedDespiteRoom(events, p, request, atMs, UtcDayExhausted)
            case None => AtMost(Plus(ONE_EFFECT, Allocated(p)), p.utcDay)
  {
    hide *;
    var b := BuildsCharacterization(p, atMs);
    var more, stop := FillPools(b, p, atMs, atMs, true);
    events, refused := more.events, None;
    match stop
    case Some((request, refusal)) =>
      refused := Some(request);
      StopFacts(more, p, atMs, true, request, refusal);
    case None =>
      SharedFacts(more.held, p);
  }

  /** For pools that effects can use up, the guarantee holds exactly when the day has a whole effect to spare. */
  lemma ProtectedExactly(p: Policy)
    requires OnlyPools(p) && FillablePools(p) && p.rolling24h == p.utcDay
    ensures PoolsAreProtected(p) <==> AtMost(Plus(ONE_EFFECT, Allocated(p)), p.utcDay)
  {
    hide *;
    if AtMost(Plus(ONE_EFFECT, Allocated(p)), p.utcDay) {
      RoomForOneEffectProtects(p);
    } else {
      FirstMoment();
      var events, refused := UnprotectedRun(p, 1);
      NotProtected(events, p, refused.value, 1);
    }
  }

  lemma FirstMoment()
    ensures UtcDayId(1).Ok?
  {
    DayIdNamesTheDay(1);
  }

  lemma NotProtected(events: seq<Event>, p: Policy, request: Request, nowMs: int)
    requires RefusedDespiteRoom(events, p, request, nowMs, UtcDayExhausted)
    ensures !PoolsAreProtected(p)
  {
    hide RefusedDespiteRoom;
  }
}

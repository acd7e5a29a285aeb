/** Policies, requests and loads from which particular runs are built. */
module LedgerScenarios {
  import opened Prelude
  import opened Budget
  import opened Calendar
  import opened LedgerRecords
  import opened Accounting
  import opened LedgerSpec
  import opened LedgerRuns
  import opened LedgerAdmission

  /** Pools of one effect each, shared budgets that hold them once, and no tighter cap of any other kind. */
  function PooledPolicy(caps: EffectCaps): Policy {
    var pool := FromCaps(caps);
    var day := Plus(Plus(pool, pool), pool);
    Policy([NamedCaps("case", day)], [TriggerCaps(Daily, day), TriggerCaps(TestMerge, day)],
           [NamedCaps("provider", day)], day, day, pool, pool, pool)
  }

  lemma PooledCaps(caps: EffectCaps)
    requires ValidEffectCaps(caps)
    ensures var pool := FromCaps(caps); ValidAggregateCaps(pool) && ValidAggregateCaps(Plus(Plus(pool, pool), pool))
  {
  }

  lemma PooledIsValid(caps: EffectCaps)
    requires ValidEffectCaps(caps)
    ensures ValidPolicy(PooledPolicy(caps))
  {
    var p := PooledPolicy(caps);
    PooledCaps(caps);
    WantedIsStable();
    hide FromCaps;
    hide Plus;
    hide ValidAggregateCaps;
    hide StableId;
    assert AtMost(p.utcDay, p.utcDay);
    hide AtMost;
  }

  function TriggerFor(c: AccountingClass): Trigger {
    match c
    case CharacterizationClass => ManualCharacterization
    case ScheduledClass => Daily
    case TestMergeClass => TestMerge
    case ManualClass => ManualCompatibility
  }

  function AuthorityFor(c: AccountingClass): Authority {
    match c
    case CharacterizationClass => CharacterizationOnce("entry")
    case ManualClass => ManualAcknowledgement("acknowledgement")
    case _ => StandingGrant("grant")
  }

  function BudgetFor(c: AccountingClass, caps: EffectCaps, p: Policy): BudgetAuthority {
    match c
    case CharacterizationClass => CharacterizationBudget("entry", "case", "provider", caps)
    case ManualClass => ManualBudget("acknowledgement", "grant", p)
    case _ => StandingBudget("grant", p)
  }

  /** A request for one effect of a class. */
  function Wanted(c: AccountingClass, caps: EffectCaps, p: Policy, attempt: string): Request {
    Request(Identities("profile", "execution", caps, attempt, AuthorityFor(c), TriggerFor(c), None,
                       WorkKey("execution", "purpose", "bucket"), AttemptKey(attempt, None), "purpose", "bucket"),
            c, "case", "provider", BudgetFor(c, caps, p))
  }

  function WantedId(attempt: string): ReservationId {
    ReservationId(AttemptKey(attempt, None))
  }

  /** No case, provider or trigger of the policy has a budget tighter than the day's. */
  ghost predicate OnlyPools(p: Policy) {
    && ValidPolicy(p)
    && FindNamed(p.perCase, "case") == Some(p.utcDay) && FindNamed(p.perProvider, "provider") == Some(p.utcDay)
    && FindTrigger(p.perTriggerPool, Daily) == FindTrigger(p.perTriggerPool, TestMerge) == Some(p.utcDay)
  }

  lemma PooledIsOnlyPools(caps: EffectCaps)
    requires ValidPolicy(PooledPolicy(caps))
    ensures OnlyPools(PooledPolicy(caps))
  {
    var p := PooledPolicy(caps);
    hide ValidPolicy;
    assert p.perTriggerPool[1..] == [TriggerCaps(TestMerge, p.utcDay)];
    assert FindTrigger(p.perTriggerPool[1..], TestMerge) == Some(p.utcDay);
    assert FindTrigger(p.perTriggerPool, TestMerge) == Some(p.utcDay);
    assert FindTrigger(p.perTriggerPool, Daily) == Some(p.utcDay);
    assert FindNamed(p.perCase, "case") == Some(p.utcDay);
    assert FindNamed(p.perProvider, "provider") == Some(p.utcDay);
  }

  /** The caps of the rolling check, of the class check and of all other checks. */
  function RollingCap(c: AccountingClass, caps: EffectCaps, p: Policy): Amounts {
    if c == CharacterizationClass then FromCaps(caps) else p.rolling24h
  }

  function DayCap(c: AccountingClass, caps: EffectCaps, p: Policy): Amounts {
    if c == CharacterizationClass then FromCaps(caps) else p.utcDay
  }

  function PoolCap(c: AccountingClass, caps: EffectCaps, p: Policy): Amounts {
    match PoolOf(p, c)
    case Some(pool) => pool
    case None => FromCaps(caps)
  }

  lemma WantedLimits(c: AccountingClass, caps: EffectCaps, p: Policy, attempt: string)
    requires ValidEffectCaps(caps) && OnlyPools(p)
    ensures var limits := LimitsFor(Wanted(c, caps, p, attempt));
            var day := DayCap(c, caps, p);
            && limits.Some?
            && limits.value.utcDay == limits.value.perCase == limits.value.perProvider == day
            && limits.value.rolling24h == RollingCap(c, caps, p)
            && (limits.value.perTrigger.Some? ==> limits.value.perTrigger.value == day)
            && limits.value.classPool == PoolCap(c, caps, p)
  {
    hide ValidPolicy;
    hide FromCaps;
    hide FindNamed;
    hide FindTrigger;
  }

  lemma WantedIsStable()
    ensures StableId("case") && StableId("provider")
  {
  }

  lemma WantedIsValid(c: AccountingClass, caps: EffectCaps, p: Policy, attempt: string, atMs: int)
    requires ValidEffectCaps(caps) && OnlyPools(p) && UtcDayId(atMs).Ok?
    ensures var proposed := RequestRecord(Wanted(c, caps, p, attempt), atMs);
            && proposed.Some?
            && proposed.value.reservationId == WantedId(attempt) && proposed.value.accountingClass == c
            && proposed.value.caps == caps && proposed.value.reservedAtMs == atMs
            && proposed.value.utcDayId == UtcDayId(atMs).value
  {
    hide *;
    WantedLimits(c, caps, p, attempt);
    WantedIsStable();
    WantedParts(c, caps, p, attempt);
    WantedAgrees(c);
    ProposedOf(Wanted(c, caps, p, attempt), atMs);
  }

  lemma WantedParts(c: AccountingClass, caps: EffectCaps, p: Policy, attempt: string)
    ensures var request := Wanted(c, caps, p, attempt);
            var ids := request.identities;
            && request.caseId == "case" && request.providerFamily == "provider" && request.accountingClass == c
            && ids.actualCaps == caps && ids.trigger == TriggerFor(c) && ids.authority == AuthorityFor(c)
            && ids.attemptKey == AttemptKey(ids.admissionAttempt, ids.repeatNonce)
            && ReservationId(ids.attemptKey) == WantedId(attempt)
            && ids.equivalentWorkKey == WorkKey(ids.caseExecution, ids.evidencePurpose, ids.freshnessBucket)
  {
    hide TriggerFor;
    hide AuthorityFor;
    hide BudgetFor;
  }

  lemma ProposedOf(request: Request, atMs: int)
    requires StableId(request.caseId) && StableId(request.providerFamily) && LimitsFor(request).Some?
    requires UtcDayId(atMs).Ok? && ValidEffectCaps(request.identities.actualCaps)
    requires var ids := request.identities;
             && ids.attemptKey == AttemptKey(ids.admissionAttempt, ids.repeatNonce)
             && ids.equivalentWorkKey == WorkKey(ids.caseExecution, ids.evidencePurpose, ids.freshnessBucket)
    requires ClassAuthorityTriggerAgree(request.accountingClass, request.identities.authority,
                                        request.identities.trigger)
    ensures var proposed := RequestRecord(request, atMs);
            && proposed.Some?
            && proposed.value.reservationId == ReservationId(request.identities.attemptKey)
            && proposed.value.accountingClass == request.accountingClass
            && proposed.value.caps == request.identities.actualCaps && proposed.value.reservedAtMs == atMs
            && proposed.value.utcDayId == UtcDayId(atMs).value
  {
    hide StableId;
    hide LimitsFor;
    hide UtcDayId;
    hide ValidEffectCaps;
  }

  lemma WantedAgrees(c: AccountingClass)
    ensures ClassAuthorityTriggerAgree(c, AuthorityFor(c), TriggerFor(c))
  {
  }

  // ---- Loads ----

  lemma AtMostItself(a: Amounts)
    ensures AtMost(a, a)
  {
  }

  /** What is charged before a day but within its last 24 hours, on the day, and to each class on the day. */
  datatype Held = Held(before: Amounts, today: Amounts, filled: map<AccountingClass, Amounts>)

  function Filled(held: Held, c: AccountingClass): Amounts {
    if c in held.filled then held.filled[c] else NOTHING
  }

  function WithMore(held: Held, c: AccountingClass, more: Amounts): Held {
    Held(held.before, Plus(held.today, more), held.filled[c := Plus(Filled(held, c), more)])
  }

  function InWindow(held: Held): Amounts {
    Plus(held.before, held.today)
  }

  function DayOf(scope: Scope): Option<string> {
    match scope
    case OnDay(day) => Some(day)
    case CaseOnDay(_, day) => Some(day)
    case ProviderOnDay(_, day) => Some(day)
    case TriggerOnDay(_, day) => Some(day)
    case ClassOnDay(_, day) => Some(day)
    case _ => None
  }

  /** The ledger holds exactly this at a time, and nothing from later. */
  ghost predicate Load(s: LedgerState, atMs: int, held: Held)
    requires UtcDayId(atMs).Ok?
  {
    && s.imports == map[]
    && !ClockRolledBack(s, atMs)
    && forall scope :: Loaded(s, atMs, UtcDayId(atMs).value, held, scope)
  }

  ghost predicate Loaded(s: LedgerState, atMs: int, day: string, held: Held, scope: Scope) {
    && (scope == Rolling(atMs) ==> Total(s, scope) == InWindow(held))
    && (scope == OnDay(day) ==> Total(s, scope) == held.today)
    && (DayOf(scope) == Some(day) ==> AtMost(Total(s, scope), held.today))
    && (scope.ClassOnDay? && scope.day == day ==> Total(s, scope) == Filled(held, scope.accountingClass))
  }

  const NOTHING_HELD := Held(NOTHING, NOTHING, map[])

  lemma NothingIsHeld(c: AccountingClass)
    ensures Filled(NOTHING_HELD, c) == NOTHING && InWindow(NOTHING_HELD) == NOTHING && NOTHING_HELD.today == NOTHING
  {
    PlusNothing(NOTHING);
    hide Plus;
  }

  lemma NothingLoaded(s: LedgerState, atMs: int, day: string, scope: Scope)
    requires Total(s, scope) == NOTHING
    ensures Loaded(s, atMs, day, NOTHING_HELD, scope)
  {
    hide Total;
    hide Filled;
    hide InWindow;
    AtMostItself(NOTHING);
    NothingIsHeld(if scope.ClassOnDay? then scope.accountingClass else ManualClass);
    hide AtMost;
  }

  lemma NoLoad(s: LedgerState, atMs: int)
    requires UtcDayId(atMs).Ok? && s.reservations == map[] && s.imports == map[]
    ensures Load(s, atMs, NOTHING_HELD)
  {
    hide UtcDayId;
    hide Total;
    hide Loaded;
    forall scope ensures Loaded(s, atMs, UtcDayId(atMs).value, NOTHING_HELD, scope) {
      TotalOfEmpty(scope);
      SameMapsSameTotal(EMPTY, s, scope);
      NothingLoaded(s, atMs, UtcDayId(atMs).value, scope);
    }
  }

  lemma ShareOfRecord(record: Reservation, atMs: int, scope: Scope)
    requires UtcDayId(atMs).Ok? && record.reservedAtMs == atMs
    ensures var share, day := Share(EntryOf(Stored(record, None)), scope), UtcDayId(atMs).value;
            && (share == FromCaps(record.caps) || share == NOTHING)
            && (scope == OnDay(day) || scope == Rolling(atMs) ==> share == FromCaps(record.caps))
            && (scope.ClassOnDay? && scope.day == day ==>
                  share == if scope.accountingClass == record.accountingClass then FromCaps(record.caps) else NOTHING)
  {
    DayIdNamesTheDay(atMs);
    hide UtcDayId;
    hide FromCaps;
  }

  lemma SharesAdd(own: Amounts, total: Amounts, before: Amounts, today: Amounts)
    ensures AtMost(total, today) ==>
              AtMost(Plus(own, total), Plus(today, own)) && AtMost(Plus(NOTHING, total), Plus(today, own))
    ensures Plus(own, total) == Plus(total, own) && Plus(NOTHING, total) == total
    ensures Plus(own, Plus(before, today)) == Plus(before, Plus(today, own))
  {
  }

  ghost predicate Adds(s: LedgerState, record: Reservation, s': LedgerState) {
    && record.reservationId !in s.reservations && s'.imports == s.imports
    && s'.reservations == s.reservations[record.reservationId := Stored(record, None)]
  }

  lemma StillNoRollback(s: LedgerState, record: Reservation, s': LedgerState, atMs: int)
    requires Adds(s, record, s') && record.reservedAtMs == atMs && !ClockRolledBack(s, atMs)
    ensures !ClockRolledBack(s', atMs)
  {
  }

  lemma LoadedGrows(s: LedgerState, atMs: int, held: Held, record: Reservation, s': LedgerState, scope: Scope)
    requires UtcDayId(atMs).Ok? && record.reservedAtMs == atMs && Adds(s, record, s')
    requires Loaded(s, atMs, UtcDayId(atMs).value, held, scope)
    ensures Loaded(s', atMs, UtcDayId(atMs).value, WithMore(held, record.accountingClass, FromCaps(record.caps)), scope)
  {
    hide UtcDayId;
    hide Total;
    hide Share;
    hide EntryOf;
    hide Plus;
    hide AtMost;
    hide FromCaps;
    var share := Share(EntryOf(Stored(record, None)), scope);
    assert Total(s', scope) == Plus(share, Total(s, scope)) by {
      TotalOfAdmission(s, record.reservationId, Stored(record, None), s', scope);
    }
    hide Adds;
    ShareOfRecord(record, atMs, scope);
    SharesAdd(FromCaps(record.caps), Total(s, scope), held.before, held.today);
  }

  lemma LoadGrows(s: LedgerState, atMs: int, held: Held, record: Reservation, s': LedgerState)
    requires UtcDayId(atMs).Ok? && Load(s, atMs, held) && record.reservedAtMs == atMs && Adds(s, record, s')
    ensures Load(s', atMs, WithMore(held, record.accountingClass, FromCaps(record.caps)))
  {
    StillNoRollback(s, record, s', atMs);
    hide UtcDayId;
    hide ClockRolledBack;
    hide Loaded;
    hide WithMore;
    hide FromCaps;
    forall scope
      ensures Loaded(s', atMs, UtcDayId(atMs).value, WithMore(held, record.accountingClass, FromCaps(record.caps)),
                     scope)
    {
      LoadedGrows(s, atMs, held, record, s', scope);
    }
  }

  lemma ChecksAgainstLoad(limits: Limits, proposed: Reservation, day: Amounts, rolling: Amounts, pool: Amounts)
    requires limits.utcDay == limits.perCase == limits.perProvider == day && limits.rolling24h == rolling
    requires (limits.perTrigger.Some? ==> limits.perTrigger.value == day) && limits.classPool == pool
    ensures var checks := ChecksFor(limits, proposed);
            && |checks| >= 2 && checks[0] == Check(OnDay(proposed.utcDayId), day, UtcDayExhausted)
            && checks[1] == Check(Rolling(proposed.reservedAtMs), rolling, Rolling24hExhausted)
            && forall i :: 0 <= i < |checks| && i != 1 ==>
                 && DayOf(checks[i].scope) == Some(proposed.utcDayId)
                 && (|| checks[i].cap == day
                     || (&& checks[i].cap == pool
                         && checks[i].scope == ClassOnDay(proposed.accountingClass, proposed.utcDayId)))
  {
  }

  /**
   * Under a load, a request that fits its pool is admitted exactly when the day and the rolling window have
   * room, and otherwise refused because of the first of the two that has not.
   */
  lemma HeadroomUnderLoad(s: LedgerState, atMs: int, held: Held, c: AccountingClass, caps: EffectCaps, p: Policy,
                          attempt: string)
    requires UtcDayId(atMs).Ok? && Load(s, atMs, held) && OnlyPools(p) && ValidEffectCaps(caps)
    requires AtMost(Plus(Filled(held, c), FromCaps(caps)), PoolCap(c, caps, p))
    requires WantedId(attempt) !in s.reservations && Representable(Plus(InWindow(held), FromCaps(caps)))
    ensures Headroom(s, Wanted(c, caps, p, attempt), atMs)
         == if !AtMost(Plus(held.today, FromCaps(caps)), DayCap(c, caps, p)) then Some(Refused(UtcDayExhausted))
            else if !AtMost(Plus(InWindow(held), FromCaps(caps)), RollingCap(c, caps, p))
              then Some(Refused(Rolling24hExhausted))
            else None
  {
    hide *;
    var request, reserve := Wanted(c, caps, p, attempt), FromCaps(caps);
    var day, rolling, pool := DayCap(c, caps, p), RollingCap(c, caps, p), PoolCap(c, caps, p);
    WantedIsValid(c, caps, p, attempt, atMs);
    WantedLimits(c, caps, p, attempt);
    var proposed := RequestRecord(request, atMs).value;
    ChecksAgainstLoad(LimitsFor(request).value, proposed, day, rolling, pool);
    var checks := ChecksFor(LimitsFor(request).value, proposed);
    LoadFacts(s, atMs, held, c);
    TodayIsInWindow(held, reserve);
    if AtMost(Plus(held.today, reserve), day) && AtMost(Plus(InWindow(held), reserve), rolling) {
      AdmittedExactly(s, request, atMs);
      forall i | 0 <= i < |checks| ensures Fits(s, checks[i], reserve) {
        CheckUnderLoad(s, atMs, held, checks[i], reserve, day, rolling, c, pool);
      }
    } else {
      HeadroomOfNew(s, request, atMs);
      FailsEarly(s, checks, reserve);
    }
  }

  lemma TodayIsInWindow(held: Held, reserve: Amounts)
    ensures AtMost(held.today, InWindow(held))
    ensures Representable(Plus(InWindow(held), reserve)) ==> Representable(Plus(held.today, reserve))
  {
  }

  lemma CheckUnderLoad(s: LedgerState, atMs: int, held: Held, check: Check, reserve: Amounts, day: Amounts,
                       rolling: Amounts, c: AccountingClass, pool: Amounts)
    requires UtcDayId(atMs).Ok? && Load(s, atMs, held) && Representable(Plus(InWindow(held), reserve))
    requires AtMost(Plus(held.today, reserve), day) && AtMost(Plus(InWindow(held), reserve), rolling)
    requires AtMost(Plus(Filled(held, c), reserve), pool)
    requires || (check.scope == Rolling(atMs) && check.cap == rolling)
             || (DayOf(check.scope) == Some(UtcDayId(atMs).value) && check.cap == day)
             || (check.scope == ClassOnDay(c, UtcDayId(atMs).value) && check.cap == pool)
    ensures Fits(s, check, reserve)
  {
    hide *;
    if check.scope == Rolling(atMs) && check.cap == rolling {
      LoadFacts(s, atMs, held, c);
      AtMostItself(InWindow(held));
      FitsBelow(s, check, InWindow(held), InWindow(held), reserve);
    } else if DayOf(check.scope) == Some(UtcDayId(atMs).value) && check.cap == day {
      LoadBounds(s, atMs, held, check.scope);
      FitsBelow(s, check, held.today, InWindow(held), reserve);
    } else {
      ClassIsToday(s, atMs, held, c);
      FitsBelow(s, check, Filled(held, c), InWindow(held), reserve);
    }
  }

  lemma FitsBelow(s: LedgerState, check: Check, bound: Amounts, window: Amounts, reserve: Amounts)
    requires AtMost(Total(s, check.scope), bound) && AtMost(bound, window)
    requires Representable(Plus(window, reserve)) && AtMost(Plus(bound, reserve), check.cap)
    ensures Fits(s, check, reserve)
  {
    hide Total;
  }

  lemma LoadBounds(s: LedgerState, atMs: int, held: Held, scope: Scope)
    requires UtcDayId(atMs).Ok? && Load(s, atMs, held) && DayOf(scope) == Some(UtcDayId(atMs).value)
    ensures AtMost(Total(s, scope), held.today) && AtMost(held.today, InWindow(held))
  {
    hide ClockRolledBack;
    hide UtcDayId;
    hide Total;
    assert Loaded(s, atMs, UtcDayId(atMs).value, held, scope);
  }

  lemma ClassIsToday(s: LedgerState, atMs: int, held: Held, c: AccountingClass)
    requires UtcDayId(atMs).Ok? && Load(s, atMs, held)
    ensures Total(s, ClassOnDay(c, UtcDayId(atMs).value)) == Filled(held, c)
    ensures AtMost(Filled(held, c), Filled(held, c)) && AtMost(Filled(held, c), InWindow(held))
  {
    hide Load;
    hide UtcDayId;
    hide Total;
    hide Filled;
    LoadFacts(s, atMs, held, c);
    LoadBounds(s, atMs, held, ClassOnDay(c, UtcDayId(atMs).value));
  }

  lemma LoadFacts(s: LedgerState, atMs: int, held: Held, c: AccountingClass)
    requires UtcDayId(atMs).Ok? && Load(s, atMs, held)
    ensures !ClockRolledBack(s, atMs) && Total(s, OnDay(UtcDayId(atMs).value)) == held.today
    ensures Total(s, Rolling(atMs)) == InWindow(held)
    ensures Total(s, ClassOnDay(c, UtcDayId(atMs).value)) == Filled(held, c)
  {
    hide ClockRolledBack;
    hide UtcDayId;
    hide Total;
    assert Loaded(s, atMs, UtcDayId(atMs).value, held, OnDay(UtcDayId(atMs).value));
    assert Loaded(s, atMs, UtcDayId(atMs).value, held, Rolling(atMs));
    assert Loaded(s, atMs, UtcDayId(atMs).value, held, ClassOnDay(c, UtcDayId(atMs).value));
  }

  /** If one of the first two checks fails, the first that does is the one named. */
  lemma FailsEarly(s: LedgerState, checks: seq<Check>, reserve: Amounts)
    requires |checks| >= 2
    requires Representable(Plus(Total(s, checks[0].scope), reserve))
    requires Representable(Plus(Total(s, checks[1].scope), reserve))
    requires || !AtMost(Plus(Total(s, checks[0].scope), reserve), checks[0].cap)
             || !AtMost(Plus(Total(s, checks[1].scope), reserve), checks[1].cap)
    ensures FirstFailure(s, checks, reserve)
         == Some(Refused(if !AtMost(Plus(Total(s, checks[0].scope), reserve), checks[0].cap) then checks[0].refusal
                         else checks[1].refusal))
  {
    hide Total;
    assert checks[1..][0] == checks[1];
  }

  // ---- Steps that reserve ----

  /** A new request that has room commits its record to the directory, and to memory if the disk says so. */
  lemma RoomReserves(s: LedgerState, request: Request, atMs: int, disk: Disk)
    requires WellFormed(s) && Headroom(s, request, atMs).None? && RequestRecord(request, atMs).Some?
    requires var record := RequestRecord(request, atMs).value;
             record.reservationId !in s.reservations && ReservationFile(record.reservationId) !in s.directory
    requires disk == Persists || disk == FailsToSync
    ensures var record := RequestRecord(request, atMs).value;
            var (s', outcome) := Reserved(s, request, atMs, disk);
            && s'.imports == s.imports
            && s'.directory == s.directory[ReservationFile(record.reservationId) :=
                                             Canonical(ReservationRecord(record))]
            && (disk == Persists ==>
                  && outcome == Ok((Created, record))
                  && s'.reservations == s.reservations[record.reservationId := Stored(record, None)])
            && (disk == FailsToSync ==> outcome.Err? && s'.reservations == s.reservations)
  {
    hide *;
    ProposalIsValid(request, atMs);
    var record := RequestRecord(request, atMs).value;
    KeyIsNew(s, record);
    ReservesProposal(s, request, atMs, disk);
    CommitsNew(s, record, disk);
  }

  lemma ReservesProposal(s: LedgerState, request: Request, atMs: int, disk: Disk)
    requires Headroom(s, request, atMs).None? && RequestRecord(request, atMs).Some?
    requires RequestRecord(request, atMs).value.reservationId !in s.reservations
    ensures Reserved(s, request, atMs, disk) == Committed(s, RequestRecord(request, atMs).value, disk)
  {
    hide Headroom;
    hide RequestRecord;
    hide Committed;
  }

  lemma CommitsNew(s: LedgerState, record: Reservation, disk: Disk)
    requires ValidReservation(record) && record.reservationId !in s.reservations
    requires !exists id :: id in s.reservations && s.reservations[id].record.attemptKey == record.attemptKey
    requires ReservationFile(record.reservationId) !in s.directory && (disk == Persists || disk == FailsToSync)
    ensures var (s', outcome) := Committed(s, record, disk);
            && s'.imports == s.imports
            && s'.directory == s.directory[ReservationFile(record.reservationId) :=
                                             Canonical(ReservationRecord(record))]
            && (disk == Persists ==>
                  && outcome == Ok((Created, record))
                  && s'.reservations == s.reservations[record.reservationId := Stored(record, None)])
            && (disk == FailsToSync ==> outcome.Err? && s'.reservations == s.reservations)
  {
    hide ValidReservation;
  }

  lemma KeyIsNew(s: LedgerState, record: Reservation)
    requires WellFormed(s) && ValidReservation(record) && record.reservationId !in s.reservations
    ensures !exists id :: id in s.reservations && s.reservations[id].record.attemptKey == record.attemptKey
  {
    hide UtcDayId;
    hide ValidReconciliation;
    forall id | id in s.reservations ensures s.reservations[id].record.attemptKey != record.attemptKey {
      assert SoundReservation(id, s.reservations[id]);
    }
  }

  /** On every day of the calendar and for every class, an empty ledger admits an effect that fits its pool. */
  lemma RunsCanReserve(c: AccountingClass, caps: EffectCaps, p: Policy, attempt: string, atMs: int)
    requires OnlyPools(p) && ValidEffectCaps(caps) && AtMost(FromCaps(caps), PoolCap(c, caps, p))
    requires UtcDayId(atMs).Ok?
    ensures Reserved(EMPTY, Wanted(c, caps, p, attempt), atMs, Persists).1.Ok?
  {
    hide *;
    EmptyFacts();
    NoLoad(EMPTY, atMs);
    RoomForFirst(c, caps, p);
    HeadroomUnderLoad(EMPTY, atMs, NOTHING_HELD, c, caps, p, attempt);
    WantedIsValid(c, caps, p, attempt, atMs);
    RoomReserves(EMPTY, Wanted(c, caps, p, attempt), atMs, Persists);
  }

  lemma EmptyFacts()
    ensures WellFormed(EMPTY) && EMPTY.reservations == map[] && EMPTY.imports == map[] && EMPTY.directory == map[]
  {
  }

  lemma RoomForFirst(c: AccountingClass, caps: EffectCaps, p: Policy)
    requires OnlyPools(p) && ValidEffectCaps(caps) && AtMost(FromCaps(caps), PoolCap(c, caps, p))
    ensures AtMost(Plus(Filled(NOTHING_HELD, c), FromCaps(caps)), PoolCap(c, caps, p))
    ensures AtMost(Plus(InWindow(NOTHING_HELD), FromCaps(caps)), RollingCap(c, caps, p))
    ensures AtMost(Plus(NOTHING_HELD.today, FromCaps(caps)), DayCap(c, caps, p))
    ensures Representable(Plus(InWindow(NOTHING_HELD), FromCaps(caps)))
  {
    hide *;
    PoolFitsShared(c, caps, p);
    PlusNothing(FromCaps(caps));
    NothingIsHeld(c);
  }

  /** What fits a pool fits the shared budgets, which the pools fit together. */
  lemma PoolFitsShared(c: AccountingClass, caps: EffectCaps, p: Policy)
    requires OnlyPools(p) && ValidEffectCaps(caps) && AtMost(FromCaps(caps), PoolCap(c, caps, p))
    ensures AtMost(FromCaps(caps), RollingCap(c, caps, p)) && AtMost(FromCaps(caps), DayCap(c, caps, p))
    ensures Representable(FromCaps(caps))
  {
    hide ValidNamed;
    hide ValidTriggers;
    hide ValidAggregateCaps;
    hide FindNamed;
    hide FindTrigger;
  }
}

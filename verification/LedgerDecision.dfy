/** How a request is answered, told from the records and the entries of the policy alone. */
module LedgerDecision {
  import opened Prelude
  import opened Budget
  import opened Calendar
  import opened LedgerRecords
  import opened Accounting
  import opened LedgerSpec
  import opened LedgerRuns
  import opened LedgerAdmission
  import opened LedgerUsage

  // ---- Parts of a day ----

  lemma {:induction false} AddedIsMonotone<K>(less: map<K, Amounts>, more: map<K, Amounts>)
    requires forall k :: k in less ==> k in more && less[k] == more[k]
    ensures AtMost(Added(less), Added(more))
    decreases |less|
  {
    hide Added;
    if |less| == 0 {
      AddedOfNone(less);
    } else {
      var k :| k in less;
      AddedSplits(less, k);
      AddedSplits(more, k);
      AddedIsMonotone(less - {k}, more - {k});
    }
  }

  lemma BothSums(a: Amounts, b: Amounts, a': Amounts, b': Amounts)
    requires AtMost(a, a') && AtMost(b, b')
    ensures AtMost(Plus(a, b), Plus(a', b'))
  {
  }

  lemma FewerAreUsedLess(s: LedgerState, mine: Reservation -> bool, imported: LegacyImport -> bool,
                         mine': Reservation -> bool, imported': LegacyImport -> bool)
    requires forall r :: mine(r) ==> mine'(r)
    requires forall v :: imported(v) ==> imported'(v)
    ensures AtMost(Used(s, mine, imported), Used(s, mine', imported'))
  {
    hide Added;
    hide Charge;
    hide Plus;
    AddedIsMonotone(Charges(s, mine), Charges(s, mine'));
    AddedIsMonotone(ImportedCharges(s, imported), ImportedCharges(s, imported'));
    BothSums(Added(Charges(s, mine)), Added(ImportedCharges(s, imported)), Added(Charges(s, mine')),
             Added(ImportedCharges(s, imported')));
  }

  lemma PartsOfDay(s: LedgerState, day: int, caseId: string, provider: string, trigger: Trigger, c: AccountingClass)
    ensures AtMost(CaseUsed(s, caseId, day), DayUsed(s, day))
    ensures AtMost(ProviderUsed(s, provider, day), DayUsed(s, day))
    ensures AtMost(TriggerUsed(s, trigger, day), DayUsed(s, day))
    ensures AtMost(ClassUsed(s, c, day), DayUsed(s, day))
  {
    hide Used;
    hide AtMost;
    var mine := (r: Reservation) => r.reservedAtMs / DAY_MILLIS == day;
    var imported := (v: LegacyImport) => v.observedAtMs / DAY_MILLIS == day;
    FewerAreUsedLess(s, (r: Reservation) => r.caseId == caseId && r.reservedAtMs / DAY_MILLIS == day,
                     (v: LegacyImport) => v.caseId == caseId && v.observedAtMs / DAY_MILLIS == day, mine, imported);
    FewerAreUsedLess(s, (r: Reservation) => r.providerFamily == provider && r.reservedAtMs / DAY_MILLIS == day,
                     (v: LegacyImport) => v.providerFamily == provider && v.observedAtMs / DAY_MILLIS == day,
                     mine, imported);
    FewerAreUsedLess(s, (r: Reservation) => r.trigger == trigger && r.reservedAtMs / DAY_MILLIS == day,
                     (v: LegacyImport) => v.trigger == trigger && v.observedAtMs / DAY_MILLIS == day, mine, imported);
    FewerAreUsedLess(s, (r: Reservation) => r.accountingClass == c && r.reservedAtMs / DAY_MILLIS == day,
                     (v: LegacyImport) => v.accountingClass == c && v.observedAtMs / DAY_MILLIS == day,
                     mine, imported);
  }

  // ---- The decision table ----

  /** Where the policy has the entries for a request. A manual request needs none for its trigger. */
  datatype Entries = Entries(perCase: nat, perProvider: nat, perTrigger: Option<nat>)

  ghost predicate EntriesFor(p: Policy, request: Request, e: Entries) {
    && e.perCase < |p.perCase| && p.perCase[e.perCase].id == request.caseId
    && e.perProvider < |p.perProvider| && p.perProvider[e.perProvider].id == request.providerFamily
    && (e.perTrigger.Some? <==> request.budgetAuthority.StandingBudget?)
    && (e.perTrigger.Some? ==>
          && e.perTrigger.value < |p.perTriggerPool|
          && p.perTriggerPool[e.perTrigger.value].trigger == request.identities.trigger)
  }

  /** Some record was made, settled or observed after a time. */
  ghost predicate FromTheFuture(s: LedgerState, nowMs: int) {
    || (exists id :: id in s.reservations && s.reservations[id].record.reservedAtMs > nowMs)
    || (exists id :: id in s.reservations && s.reservations[id].reconciliation.Some?
                     && s.reservations[id].reconciliation.value.reconciledAtMs > nowMs)
    || (exists id :: id in s.imports && s.imports[id].observedAtMs > nowMs)
  }

  predicate Over(used: Amounts, reserve: Amounts, cap: Amounts) {
    !AtMost(Plus(used, reserve), cap)
  }

  function PoolRefusal(c: AccountingClass): Refusal {
    match c
    case CharacterizationClass => CharacterizationExhausted
    case ScheduledClass => ProtectedScheduledExhausted
    case TestMergeClass => ProtectedTestMergeExhausted
    case ManualClass => ManualUnallocatedExhausted
  }

  /**
   * The answer to a request that was not seen before. Only the sums of the day and of the window can overflow:
   * what passes the day is too small to.
   */
  ghost function Verdict(s: LedgerState, p: Policy, request: Request, nowMs: int, e: Entries): Option<LedgerError>
    requires EntriesFor(p, request, e)
  {
    var day, reserve, c := nowMs / DAY_MILLIS, FromCaps(request.identities.actualCaps), request.accountingClass;
    if FromTheFuture(s, nowMs) then Some(Refused(ClockRollback))
    else if !Representable(Plus(DayUsed(s, day), reserve)) then Some(InvalidRequest)
    else if Over(DayUsed(s, day), reserve, p.utcDay) then Some(Refused(UtcDayExhausted))
    else if !Representable(Plus(WindowUsed(s, nowMs), reserve)) then Some(InvalidRequest)
    else if Over(WindowUsed(s, nowMs), reserve, p.rolling24h) then Some(Refused(Rolling24hExhausted))
    else if Over(CaseUsed(s, request.caseId, day), reserve, p.perCase[e.perCase].caps)
      then Some(Refused(PerCaseExhausted))
    else if Over(ProviderUsed(s, request.providerFamily, day), reserve, p.perProvider[e.perProvider].caps)
      then Some(Refused(PerProviderExhausted))
    else if e.perTrigger.Some?
            && Over(TriggerUsed(s, request.identities.trigger, day), reserve, p.perTriggerPool[e.perTrigger.value].caps)
      then Some(Refused(PerTriggerExhausted))
    else if || (c == ScheduledClass && Over(ClassUsed(s, c, day), reserve, p.protectedScheduled))
            || (c == TestMergeClass && Over(ClassUsed(s, c, day), reserve, p.protectedTestMerge))
            || (c == ManualClass && Over(ClassUsed(s, c, day), reserve, p.manualUnallocated))
      then Some(Refused(PoolRefusal(c)))
    else None
  }

  lemma FailureStep(s: LedgerState, first: Check, rest: seq<Check>, reserve: Amounts)
    ensures var total := Plus(Total(s, first.scope), reserve);
            FirstFailure(s, [first] + rest, reserve)
            == if !Representable(total) then Some(InvalidRequest)
               else if !AtMost(total, first.cap) then Some(Refused(first.refusal))
               else FirstFailure(s, rest, reserve)
  {
    hide Total;
    hide Representable;
    hide AtMost;
    hide Plus;
    assert ([first] + rest)[1..] == rest;
  }

  /** A check of a part of the day cannot overflow once the day does not. */
  lemma PartStep(s: LedgerState, first: Check, rest: seq<Check>, reserve: Amounts, used: Amounts, day: Amounts)
    requires Total(s, first.scope) == used && AtMost(used, day) && Representable(Plus(day, reserve))
    ensures FirstFailure(s, [first] + rest, reserve)
         == if Over(used, reserve, first.cap) then Some(Refused(first.refusal)) else FirstFailure(s, rest, reserve)
  {
    hide Total;
    hide FirstFailure;
    FailureStep(s, first, rest, reserve);
  }

  lemma LimitsOfEntries(p: Policy, request: Request, nowMs: int, e: Entries)
    requires SharesPolicy(request, p) && RequestRecord(request, nowMs).Some? && EntriesFor(p, request, e)
    ensures LimitsFor(request).Some?
    ensures var limits := LimitsFor(request).value;
            && limits.utcDay == p.utcDay && limits.rolling24h == p.rolling24h
            && limits.perCase == p.perCase[e.perCase].caps && limits.perProvider == p.perProvider[e.perProvider].caps
            && limits.perTrigger
               == (if e.perTrigger.Some? then Some(p.perTriggerPool[e.perTrigger.value].caps) else None)
            && PoolOf(p, request.accountingClass) == Some(limits.classPool)
            && limits.classRefusal == PoolRefusal(request.accountingClass)
  {
    hide UtcDayId;
    SharedPolicyIsValid(request, nowMs, p);
    NamesAreDistinct(p);
    hide ValidPolicy;
    hide StableId;
    hide ValidReservation;
    FindNamedAt(p.perCase, e.perCase);
    FindNamedAt(p.perProvider, e.perProvider);
    if e.perTrigger.Some? {
      FindTriggerAt(p.perTriggerPool, e.perTrigger.value);
    }
    hide FindNamed;
    hide FindTrigger;
  }

  lemma NamesAreDistinct(p: Policy)
    requires ValidPolicy(p)
    ensures forall j, k :: 0 <= j < k < |p.perCase| ==> p.perCase[j].id != p.perCase[k].id
    ensures forall j, k :: 0 <= j < k < |p.perProvider| ==> p.perProvider[j].id != p.perProvider[k].id
    ensures forall j, k :: 0 <= j < k < |p.perTriggerPool| ==>
              p.perTriggerPool[j].trigger != p.perTriggerPool[k].trigger
  {
    hide StableId;
    hide ValidAggregateCaps;
  }

  lemma RecordOfRequest(request: Request, nowMs: int)
    requires RequestRecord(request, nowMs).Some?
    ensures var r := RequestRecord(request, nowMs).value;
            && r.caseId == request.caseId && r.providerFamily == request.providerFamily
            && r.trigger == request.identities.trigger && r.accountingClass == request.accountingClass
            && r.caps == request.identities.actualCaps && r.reservedAtMs == nowMs
            && UtcDayId(nowMs) == Ok(r.utcDayId)
            && r.reservationId == ReservationId(request.identities.attemptKey)
  {
    hide UtcDayId;
    hide StableId;
    hide LimitsFor;
    hide ValidReservation;
  }

  /** The checks behind the limits, one after the other. */
  lemma ChecksInOrder(limits: Limits, r: Reservation) returns (tail: seq<Check>)
    ensures tail == (if limits.perTrigger.Some?
                     then [Check(TriggerOnDay(r.trigger, r.utcDayId), limits.perTrigger.value, PerTriggerExhausted)]
                     else [])
                    + [Check(ClassOnDay(r.accountingClass, r.utcDayId), limits.classPool, limits.classRefusal)]
    ensures ChecksFor(limits, r)
         == [Check(OnDay(r.utcDayId), limits.utcDay, UtcDayExhausted)]
            + ([Check(Rolling(r.reservedAtMs), limits.rolling24h, Rolling24hExhausted)]
               + ([Check(CaseOnDay(r.caseId, r.utcDayId), limits.perCase, PerCaseExhausted)]
                  + ([Check(ProviderOnDay(r.providerFamily, r.utcDayId), limits.perProvider, PerProviderExhausted)]
                     + tail)))
  {
    tail := (if limits.perTrigger.Some?
             then [Check(TriggerOnDay(r.trigger, r.utcDayId), limits.perTrigger.value, PerTriggerExhausted)]
             else [])
            + [Check(ClassOnDay(r.accountingClass, r.utcDayId), limits.classPool, limits.classRefusal)];
  }

  lemma NoMoreChecks(s: LedgerState, reserve: Amounts)
    ensures FirstFailure(s, [], reserve).None?
  {
  }

  /** The last two checks, of the trigger if there is one and of the pool. */
  lemma TailVerdict(s: LedgerState, limits: Limits, r: Reservation, tail: seq<Check>, reserve: Amounts, day: Amounts,
                    trigger: Amounts, pool: Amounts)
    requires tail == (if limits.perTrigger.Some?
                      then [Check(TriggerOnDay(r.trigger, r.utcDayId), limits.perTrigger.value, PerTriggerExhausted)]
                      else [])
                     + [Check(ClassOnDay(r.accountingClass, r.utcDayId), limits.classPool, limits.classRefusal)]
    requires Total(s, TriggerOnDay(r.trigger, r.utcDayId)) == trigger && AtMost(trigger, day)
    requires Total(s, ClassOnDay(r.accountingClass, r.utcDayId)) == pool && AtMost(pool, day)
    requires Representable(Plus(day, reserve))
    ensures FirstFailure(s, tail, reserve)
         == if limits.perTrigger.Some? && Over(trigger, reserve, limits.perTrigger.value)
              then Some(Refused(PerTriggerExhausted))
            else if Over(pool, reserve, limits.classPool) then Some(Refused(limits.classRefusal))
            else None
  {
    hide *;
    var last := Check(ClassOnDay(r.accountingClass, r.utcDayId), limits.classPool, limits.classRefusal);
    NoMoreChecks(s, reserve);
    assert [last] + [] == [last];
    PartStep(s, last, [], reserve, pool, day);
    if limits.perTrigger.Some? {
      var first := Check(TriggerOnDay(r.trigger, r.utcDayId), limits.perTrigger.value, PerTriggerExhausted);
      assert tail == [first] + [last];
      PartStep(s, first, [last], reserve, trigger, day);
    } else {
      assert tail == [last];
    }
  }

  /** The sums a request is measured against. */
  datatype Sums = Sums(day: Amounts, window: Amounts, ofCase: Amounts, ofProvider: Amounts, ofTrigger: Amounts,
                       ofClass: Amounts)

  ghost function SumsFor(s: LedgerState, request: Request, nowMs: int): Sums {
    var day := nowMs / DAY_MILLIS;
    Sums(DayUsed(s, day), WindowUsed(s, nowMs), CaseUsed(s, request.caseId, day),
         ProviderUsed(s, request.providerFamily, day), TriggerUsed(s, request.identities.trigger, day),
         ClassUsed(s, request.accountingClass, day))
  }

  lemma TotalsAreSums(s: LedgerState, request: Request, nowMs: int)
    requires WellFormed(s) && RequestRecord(request, nowMs).Some?
    ensures var r, sums := RequestRecord(request, nowMs).value, SumsFor(s, request, nowMs);
            && Total(s, OnDay(r.utcDayId)) == sums.day && Total(s, Rolling(r.reservedAtMs)) == sums.window
            && Total(s, CaseOnDay(r.caseId, r.utcDayId)) == sums.ofCase
            && Total(s, ProviderOnDay(r.providerFamily, r.utcDayId)) == sums.ofProvider
            && Total(s, TriggerOnDay(r.trigger, r.utcDayId)) == sums.ofTrigger
            && Total(s, ClassOnDay(r.accountingClass, r.utcDayId)) == sums.ofClass
            && AtMost(sums.ofCase, sums.day) && AtMost(sums.ofProvider, sums.day)
            && AtMost(sums.ofTrigger, sums.day) && AtMost(sums.ofClass, sums.day)
  {
    RecordOfRequest(request, nowMs);
    hide RequestRecord;
    hide UtcDayId;
    hide WellFormed;
    hide Total;
    hide DayUsed;
    hide WindowUsed;
    hide CaseUsed;
    hide ProviderUsed;
    hide TriggerUsed;
    hide ClassUsed;
    hide AtMost;
    var day := RequestRecord(request, nowMs).value.utcDayId;
    DayTotal(s, nowMs, day);
    WindowTotal(s, nowMs);
    CaseTotal(s, request.caseId, nowMs, day);
    ProviderTotal(s, request.providerFamily, nowMs, day);
    TriggerTotal(s, request.identities.trigger, nowMs, day);
    ClassTotal(s, request.accountingClass, nowMs, day);
    PartsOfDay(s, nowMs / DAY_MILLIS, request.caseId, request.providerFamily, request.identities.trigger,
               request.accountingClass);
  }

  /** The answer in terms of limits and sums. */
  function Measured(limits: Limits, sums: Sums, reserve: Amounts): Option<LedgerError> {
    if !Representable(Plus(sums.day, reserve)) then Some(InvalidRequest)
    else if Over(sums.day, reserve, limits.utcDay) then Some(Refused(UtcDayExhausted))
    else if !Representable(Plus(sums.window, reserve)) then Some(InvalidRequest)
    else if Over(sums.window, reserve, limits.rolling24h) then Some(Refused(Rolling24hExhausted))
    else if Over(sums.ofCase, reserve, limits.perCase) then Some(Refused(PerCaseExhausted))
    else if Over(sums.ofProvider, reserve, limits.perProvider) then Some(Refused(PerProviderExhausted))
    else if limits.perTrigger.Some? && Over(sums.ofTrigger, reserve, limits.perTrigger.value)
      then Some(Refused(PerTriggerExhausted))
    else if Over(sums.ofClass, reserve, limits.classPool) then Some(Refused(limits.classRefusal))
    else None
  }

  lemma OverMeans(used: Amounts, reserve: Amounts, cap: Amounts)
    ensures Over(used, reserve, cap) <==> !AtMost(Plus(used, reserve), cap)
  {
  }

  lemma MeasuredUnfolds(limits: Limits, sums: Sums, reserve: Amounts)
    ensures !Representable(Plus(sums.day, reserve)) ==> Measured(limits, sums, reserve) == Some(InvalidRequest)
    ensures Representable(Plus(sums.day, reserve)) ==>
              Measured(limits, sums, reserve)
              == if Over(sums.day, reserve, limits.utcDay) then Some(Refused(UtcDayExhausted))
                 else if !Representable(Plus(sums.window, reserve)) then Some(InvalidRequest)
                 else if Over(sums.window, reserve, limits.rolling24h) then Some(Refused(Rolling24hExhausted))
                 else if Over(sums.ofCase, reserve, limits.perCase) then Some(Refused(PerCaseExhausted))
                 else if Over(sums.ofProvider, reserve, limits.perProvider) then Some(Refused(PerProviderExhausted))
                 else if limits.perTrigger.Some? && Over(sums.ofTrigger, reserve, limits.perTrigger.value)
                   then Some(Refused(PerTriggerExhausted))
                 else if Over(sums.ofClass, reserve, limits.classPool) then Some(Refused(limits.classRefusal))
                 else None
  {
    hide Over;
    hide Representable;
    hide Plus;
  }

  lemma ChecksMeasure(s: LedgerState, limits: Limits, r: Reservation, sums: Sums, reserve: Amounts)
    requires Total(s, OnDay(r.utcDayId)) == sums.day && Total(s, Rolling(r.reservedAtMs)) == sums.window
    requires Total(s, CaseOnDay(r.caseId, r.utcDayId)) == sums.ofCase
    requires Total(s, ProviderOnDay(r.providerFamily, r.utcDayId)) == sums.ofProvider
    requires Total(s, TriggerOnDay(r.trigger, r.utcDayId)) == sums.ofTrigger
    requires Total(s, ClassOnDay(r.accountingClass, r.utcDayId)) == sums.ofClass
    requires AtMost(sums.ofCase, sums.day) && AtMost(sums.ofProvider, sums.day)
    requires AtMost(sums.ofTrigger, sums.day) && AtMost(sums.ofClass, sums.day)
    ensures FirstFailure(s, ChecksFor(limits, r), reserve) == Measured(limits, sums, reserve)
  {
    hide *;
    var tail := ChecksInOrder(limits, r);
    var ofCase := Check(CaseOnDay(r.caseId, r.utcDayId), limits.perCase, PerCaseExhausted);
    var ofProvider := Check(ProviderOnDay(r.providerFamily, r.utcDayId), limits.perProvider, PerProviderExhausted);
    var window := Check(Rolling(r.reservedAtMs), limits.rolling24h, Rolling24hExhausted);
    var day := Check(OnDay(r.utcDayId), limits.utcDay, UtcDayExhausted);
    FailureStep(s, day, [window] + ([ofCase] + ([ofProvider] + tail)), reserve);
    FailureStep(s, window, [ofCase] + ([ofProvider] + tail), reserve);
    OverMeans(sums.day, reserve, limits.utcDay);
    OverMeans(sums.window, reserve, limits.rolling24h);
    if Representable(Plus(sums.day, reserve)) {
      PartStep(s, ofCase, [ofProvider] + tail, reserve, sums.ofCase, sums.day);
      PartStep(s, ofProvider, tail, reserve, sums.ofProvider, sums.day);
      TailVerdict(s, limits, r, tail, reserve, sums.day, sums.ofTrigger, sums.ofClass);
    }
    MeasuredUnfolds(limits, sums, reserve);
  }

  lemma RollbackMeans(s: LedgerState, nowMs: int)
    ensures ClockRolledBack(s, nowMs) <==> FromTheFuture(s, nowMs)
  {
  }

  lemma HeadroomMeasures(s: LedgerState, request: Request, nowMs: int)
    requires WellFormed(s) && RequestRecord(request, nowMs).Some? && LimitsFor(request).Some?
    requires ReservationId(request.identities.attemptKey) !in s.reservations
    ensures Headroom(s, request, nowMs)
         == if FromTheFuture(s, nowMs) then Some(Refused(ClockRollback))
            else Measured(LimitsFor(request).value, SumsFor(s, request, nowMs),
                          FromCaps(request.identities.actualCaps))
  {
    hide *;
    RecordOfRequest(request, nowMs);
    RollbackMeans(s, nowMs);
    var r := RequestRecord(request, nowMs).value;
    if FromTheFuture(s, nowMs) {
      RefusesRollback(s, request, nowMs);
    } else {
      HeadroomOfNew(s, request, nowMs);
      TotalsAreSums(s, request, nowMs);
      ChecksMeasure(s, LimitsFor(request).value, r, SumsFor(s, request, nowMs), FromCaps(r.caps));
    }
  }

  lemma RefusesRollback(s: LedgerState, request: Request, nowMs: int)
    requires RequestRecord(request, nowMs).Some? && ClockRolledBack(s, nowMs)
    requires RequestRecord(request, nowMs).value.reservationId !in s.reservations
    ensures Headroom(s, request, nowMs) == Some(Refused(ClockRollback))
  {
    hide RequestRecord;
    hide ClockRolledBack;
  }

  lemma VerdictMeasures(s: LedgerState, p: Policy, request: Request, nowMs: int, e: Entries, limits: Limits)
    requires EntriesFor(p, request, e) && !FromTheFuture(s, nowMs)
    requires limits.utcDay == p.utcDay && limits.rolling24h == p.rolling24h
    requires limits.perCase == p.perCase[e.perCase].caps && limits.perProvider == p.perProvider[e.perProvider].caps
    requires limits.perTrigger
          == if e.perTrigger.Some? then Some(p.perTriggerPool[e.perTrigger.value].caps) else None
    requires PoolOf(p, request.accountingClass) == Some(limits.classPool)
    requires limits.classRefusal == PoolRefusal(request.accountingClass)
    ensures Verdict(s, p, request, nowMs, e)
         == Measured(limits, SumsFor(s, request, nowMs), FromCaps(request.identities.actualCaps))
  {
    hide Over;
    hide Representable;
    hide Plus;
    hide FromCaps;
    hide FromTheFuture;
    hide DayUsed;
    hide WindowUsed;
    hide CaseUsed;
    hide ProviderUsed;
    hide TriggerUsed;
    hide ClassUsed;
    hide PoolRefusal;
  }

  /**
   * A new standing or manual request is answered as the table says, in every well-formed ledger. In particular
   * it is refused for its case, provider, trigger or pool exactly when all earlier lines have room and the charges
   * of that case, provider, trigger or class on the day, with its own caps on top, exceed the policy's entry.
   */
  lemma AnswersByTheTable(s: LedgerState, p: Policy, request: Request, nowMs: int, e: Entries)
    requires WellFormed(s) && SharesPolicy(request, p) && RequestRecord(request, nowMs).Some?
    requires ReservationId(request.identities.attemptKey) !in s.reservations && EntriesFor(p, request, e)
    ensures Headroom(s, request, nowMs) == Verdict(s, p, request, nowMs, e)
  {
    LimitsOfEntries(p, request, nowMs, e);
    assert FromTheFuture(s, nowMs) ==> Verdict(s, p, request, nowMs, e) == Some(Refused(ClockRollback));
    hide *;
    HeadroomMeasures(s, request, nowMs);
    if !FromTheFuture(s, nowMs) {
      VerdictMeasures(s, p, request, nowMs, e, LimitsFor(request).value);
    }
  }

  /** Every valid request finds its entries. */
  lemma EntriesExist(p: Policy, request: Request, nowMs: int) returns (e: Entries)
    requires SharesPolicy(request, p) && RequestRecord(request, nowMs).Some?
    ensures EntriesFor(p, request, e)
  {
    hide UtcDayId;
    hide StableId;
    hide ValidPolicy;
    hide ValidReservation;
    FindNamedIndex(p.perCase, request.caseId);
    FindNamedIndex(p.perProvider, request.providerFamily);
    FindTriggerIndex(p.perTriggerPool, request.identities.trigger);
    hide FindNamed;
    hide FindTrigger;
    var i :| 0 <= i < |p.perCase| && p.perCase[i].id == request.caseId;
    var j :| 0 <= j < |p.perProvider| && p.perProvider[j].id == request.providerFamily;
    var k := None;
    if request.budgetAuthority.StandingBudget? {
      var t :| 0 <= t < |p.perTriggerPool| && p.perTriggerPool[t].trigger == request.identities.trigger;
      k := Some(t);
    }
    e := Entries(i, j, k);
  }

  /** The lines of the table for a case, a provider and a trigger, each on its own. */
  lemma RefusedForItsEntryExactly(s: LedgerState, p: Policy, request: Request, nowMs: int, e: Entries)
    requires WellFormed(s) && SharesPolicy(request, p) && RequestRecord(request, nowMs).Some?
    requires ReservationId(request.identities.attemptKey) !in s.reservations && EntriesFor(p, request, e)
    requires Headroom(s, request, nowMs) != Some(Refused(ClockRollback))
    requires Headroom(s, request, nowMs) != Some(Refused(UtcDayExhausted))
    requires Headroom(s, request, nowMs) != Some(Refused(Rolling24hExhausted))
    requires Headroom(s, request, nowMs) != Some(InvalidRequest)
    ensures var day, reserve := nowMs / DAY_MILLIS, FromCaps(request.identities.actualCaps);
            var overCase := Over(CaseUsed(s, request.caseId, day), reserve, p.perCase[e.perCase].caps);
            var overProvider := Over(ProviderUsed(s, request.providerFamily, day), reserve,
                                     p.perProvider[e.perProvider].caps);
            var overTrigger := e.perTrigger.Some?
                               && Over(TriggerUsed(s, request.identities.trigger, day), reserve,
                                       p.perTriggerPool[e.perTrigger.value].caps);
            && (Headroom(s, request, nowMs) == Some(Refused(PerCaseExhausted)) <==> overCase)
            && (Headroom(s, request, nowMs) == Some(Refused(PerProviderExhausted)) <==> !overCase && overProvider)
            && (Headroom(s, request, nowMs) == Some(Refused(PerTriggerExhausted))
                <==> !overCase && !overProvider && overTrigger)
  {
    hide *;
    AnswersByTheTable(s, p, request, nowMs, e);
    VerdictOfEntries(s, p, request, nowMs, e);
  }

  lemma VerdictOfEntries(s: LedgerState, p: Policy, request: Request, nowMs: int, e: Entries)
    requires EntriesFor(p, request, e)
    ensures var answer := Verdict(s, p, request, nowMs, e);
            var day, reserve := nowMs / DAY_MILLIS, FromCaps(request.identities.actualCaps);
            var overCase := Over(CaseUsed(s, request.caseId, day), reserve, p.perCase[e.perCase].caps);
            var overProvider := Over(ProviderUsed(s, request.providerFamily, day), reserve,
                                     p.perProvider[e.perProvider].caps);
            var overTrigger := e.perTrigger.Some?
                               && Over(TriggerUsed(s, request.identities.trigger, day), reserve,
                                       p.perTriggerPool[e.perTrigger.value].caps);
            || answer == Some(Refused(ClockRollback)) || answer == Some(Refused(UtcDayExhausted))
            || answer == Some(Refused(Rolling24hExhausted)) || answer == Some(InvalidRequest)
            || (&& (answer == Some(Refused(PerCaseExhausted)) <==> overCase)
                && (answer == Some(Refused(PerProviderExhausted)) <==> !overCase && overProvider)
                && (answer == Some(Refused(PerTriggerExhausted)) <==> !overCase && !overProvider && overTrigger))
  {
    hide Over;
    hide Representable;
    hide Plus;
    hide FromCaps;
    hide FromTheFuture;
    hide DayUsed;
    hide WindowUsed;
    hide CaseUsed;
    hide ProviderUsed;
    hide TriggerUsed;
    hide ClassUsed;
  }

  // ---- One-shot characterizations ----

  lemma OwnCap(used: Amounts, own: Amounts)
    ensures Over(used, own, own) <==> used != NOTHING
  {
  }

  lemma PartOfNothing(part: Amounts)
    requires AtMost(part, NOTHING)
    ensures part == NOTHING
  {
  }

  lemma OneShotLimits(request: Request, nowMs: int)
    requires RequestRecord(request, nowMs).Some? && request.budgetAuthority.CharacterizationBudget?
    ensures LimitsFor(request).Some?
    ensures var limits, own := LimitsFor(request).value, FromCaps(request.identities.actualCaps);
            && limits.utcDay == own && limits.rolling24h == own && limits.perCase == own && limits.perProvider == own
            && limits.perTrigger == Some(own) && limits.classPool == own
            && Representable(own) && Representable(Plus(NOTHING, own))
  {
    hide UtcDayId;
    hide StableId;
    hide ValidReservation;
  }

  /**
   * A new characterization is admitted exactly when nothing is charged to its day or to the last 24 hours, whatever
   * its case, provider or size; and it is refused for the first of the two that is not empty.
   */
  lemma OneShotAdmittedExactly(s: LedgerState, request: Request, nowMs: int)
    requires WellFormed(s) && RequestRecord(request, nowMs).Some?
    requires request.budgetAuthority.CharacterizationBudget?
    requires ReservationId(request.identities.attemptKey) !in s.reservations
    ensures var day, window := DayUsed(s, nowMs / DAY_MILLIS), WindowUsed(s, nowMs);
            var own, answer := FromCaps(request.identities.actualCaps), Headroom(s, request, nowMs);
            && (answer.None? <==> !FromTheFuture(s, nowMs) && day == NOTHING && window == NOTHING)
            && (!FromTheFuture(s, nowMs) && day != NOTHING && Representable(Plus(day, own)) ==>
                  answer == Some(Refused(UtcDayExhausted)))
            && (!FromTheFuture(s, nowMs) && day == NOTHING && window != NOTHING && Representable(Plus(window, own)) ==>
                  answer == Some(Refused(Rolling24hExhausted)))
  {
    var sums, own := SumsFor(s, request, nowMs), FromCaps(request.identities.actualCaps);
    assert sums.day == DayUsed(s, nowMs / DAY_MILLIS) && sums.window == WindowUsed(s, nowMs);
    hide *;
    OneShotLimits(request, nowMs);
    HeadroomMeasures(s, request, nowMs);
    TotalsAreSums(s, request, nowMs);
    MeasuredUnfolds(LimitsFor(request).value, sums, own);
    OwnCap(sums.day, own);
    OwnCap(sums.window, own);
    OwnCap(sums.ofCase, own);
    OwnCap(sums.ofProvider, own);
    OwnCap(sums.ofTrigger, own);
    OwnCap(sums.ofClass, own);
    if sums.day == NOTHING {
      PartOfNothing(sums.ofCase);
      PartOfNothing(sums.ofProvider);
      PartOfNothing(sums.ofTrigger);
      PartOfNothing(sums.ofClass);
    }
  }

  // ---- Which requests are valid, and what is recorded of them ----

  /** The triggers each class of a standing grant is for. */
  const STANDING_TRIGGERS := {(ScheduledClass, Daily), (ScheduledClass, ScheduledMain), (TestMergeClass, TestMerge)}

  ghost predicate NamesCase(p: Policy, caseId: string) {
    exists i :: 0 <= i < |p.perCase| && p.perCase[i].id == caseId
  }

  ghost predicate NamesProvider(p: Policy, provider: string) {
    exists i :: 0 <= i < |p.perProvider| && p.perProvider[i].id == provider
  }

  ghost predicate NamesTrigger(p: Policy, trigger: Trigger) {
    exists i :: 0 <= i < |p.perTriggerPool| && p.perTriggerPool[i].trigger == trigger
  }

  /** The authority, class and trigger of a request belong together, and its budget covers what it asks for. */
  ghost predicate Entitled(request: Request) {
    var ids, c := request.identities, request.accountingClass;
    match request.budgetAuthority
    case CharacterizationBudget(entry, caseId, provider, caps) =>
      && ids.authority == CharacterizationOnce(entry) && c == CharacterizationClass
      && ids.trigger == ManualCharacterization && request.caseId == caseId && request.providerFamily == provider
      && ids.actualCaps == caps
    case StandingBudget(grant, p) =>
      && ids.authority == StandingGrant(grant) && (c, ids.trigger) in STANDING_TRIGGERS && ValidPolicy(p)
      && NamesCase(p, request.caseId) && NamesProvider(p, request.providerFamily) && NamesTrigger(p, ids.trigger)
    case ManualBudget(admission, _, p) =>
      && ids.authority == ManualAcknowledgement(admission) && c == ManualClass && ids.trigger == ManualCompatibility
      && ValidPolicy(p) && NamesCase(p, request.caseId) && NamesProvider(p, request.providerFamily)
  }

  ghost predicate WellPosed(request: Request) {
    var ids := request.identities;
    && StableId(request.caseId) && StableId(request.providerFamily) && ValidEffectCaps(ids.actualCaps)
    && ids.attemptKey == AttemptKey(ids.admissionAttempt, ids.repeatNonce)
    && ids.equivalentWorkKey == WorkKey(ids.caseExecution, ids.evidencePurpose, ids.freshnessBucket)
    && Entitled(request)
  }

  lemma LimitsExactly(request: Request)
    ensures LimitsFor(request).Some? <==> ValidEffectCaps(request.identities.actualCaps) && Entitled(request)
  {
    hide ValidPolicy;
    hide ValidEffectCaps;
    if request.budgetAuthority.StandingBudget? || request.budgetAuthority.ManualBudget? {
      var p := request.budgetAuthority.budgets;
      FindNamedIndex(p.perCase, request.caseId);
      FindNamedIndex(p.perProvider, request.providerFamily);
      FindTriggerIndex(p.perTriggerPool, request.identities.trigger);
    }
    hide FindNamed;
    hide FindTrigger;
  }

  lemma EntitledAgrees(request: Request)
    requires Entitled(request)
    ensures ClassAuthorityTriggerAgree(request.accountingClass, request.identities.authority,
                                       request.identities.trigger)
  {
    hide ValidPolicy;
    hide NamesCase;
    hide NamesProvider;
    hide NamesTrigger;
  }

  lemma RecordIs(request: Request, atMs: int)
    ensures var ids, r := request.identities, RequestRecord(request, atMs);
            r.Some? <==>
              && StableId(request.caseId) && StableId(request.providerFamily) && LimitsFor(request).Some?
              && UtcDayId(atMs).Ok? && ValidEffectCaps(ids.actualCaps)
              && ClassAuthorityTriggerAgree(request.accountingClass, ids.authority, ids.trigger)
              && ids.attemptKey == AttemptKey(ids.admissionAttempt, ids.repeatNonce)
              && ids.equivalentWorkKey == WorkKey(ids.caseExecution, ids.evidencePurpose, ids.freshnessBucket)
    ensures RequestRecord(request, atMs).Some? ==>
              var r := RequestRecord(request, atMs).value;
              RecordsRequest(r, request) && r.reservedAtMs == atMs && UtcDayId(atMs) == Ok(r.utcDayId)
  {
    hide UtcDayId;
    hide StableId;
    hide LimitsFor;
    hide ValidEffectCaps;
    hide ClassAuthorityTriggerAgree;
  }

  /** A request forms a record exactly when it is well posed and the time is one of the calendar. */
  lemma RecordsExactly(request: Request, atMs: int)
    ensures RequestRecord(request, atMs).Some? <==> WellPosed(request) && 0 < atMs < (LAST_DAY + 1) * DAY_MILLIS
    ensures RequestRecord(request, atMs).Some? ==> RecordsRequest(RequestRecord(request, atMs).value, request)
    ensures RequestRecord(request, atMs).Some? ==>
              var r := RequestRecord(request, atMs).value; r.reservedAtMs == atMs && UtcDayId(atMs) == Ok(r.utcDayId)
  {
    RecordIs(request, atMs);
    DayIdNamesTheDay(atMs);
    LimitsExactly(request);
    if Entitled(request) {
      EntitledAgrees(request);
    }
    hide RequestRecord;
    hide UtcDayId;
    hide StableId;
    hide LimitsFor;
    hide Entitled;
    hide ValidEffectCaps;
    hide ClassAuthorityTriggerAgree;
    hide RecordsRequest;
  }

  /** Everything a request says is in its record. */
  predicate RecordsRequest(r: Reservation, request: Request) {
    var ids := request.identities;
    && r.reservationId == ReservationId(ids.attemptKey) && r.attemptKey == ids.attemptKey
    && r.accountingClass == request.accountingClass && r.caseId == request.caseId
    && r.providerFamily == request.providerFamily && r.trigger == ids.trigger
    && r.accountingPolicy == request.budgetAuthority
    && r.characterizationProfile == ids.characterizationProfile && r.caseExecution == ids.caseExecution
    && r.admissionAttempt == ids.admissionAttempt && r.authority == ids.authority
    && r.equivalentWorkKey == ids.equivalentWorkKey && r.evidencePurpose == ids.evidencePurpose
    && r.freshnessBucket == ids.freshnessBucket && r.repeatNonce == ids.repeatNonce && r.caps == ids.actualCaps
  }

  /**
   * A request whose attempt is already recorded is let through exactly when the record says what the request says;
   * a changed one is refused as invalid. Budgets, clock and time play no part.
   */
  lemma ReplaysExactly(s: LedgerState, request: Request, nowMs: int)
    requires WellFormed(s) && RequestRecord(request, nowMs).Some?
    requires ReservationId(request.identities.attemptKey) in s.reservations
    ensures var r := s.reservations[ReservationId(request.identities.attemptKey)].record;
            Headroom(s, request, nowMs) == if RecordsRequest(r, request) then None else Some(InvalidRequest)
  {
    var id := ReservationId(request.identities.attemptKey);
    var r := s.reservations[id].record;
    assert SoundReservation(id, s.reservations[id]);
    hide WellFormed;
    RecordsExactly(request, nowMs);
    RecordsExactly(request, r.reservedAtMs);
    StoredTimeIsInCalendar(r);
    MatchesExactly(r, request);
    hide UtcDayId;
    hide RequestRecord;
    hide WellPosed;
    hide ValidReservation;
    hide ExistingMatchesRequest;
    hide ClockRolledBack;
    hide FirstFailure;
  }

  lemma StoredTimeIsInCalendar(r: Reservation)
    requires ValidReservation(r)
    ensures 0 < r.reservedAtMs < (LAST_DAY + 1) * DAY_MILLIS && UtcDayId(r.reservedAtMs) == Ok(r.utcDayId)
    ensures r.rollingWindowId == r.reservedAtMs
  {
    DayIdNamesTheDay(r.reservedAtMs);
    hide UtcDayId;
    hide StableId;
  }

  lemma MatchesExactly(r: Reservation, request: Request)
    requires ValidReservation(r) && RequestRecord(request, r.reservedAtMs).Some?
    ensures ExistingMatchesRequest(r, request) <==> RecordsRequest(r, request)
  {
    RecordsExactly(request, r.reservedAtMs);
    hide UtcDayId;
    hide StableId;
    hide LimitsFor;
    hide ValidReservation;
    hide WellPosed;
  }
}

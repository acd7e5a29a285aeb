/** What the budgets measure, told from the records alone: sums of charges over named reservations and imports. */
module LedgerUsage {
  import opened Prelude
  import opened Budget
  import opened Calendar
  import opened LedgerRecords
  import opened Accounting
  import opened LedgerSpec
  import opened LedgerRuns

  // ---- Sums over records ----

  /** The sum of some amounts, whatever the order they are added in. */
  ghost function Added<K>(amounts: map<K, Amounts>): Amounts
    decreases |amounts|
  {
    if |amounts| == 0 then NOTHING
    else
      var k :| k in amounts;
      Plus(amounts[k], Added(amounts - {k}))
  }

  lemma AddedOfNone<K>(amounts: map<K, Amounts>)
    requires |amounts| == 0
    ensures Added(amounts) == NOTHING
  {
  }

  lemma {:induction false} AddedSplits<K>(amounts: map<K, Amounts>, k: K)
    requires k in amounts
    ensures Added(amounts) == Plus(amounts[k], Added(amounts - {k}))
    decreases |amounts|
  {
    hide Plus;
    var picked :| picked in amounts && Added(amounts) == Plus(amounts[picked], Added(amounts - {picked}));
    if picked != k {
      var neither := amounts - {picked} - {k};
      AddedSplits(amounts - {picked}, k);
      AddedSplits(amounts - {k}, picked);
      assert amounts - {k} - {picked} == neither;
      Exchange(amounts[picked], amounts[k], Added(neither));
    }
  }

  function Charges(s: LedgerState, mine: Reservation -> bool): map<ReservationId, Amounts> {
    map id | id in s.reservations && mine(s.reservations[id].record) :: Charge(s.reservations[id])
  }

  function ImportedCharges(s: LedgerState, imported: LegacyImport -> bool): map<ImportId, Amounts> {
    map id | id in s.imports && imported(s.imports[id]) :: s.imports[id].chargedUsage
  }

  /** What some reservations and some imports are charged together. */
  ghost function Used(s: LedgerState, mine: Reservation -> bool, imported: LegacyImport -> bool): Amounts {
    Plus(Added(Charges(s, mine)), Added(ImportedCharges(s, imported)))
  }

  ghost function DayUsed(s: LedgerState, day: int): Amounts {
    Used(s, (r: Reservation) => r.reservedAtMs / DAY_MILLIS == day,
         (v: LegacyImport) => v.observedAtMs / DAY_MILLIS == day)
  }

  /** Everything not older than 24 hours at a time, and everything later. */
  ghost function WindowUsed(s: LedgerState, nowMs: int): Amounts {
    Used(s, (r: Reservation) => nowMs - DAY_MILLIS < r.reservedAtMs,
         (v: LegacyImport) => nowMs - DAY_MILLIS < v.observedAtMs)
  }

  ghost function CaseUsed(s: LedgerState, caseId: string, day: int): Amounts {
    Used(s, (r: Reservation) => r.caseId == caseId && r.reservedAtMs / DAY_MILLIS == day,
         (v: LegacyImport) => v.caseId == caseId && v.observedAtMs / DAY_MILLIS == day)
  }

  ghost function ProviderUsed(s: LedgerState, provider: string, day: int): Amounts {
    Used(s, (r: Reservation) => r.providerFamily == provider && r.reservedAtMs / DAY_MILLIS == day,
         (v: LegacyImport) => v.providerFamily == provider && v.observedAtMs / DAY_MILLIS == day)
  }

  ghost function TriggerUsed(s: LedgerState, trigger: Trigger, day: int): Amounts {
    Used(s, (r: Reservation) => r.trigger == trigger && r.reservedAtMs / DAY_MILLIS == day,
         (v: LegacyImport) => v.trigger == trigger && v.observedAtMs / DAY_MILLIS == day)
  }

  ghost function ClassUsed(s: LedgerState, c: AccountingClass, day: int): Amounts {
    Used(s, (r: Reservation) => r.accountingClass == c && r.reservedAtMs / DAY_MILLIS == day,
         (v: LegacyImport) => v.accountingClass == c && v.observedAtMs / DAY_MILLIS == day)
  }

  /** What was admitted after one time and not after another. */
  ghost function IntervalUsed(s: LedgerState, afterMs: int, untilMs: int): Amounts {
    Used(s, (r: Reservation) => afterMs < r.reservedAtMs <= untilMs,
         (v: LegacyImport) => afterMs < v.observedAtMs <= untilMs)
  }

  // ---- The totals that admission computes are these sums ----

  lemma {:induction false} SumIsAdded<K>(entries: map<K, Entry>, scope: Scope, amounts: map<K, Amounts>)
    requires forall k :: k in amounts <==> k in entries && InScope(entries[k], scope)
    requires forall k :: k in amounts ==> amounts[k] == entries[k].charge
    ensures Sum(entries, scope) == Added(amounts)
    decreases |entries|
  {
    hide InScope;
    hide Sum;
    hide Added;
    hide Plus;
    if |entries| == 0 {
      SumOfNone(entries, scope);
      AddedOfNone(amounts);
    } else {
      var k :| k in entries;
      SumSplits(entries, scope, k);
      SumIsAdded(entries - {k}, scope, amounts - {k});
      if InScope(entries[k], scope) {
        AddedSplits(amounts, k);
      } else {
        assert amounts - {k} == amounts;
        PlusNothing(Added(amounts));
      }
    }
  }

  /** A scope that selects exactly some records has the sum of their charges as its total. */
  lemma TotalIsUsed(s: LedgerState, scope: Scope, mine: Reservation -> bool, imported: LegacyImport -> bool)
    requires forall id :: id in s.reservations ==>
               (InScope(EntryOf(s.reservations[id]), scope) <==> mine(s.reservations[id].record))
    requires forall id :: id in s.imports ==>
               (InScope(EntryOfImport(s.imports[id]), scope) <==> imported(s.imports[id]))
    ensures Total(s, scope) == Used(s, mine, imported)
  {
    hide InScope;
    hide Sum;
    hide Added;
    hide Plus;
    SumIsAdded(ReservationEntries(s), scope, Charges(s, mine));
    SumIsAdded(ImportEntries(s), scope, ImportedCharges(s, imported));
  }

  lemma LastDayEnds(atMs: int)
    ensures atMs < (LAST_DAY + 1) * DAY_MILLIS <==> atMs / DAY_MILLIS <= LAST_DAY
  {
  }

  lemma OnTheDay(atMs: int, nowMs: int, day: string)
    requires UtcDayId(nowMs) == Ok(day) && 0 < atMs
    ensures UtcDayId(atMs) == Ok(day) <==> atMs / DAY_MILLIS == nowMs / DAY_MILLIS
  {
    hide *;
    DayIdNamesTheDay(atMs);
    DayIdNamesTheDay(nowMs);
    LastDayEnds(atMs);
    LastDayEnds(nowMs);
    if UtcDayId(atMs).Ok? {
      SameDayId(atMs, nowMs);
    }
  }

  lemma TimesArePositive(s: LedgerState)
    requires WellFormed(s)
    ensures forall id :: id in s.reservations ==> UtcDayId(s.reservations[id].record.reservedAtMs).Ok?
    ensures forall id :: id in s.reservations ==> 0 < s.reservations[id].record.reservedAtMs
    ensures forall id :: id in s.imports ==> 0 < s.imports[id].observedAtMs
    ensures forall id :: id in s.imports ==>
              s.imports[id].rollingExpiresAtMs == SaturatingAddDay(s.imports[id].observedAtMs)
  {
    hide UtcDayId;
    hide StableId;
    hide ValidEffectCaps;
    hide ValidReconciliation;
    forall id | id in s.reservations
      ensures UtcDayId(s.reservations[id].record.reservedAtMs).Ok? && 0 < s.reservations[id].record.reservedAtMs
    {
      assert SoundReservation(id, s.reservations[id]);
      DayIdNamesTheDay(s.reservations[id].record.reservedAtMs);
    }
    forall id | id in s.imports
      ensures 0 < s.imports[id].observedAtMs
      ensures s.imports[id].rollingExpiresAtMs == SaturatingAddDay(s.imports[id].observedAtMs)
    {
      assert SoundImport(id, s.imports[id]);
    }
  }

  /** Whether a record is charged to a day does not depend on how days are named. */
  lemma DaysOfRecords(s: LedgerState, nowMs: int, day: string)
    requires WellFormed(s) && UtcDayId(nowMs) == Ok(day)
    ensures forall id :: id in s.reservations ==>
              (AdmittedOn(EntryOf(s.reservations[id]), day)
               <==> s.reservations[id].record.reservedAtMs / DAY_MILLIS == nowMs / DAY_MILLIS)
    ensures forall id :: id in s.imports ==>
              (AdmittedOn(EntryOfImport(s.imports[id]), day)
               <==> s.imports[id].observedAtMs / DAY_MILLIS == nowMs / DAY_MILLIS)
  {
    hide UtcDayId;
    hide Charge;
    TimesArePositive(s);
    hide WellFormed;
    forall id | id in s.reservations
      ensures AdmittedOn(EntryOf(s.reservations[id]), day)
              <==> s.reservations[id].record.reservedAtMs / DAY_MILLIS == nowMs / DAY_MILLIS
    {
      OnTheDay(s.reservations[id].record.reservedAtMs, nowMs, day);
    }
    forall id | id in s.imports
      ensures AdmittedOn(EntryOfImport(s.imports[id]), day)
              <==> s.imports[id].observedAtMs / DAY_MILLIS == nowMs / DAY_MILLIS
    {
      OnTheDay(s.imports[id].observedAtMs, nowMs, day);
    }
  }

  lemma DayTotal(s: LedgerState, nowMs: int, day: string)
    requires WellFormed(s) && UtcDayId(nowMs) == Ok(day)
    ensures Total(s, OnDay(day)) == DayUsed(s, nowMs / DAY_MILLIS)
  {
    hide UtcDayId;
    hide Charge;
    hide Used;
    hide Total;
    DaysOfRecords(s, nowMs, day);
    hide WellFormed;
    hide AdmittedOn;
    var d := nowMs / DAY_MILLIS;
    TotalIsUsed(s, OnDay(day), (r: Reservation) => r.reservedAtMs / DAY_MILLIS == d,
                (v: LegacyImport) => v.observedAtMs / DAY_MILLIS == d);
  }

  lemma CaseTotal(s: LedgerState, caseId: string, nowMs: int, day: string)
    requires WellFormed(s) && UtcDayId(nowMs) == Ok(day)
    ensures Total(s, CaseOnDay(caseId, day)) == CaseUsed(s, caseId, nowMs / DAY_MILLIS)
  {
    hide UtcDayId;
    hide Charge;
    hide Used;
    hide Total;
    DaysOfRecords(s, nowMs, day);
    hide WellFormed;
    hide AdmittedOn;
    var d := nowMs / DAY_MILLIS;
    TotalIsUsed(s, CaseOnDay(caseId, day),
                (r: Reservation) => r.caseId == caseId && r.reservedAtMs / DAY_MILLIS == d,
                (v: LegacyImport) => v.caseId == caseId && v.observedAtMs / DAY_MILLIS == d);
  }

  lemma ProviderTotal(s: LedgerState, provider: string, nowMs: int, day: string)
    requires WellFormed(s) && UtcDayId(nowMs) == Ok(day)
    ensures Total(s, ProviderOnDay(provider, day)) == ProviderUsed(s, provider, nowMs / DAY_MILLIS)
  {
    hide UtcDayId;
    hide Charge;
    hide Used;
    hide Total;
    DaysOfRecords(s, nowMs, day);
    hide WellFormed;
    hide AdmittedOn;
    var d := nowMs / DAY_MILLIS;
    TotalIsUsed(s, ProviderOnDay(provider, day),
                (r: Reservation) => r.providerFamily == provider && r.reservedAtMs / DAY_MILLIS == d,
                (v: LegacyImport) => v.providerFamily == provider && v.observedAtMs / DAY_MILLIS == d);
  }

  lemma TriggerTotal(s: LedgerState, trigger: Trigger, nowMs: int, day: string)
    requires WellFormed(s) && UtcDayId(nowMs) == Ok(day)
    ensures Total(s, TriggerOnDay(trigger, day)) == TriggerUsed(s, trigger, nowMs / DAY_MILLIS)
  {
    hide UtcDayId;
    hide Charge;
    hide Used;
    hide Total;
    DaysOfRecords(s, nowMs, day);
    hide WellFormed;
    hide AdmittedOn;
    var d := nowMs / DAY_MILLIS;
    TotalIsUsed(s, TriggerOnDay(trigger, day),
                (r: Reservation) => r.trigger == trigger && r.reservedAtMs / DAY_MILLIS == d,
                (v: LegacyImport) => v.trigger == trigger && v.observedAtMs / DAY_MILLIS == d);
  }

  lemma ClassTotal(s: LedgerState, c: AccountingClass, nowMs: int, day: string)
    requires WellFormed(s) && UtcDayId(nowMs) == Ok(day)
    ensures Total(s, ClassOnDay(c, day)) == ClassUsed(s, c, nowMs / DAY_MILLIS)
  {
    hide UtcDayId;
    hide Charge;
    hide Used;
    hide Total;
    DaysOfRecords(s, nowMs, day);
    hide WellFormed;
    hide AdmittedOn;
    var d := nowMs / DAY_MILLIS;
    TotalIsUsed(s, ClassOnDay(c, day),
                (r: Reservation) => r.accountingClass == c && r.reservedAtMs / DAY_MILLIS == d,
                (v: LegacyImport) => v.accountingClass == c && v.observedAtMs / DAY_MILLIS == d);
  }

  /** Expiry times saturate only beyond every time of the calendar. */
  lemma WindowTotal(s: LedgerState, nowMs: int)
    requires WellFormed(s) && UtcDayId(nowMs).Ok?
    ensures Total(s, Rolling(nowMs)) == WindowUsed(s, nowMs)
  {
    hide UtcDayId;
    hide Charge;
    hide Used;
    hide Total;
    TimesArePositive(s);
    DayIdNamesTheDay(nowMs);
    hide WellFormed;
    TotalIsUsed(s, Rolling(nowMs), (r: Reservation) => nowMs - DAY_MILLIS < r.reservedAtMs,
                (v: LegacyImport) => nowMs - DAY_MILLIS < v.observedAtMs);
  }

  lemma IntervalTotal(s: LedgerState, afterMs: int, untilMs: int)
    ensures Total(s, AdmittedWithin(afterMs, untilMs)) == IntervalUsed(s, afterMs, untilMs)
  {
    hide Charge;
    hide Used;
    hide Total;
    TotalIsUsed(s, AdmittedWithin(afterMs, untilMs), (r: Reservation) => afterMs < r.reservedAtMs <= untilMs,
                (v: LegacyImport) => afterMs < v.observedAtMs <= untilMs);
  }

  // ---- Entries of a policy, by index ----

  lemma {:induction false} FindNamedAt(values: seq<NamedCaps>, i: nat)
    requires i < |values| && forall j, k :: 0 <= j < k < |values| ==> values[j].id != values[k].id
    ensures FindNamed(values, values[i].id) == Some(values[i].caps)
  {
    if i > 0 {
      FindNamedAt(values[1..], i - 1);
    }
  }

  lemma {:induction false} FindNamedIndex(values: seq<NamedCaps>, id: string)
    ensures FindNamed(values, id).Some? <==> exists i :: 0 <= i < |values| && values[i].id == id
  {
    if values != [] {
      FindNamedIndex(values[1..], id);
      if values[0].id != id && FindNamed(values, id).Some? {
        var i :| 0 <= i < |values[1..]| && values[1..][i].id == id;
        assert values[i + 1].id == id;
      } else if i :| 0 < i < |values| && values[i].id == id {
        assert values[1..][i - 1].id == id;
      }
    }
  }

  lemma {:induction false} FindTriggerAt(values: seq<TriggerCaps>, i: nat)
    requires i < |values| && forall j, k :: 0 <= j < k < |values| ==> values[j].trigger != values[k].trigger
    ensures FindTrigger(values, values[i].trigger) == Some(values[i].caps)
  {
    if i > 0 {
      FindTriggerAt(values[1..], i - 1);
    }
  }

  lemma {:induction false} FindTriggerIndex(values: seq<TriggerCaps>, trigger: Trigger)
    ensures FindTrigger(values, trigger).Some? <==> exists i :: 0 <= i < |values| && values[i].trigger == trigger
  {
    if values != [] {
      FindTriggerIndex(values[1..], trigger);
      if values[0].trigger != trigger && FindTrigger(values, trigger).Some? {
        var i :| 0 <= i < |values[1..]| && values[1..][i].trigger == trigger;
        assert values[i + 1].trigger == trigger;
      } else if i :| 0 < i < |values| && values[i].trigger == trigger {
        assert values[1..][i - 1].trigger == trigger;
      }
    }
  }

  // ---- Every run, in terms of its records ----

  /** A shared run of a policy that is not valid admits nothing. */
  lemma {:induction false} InvalidPolicyAdmitsNothing(events: seq<Event>, p: Policy)
    requires SharedRun(events, p) && !ValidPolicy(p)
    ensures After(EMPTY, events).reservations == map[] && After(EMPTY, events).imports == map[]
  {
    hide ValidPolicy;
    hide Reserved;
    hide SharesPolicy;
    if events != [] {
      var before, last := events[..|events| - 1], events[|events| - 1];
      InvalidPolicyAdmitsNothing(before, p);
      var s := After(EMPTY, before);
      match last
      case Reserve(request, atMs, disk) =>
        ReservationCases(s, request, atMs, disk);
        if RequestRecord(request, atMs).Some? {
          SharedPolicyIsValid(request, atMs, p);
        }
        hide RequestRecord;
      case Reconcile(id, decision, disk) =>
    }
  }

  lemma NothingUsed(s: LedgerState, mine: Reservation -> bool, imported: LegacyImport -> bool)
    requires forall id :: id in s.reservations ==> !mine(s.reservations[id].record)
    requires forall id :: id in s.imports ==> !imported(s.imports[id])
    ensures Used(s, mine, imported) == NOTHING
  {
    hide Charge;
    AddedOfNone(Charges(s, mine));
    AddedOfNone(ImportedCharges(s, imported));
    hide Added;
  }

  /** The limit a scope of one day promises, as a limit of a sum over the records of that day. */
  ghost predicate DailyWithin(s: LedgerState, p: Policy, day: int) {
    && AtMost(DayUsed(s, day), p.utcDay)
    && (forall i :: 0 <= i < |p.perCase| ==> AtMost(CaseUsed(s, p.perCase[i].id, day), p.perCase[i].caps))
    && (forall i :: 0 <= i < |p.perProvider| ==>
          AtMost(ProviderUsed(s, p.perProvider[i].id, day), p.perProvider[i].caps))
    && (forall i :: 0 <= i < |p.perTriggerPool| && p.perTriggerPool[i].trigger != ManualCompatibility ==>
          AtMost(TriggerUsed(s, p.perTriggerPool[i].trigger, day), p.perTriggerPool[i].caps))
    && AtMost(ClassUsed(s, ScheduledClass, day), p.protectedScheduled)
    && AtMost(ClassUsed(s, TestMergeClass, day), p.protectedTestMerge)
    && AtMost(ClassUsed(s, ManualClass, day), p.manualUnallocated)
    && ClassUsed(s, CharacterizationClass, day) == NOTHING
  }

  /** Cases and providers the policy does not name are charged nothing. */
  ghost predicate NothingUnnamed(s: LedgerState, p: Policy, day: int) {
    && (forall caseId :: (forall i :: 0 <= i < |p.perCase| ==> p.perCase[i].id != caseId) ==>
          CaseUsed(s, caseId, day) == NOTHING)
    && (forall provider :: (forall i :: 0 <= i < |p.perProvider| ==> p.perProvider[i].id != provider) ==>
          ProviderUsed(s, provider, day) == NOTHING)
  }

  lemma CalendarDay(s: LedgerState, p: Policy, nowMs: int)
    requires WellFormed(s) && WithinPolicy(s, p) && ValidPolicy(p) && UtcDayId(nowMs).Ok?
    ensures DailyWithin(s, p, nowMs / DAY_MILLIS) && NothingUnnamed(s, p, nowMs / DAY_MILLIS)
  {
    var d, day := nowMs / DAY_MILLIS, UtcDayId(nowMs).value;
    hide *;
    SharedBudgetsHold(s, p, nowMs, day);
    forall i | 0 <= i < |p.perCase| ensures AtMost(CaseUsed(s, p.perCase[i].id, d), p.perCase[i].caps) {
      CaseHolds(s, p, i, nowMs, day);
    }
    forall i | 0 <= i < |p.perProvider|
      ensures AtMost(ProviderUsed(s, p.perProvider[i].id, d), p.perProvider[i].caps)
    {
      ProviderHolds(s, p, i, nowMs, day);
    }
    forall i | 0 <= i < |p.perTriggerPool| && p.perTriggerPool[i].trigger != ManualCompatibility
      ensures AtMost(TriggerUsed(s, p.perTriggerPool[i].trigger, d), p.perTriggerPool[i].caps)
    {
      TriggerHolds(s, p, i, nowMs, day);
    }
    forall caseId | forall i :: 0 <= i < |p.perCase| ==> p.perCase[i].id != caseId
      ensures CaseUsed(s, caseId, d) == NOTHING
    {
      UnnamedCase(s, p, caseId, nowMs, day);
    }
    forall provider | forall i :: 0 <= i < |p.perProvider| ==> p.perProvider[i].id != provider
      ensures ProviderUsed(s, provider, d) == NOTHING
    {
      UnnamedProvider(s, p, provider, nowMs, day);
    }
    DailyParts(s, p, d);
  }

  lemma DailyParts(s: LedgerState, p: Policy, d: int)
    requires forall i :: 0 <= i < |p.perCase| ==> AtMost(CaseUsed(s, p.perCase[i].id, d), p.perCase[i].caps)
    requires forall i :: 0 <= i < |p.perProvider| ==>
               AtMost(ProviderUsed(s, p.perProvider[i].id, d), p.perProvider[i].caps)
    requires forall i :: 0 <= i < |p.perTriggerPool| && p.perTriggerPool[i].trigger != ManualCompatibility ==>
               AtMost(TriggerUsed(s, p.perTriggerPool[i].trigger, d), p.perTriggerPool[i].caps)
    requires forall caseId :: (forall i :: 0 <= i < |p.perCase| ==> p.perCase[i].id != caseId) ==>
               CaseUsed(s, caseId, d) == NOTHING
    requires forall provider :: (forall i :: 0 <= i < |p.perProvider| ==> p.perProvider[i].id != provider) ==>
               ProviderUsed(s, provider, d) == NOTHING
    requires AtMost(DayUsed(s, d), p.utcDay) && AtMost(ClassUsed(s, ScheduledClass, d), p.protectedScheduled)
    requires AtMost(ClassUsed(s, TestMergeClass, d), p.protectedTestMerge)
    requires AtMost(ClassUsed(s, ManualClass, d), p.manualUnallocated)
    requires ClassUsed(s, CharacterizationClass, d) == NOTHING
    ensures DailyWithin(s, p, d) && NothingUnnamed(s, p, d)
  {
    hide AtMost;
    hide DayUsed;
    hide CaseUsed;
    hide ProviderUsed;
    hide TriggerUsed;
    hide ClassUsed;
  }

  lemma PromisesOfDay(p: Policy, day: string)
    ensures Promise(p, OnDay(day)) == Some(p.utcDay)
    ensures Promise(p, ClassOnDay(ScheduledClass, day)) == Some(p.protectedScheduled)
    ensures Promise(p, ClassOnDay(TestMergeClass, day)) == Some(p.protectedTestMerge)
    ensures Promise(p, ClassOnDay(ManualClass, day)) == Some(p.manualUnallocated)
    ensures Promise(p, ClassOnDay(CharacterizationClass, day)) == Some(NOTHING)
  {
  }

  lemma BelowNothing(a: Amounts)
    requires AtMost(a, NOTHING)
    ensures a == NOTHING
  {
  }

  lemma SharedBudgetsHold(s: LedgerState, p: Policy, nowMs: int, day: string)
    requires WellFormed(s) && WithinPolicy(s, p) && UtcDayId(nowMs) == Ok(day)
    ensures AtMost(DayUsed(s, nowMs / DAY_MILLIS), p.utcDay)
    ensures AtMost(ClassUsed(s, ScheduledClass, nowMs / DAY_MILLIS), p.protectedScheduled)
    ensures AtMost(ClassUsed(s, TestMergeClass, nowMs / DAY_MILLIS), p.protectedTestMerge)
    ensures AtMost(ClassUsed(s, ManualClass, nowMs / DAY_MILLIS), p.manualUnallocated)
    ensures ClassUsed(s, CharacterizationClass, nowMs / DAY_MILLIS) == NOTHING
  {
    var d := nowMs / DAY_MILLIS;
    hide *;
    PromisesOfDay(p, day);
    DayTotal(s, nowMs, day);
    PromiseHolds(s, p, OnDay(day));
    ClassTotal(s, ScheduledClass, nowMs, day);
    PromiseHolds(s, p, ClassOnDay(ScheduledClass, day));
    ClassTotal(s, TestMergeClass, nowMs, day);
    PromiseHolds(s, p, ClassOnDay(TestMergeClass, day));
    ClassTotal(s, ManualClass, nowMs, day);
    PromiseHolds(s, p, ClassOnDay(ManualClass, day));
    ClassTotal(s, CharacterizationClass, nowMs, day);
    PromiseHolds(s, p, ClassOnDay(CharacterizationClass, day));
    BelowNothing(ClassUsed(s, CharacterizationClass, d));
  }

  lemma PromisedToCase(p: Policy, i: nat, day: string)
    requires ValidPolicy(p) && i < |p.perCase|
    ensures Promise(p, CaseOnDay(p.perCase[i].id, day)) == Some(p.perCase[i].caps)
  {
    hide StableId;
    hide ValidAggregateCaps;
    hide ValidTriggers;
    FindNamedAt(p.perCase, i);
  }

  lemma CaseHolds(s: LedgerState, p: Policy, i: nat, nowMs: int, day: string)
    requires WellFormed(s) && WithinPolicy(s, p) && ValidPolicy(p) && UtcDayId(nowMs) == Ok(day) && i < |p.perCase|
    ensures AtMost(CaseUsed(s, p.perCase[i].id, nowMs / DAY_MILLIS), p.perCase[i].caps)
  {
    hide *;
    PromisedToCase(p, i, day);
    CaseTotal(s, p.perCase[i].id, nowMs, day);
    PromiseHolds(s, p, CaseOnDay(p.perCase[i].id, day));
  }

  lemma PromisedToProvider(p: Policy, i: nat, day: string)
    requires ValidPolicy(p) && i < |p.perProvider|
    ensures Promise(p, ProviderOnDay(p.perProvider[i].id, day)) == Some(p.perProvider[i].caps)
  {
    hide StableId;
    hide ValidAggregateCaps;
    hide ValidTriggers;
    FindNamedAt(p.perProvider, i);
  }

  lemma ProviderHolds(s: LedgerState, p: Policy, i: nat, nowMs: int, day: string)
    requires WellFormed(s) && WithinPolicy(s, p) && ValidPolicy(p) && UtcDayId(nowMs) == Ok(day)
    requires i < |p.perProvider|
    ensures AtMost(ProviderUsed(s, p.perProvider[i].id, nowMs / DAY_MILLIS), p.perProvider[i].caps)
  {
    hide *;
    PromisedToProvider(p, i, day);
    ProviderTotal(s, p.perProvider[i].id, nowMs, day);
    PromiseHolds(s, p, ProviderOnDay(p.perProvider[i].id, day));
  }

  lemma PromisedToTrigger(p: Policy, i: nat, day: string)
    requires ValidPolicy(p) && i < |p.perTriggerPool| && p.perTriggerPool[i].trigger != ManualCompatibility
    ensures Promise(p, TriggerOnDay(p.perTriggerPool[i].trigger, day)) == Some(p.perTriggerPool[i].caps)
  {
    hide ValidAggregateCaps;
    hide ValidNamed;
    FindTriggerAt(p.perTriggerPool, i);
  }

  lemma TriggerHolds(s: LedgerState, p: Policy, i: nat, nowMs: int, day: string)
    requires WellFormed(s) && WithinPolicy(s, p) && ValidPolicy(p) && UtcDayId(nowMs) == Ok(day)
    requires i < |p.perTriggerPool| && p.perTriggerPool[i].trigger != ManualCompatibility
    ensures AtMost(TriggerUsed(s, p.perTriggerPool[i].trigger, nowMs / DAY_MILLIS), p.perTriggerPool[i].caps)
  {
    hide *;
    PromisedToTrigger(p, i, day);
    TriggerTotal(s, p.perTriggerPool[i].trigger, nowMs, day);
    PromiseHolds(s, p, TriggerOnDay(p.perTriggerPool[i].trigger, day));
  }

  lemma NoPromise(p: Policy, day: string, caseId: string, provider: string)
    ensures (forall i :: 0 <= i < |p.perCase| ==> p.perCase[i].id != caseId) ==>
              Promise(p, CaseOnDay(caseId, day)) == Some(NOTHING)
    ensures (forall i :: 0 <= i < |p.perProvider| ==> p.perProvider[i].id != provider) ==>
              Promise(p, ProviderOnDay(provider, day)) == Some(NOTHING)
  {
    FindNamedIndex(p.perCase, caseId);
    FindNamedIndex(p.perProvider, provider);
    hide FindNamed;
  }

  lemma UnnamedCase(s: LedgerState, p: Policy, caseId: string, nowMs: int, day: string)
    requires WellFormed(s) && WithinPolicy(s, p) && UtcDayId(nowMs) == Ok(day)
    requires forall i :: 0 <= i < |p.perCase| ==> p.perCase[i].id != caseId
    ensures CaseUsed(s, caseId, nowMs / DAY_MILLIS) == NOTHING
  {
    var d := nowMs / DAY_MILLIS;
    hide *;
    NoPromise(p, day, caseId, "");
    CaseTotal(s, caseId, nowMs, day);
    PromiseHolds(s, p, CaseOnDay(caseId, day));
    BelowNothing(CaseUsed(s, caseId, d));
  }

  lemma UnnamedProvider(s: LedgerState, p: Policy, provider: string, nowMs: int, day: string)
    requires WellFormed(s) && WithinPolicy(s, p) && UtcDayId(nowMs) == Ok(day)
    requires forall i :: 0 <= i < |p.perProvider| ==> p.perProvider[i].id != provider
    ensures ProviderUsed(s, provider, nowMs / DAY_MILLIS) == NOTHING
  {
    var d := nowMs / DAY_MILLIS;
    hide *;
    NoPromise(p, day, "", provider);
    ProviderTotal(s, provider, nowMs, day);
    PromiseHolds(s, p, ProviderOnDay(provider, day));
    BelowNothing(ProviderUsed(s, provider, d));
  }

  lemma NothingUsedOnDay(s: LedgerState, d: int)
    requires s.imports == map[]
    requires forall id :: id in s.reservations ==> s.reservations[id].record.reservedAtMs / DAY_MILLIS != d
    ensures DayUsed(s, d) == NOTHING
    ensures forall caseId :: CaseUsed(s, caseId, d) == NOTHING
    ensures forall provider :: ProviderUsed(s, provider, d) == NOTHING
    ensures forall trigger :: TriggerUsed(s, trigger, d) == NOTHING
    ensures forall c :: ClassUsed(s, c, d) == NOTHING
  {
    hide Used;
    hide Charge;
    NothingUsed(s, (r: Reservation) => r.reservedAtMs / DAY_MILLIS == d,
                (v: LegacyImport) => v.observedAtMs / DAY_MILLIS == d);
    forall caseId ensures CaseUsed(s, caseId, d) == NOTHING {
      NothingUsed(s, (r: Reservation) => r.caseId == caseId && r.reservedAtMs / DAY_MILLIS == d,
                  (v: LegacyImport) => v.caseId == caseId && v.observedAtMs / DAY_MILLIS == d);
    }
    forall provider ensures ProviderUsed(s, provider, d) == NOTHING {
      NothingUsed(s, (r: Reservation) => r.providerFamily == provider && r.reservedAtMs / DAY_MILLIS == d,
                  (v: LegacyImport) => v.providerFamily == provider && v.observedAtMs / DAY_MILLIS == d);
    }
    forall trigger ensures TriggerUsed(s, trigger, d) == NOTHING {
      NothingUsed(s, (r: Reservation) => r.trigger == trigger && r.reservedAtMs / DAY_MILLIS == d,
                  (v: LegacyImport) => v.trigger == trigger && v.observedAtMs / DAY_MILLIS == d);
    }
    forall c ensures ClassUsed(s, c, d) == NOTHING {
      NothingUsed(s, (r: Reservation) => r.accountingClass == c && r.reservedAtMs / DAY_MILLIS == d,
                  (v: LegacyImport) => v.accountingClass == c && v.observedAtMs / DAY_MILLIS == d);
    }
  }

  lemma NothingOnDay(s: LedgerState, p: Policy, d: int)
    requires s.imports == map[]
    requires forall id :: id in s.reservations ==> s.reservations[id].record.reservedAtMs / DAY_MILLIS != d
    ensures DailyWithin(s, p, d) && NothingUnnamed(s, p, d)
  {
    hide DayUsed;
    hide CaseUsed;
    hide ProviderUsed;
    hide TriggerUsed;
    hide ClassUsed;
    NothingUsedOnDay(s, d);
  }

  lemma OutsideTheCalendar(s: LedgerState, p: Policy, d: int)
    requires WellFormed(s) && s.imports == map[] && !(0 <= d <= LAST_DAY)
    ensures DailyWithin(s, p, d) && NothingUnnamed(s, p, d)
  {
    hide UtcDayId;
    TimesArePositive(s);
    hide WellFormed;
    forall id | id in s.reservations ensures s.reservations[id].record.reservedAtMs / DAY_MILLIS != d {
      DayIdNamesTheDay(s.reservations[id].record.reservedAtMs);
    }
    NothingOnDay(s, p, d);
  }

  lemma MorningOf(d: int)
    requires 0 <= d <= LAST_DAY
    ensures UtcDayId(d * DAY_MILLIS + 1).Ok? && (d * DAY_MILLIS + 1) / DAY_MILLIS == d
  {
    DayIdNamesTheDay(d * DAY_MILLIS + 1);
    hide UtcDayId;
  }

  /**
   * In every run that shares a policy, and told from the records alone: what the reservations of a day cost
   * together, those of any one case, provider, standing trigger or class of it, and those of any 24 hours, stay
   * within the entry of the policy for it. What the policy does not name is charged nothing.
   */
  lemma RecordsStayWithinPolicy(events: seq<Event>, p: Policy)
    requires SharedRun(events, p)
    ensures forall day :: DailyWithin(After(EMPTY, events), p, day) && NothingUnnamed(After(EMPTY, events), p, day)
    ensures forall afterMs, untilMs :: untilMs - afterMs <= DAY_MILLIS ==>
              AtMost(IntervalUsed(After(EMPTY, events), afterMs, untilMs), p.rolling24h)
  {
    hide SharedRun;
    hide After;
    hide DailyWithin;
    hide NothingUnnamed;
    hide IntervalUsed;
    hide AtMost;
    forall day
      ensures DailyWithin(After(EMPTY, events), p, day) && NothingUnnamed(After(EMPTY, events), p, day)
    {
      DayWithin(events, p, day);
    }
    forall afterMs, untilMs | untilMs - afterMs <= DAY_MILLIS
      ensures AtMost(IntervalUsed(After(EMPTY, events), afterMs, untilMs), p.rolling24h)
    {
      IntervalWithin(events, p, afterMs, untilMs);
    }
  }

  lemma IntervalWithin(events: seq<Event>, p: Policy, afterMs: int, untilMs: int)
    requires SharedRun(events, p) && untilMs - afterMs <= DAY_MILLIS
    ensures AtMost(IntervalUsed(After(EMPTY, events), afterMs, untilMs), p.rolling24h)
  {
    assert Promise(p, AdmittedWithin(afterMs, untilMs)) == Some(p.rolling24h);
    hide *;
    RunStaysWithinPolicy(events, p);
    PromiseHolds(After(EMPTY, events), p, AdmittedWithin(afterMs, untilMs));
    IntervalTotal(After(EMPTY, events), afterMs, untilMs);
  }

  lemma DayWithin(events: seq<Event>, p: Policy, day: int)
    requires SharedRun(events, p)
    ensures DailyWithin(After(EMPTY, events), p, day) && NothingUnnamed(After(EMPTY, events), p, day)
  {
    hide *;
    var s := After(EMPTY, events);
    RunStaysWithinPolicy(events, p);
    RunIsWellFormed(events, p);
    if !ValidPolicy(p) {
      InvalidPolicyAdmitsNothing(events, p);
      NothingOnDay(s, p, day);
    } else if 0 <= day <= LAST_DAY {
      MorningOf(day);
      CalendarDay(s, p, day * DAY_MILLIS + 1);
    } else {
      OutsideTheCalendar(s, p, day);
    }
  }

  lemma RunIsWellFormed(events: seq<Event>, p: Policy)
    requires WithinPolicy(After(EMPTY, events), p)
    ensures WellFormed(After(EMPTY, events)) && After(EMPTY, events).imports == map[]
  {
    EmptyIsWithin(p);
    hide After;
    RunIsSound(EMPTY, events);
    hide WellFormed;
  }
}

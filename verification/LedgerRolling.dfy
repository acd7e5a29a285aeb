/** The class pools against the rolling 24-hour budget, which two UTC days draw on. */
module LedgerRolling {
  import opened Prelude
  import opened Budget
  import opened Calendar
  import opened LedgerRecords
  import opened Accounting
  import opened LedgerSpec
  import opened LedgerRuns
  import opened LedgerScenarios
  import opened LedgerFilling
  import opened LedgerPools

  // ---- Twenty-four hours lie in two days ----

  /** The UTC day before the one of a time; no day at all for the first day of the calendar. */
  function DayBefore(nowMs: int): string {
    match UtcDayId(nowMs / DAY_MILLIS * DAY_MILLIS - 1)
    case Ok(day) => day
    case Err(_) => ""
  }

  lemma SameOrPreviousDay(earlierMs: int, nowMs: int)
    requires UtcDayId(earlierMs).Ok? && UtcDayId(nowMs).Ok? && nowMs - DAY_MILLIS < earlierMs <= nowMs
    ensures UtcDayId(earlierMs) == UtcDayId(nowMs) || UtcDayId(earlierMs) == Ok(DayBefore(nowMs))
  {
    hide UtcDayId;
    DayIdNamesTheDay(nowMs);
    DayIdNamesTheDay(earlierMs);
    Midnight(earlierMs, nowMs);
    var midnight := nowMs / DAY_MILLIS * DAY_MILLIS;
    if midnight <= earlierMs {
      SameDayId(earlierMs, nowMs);
    } else {
      DayIdNamesTheDay(midnight - 1);
      SameDayId(earlierMs, midnight - 1);
    }
  }

  lemma Midnight(earlierMs: int, nowMs: int)
    requires nowMs - DAY_MILLIS < earlierMs <= nowMs
    ensures var midnight := nowMs / DAY_MILLIS * DAY_MILLIS;
            && midnight <= nowMs
            && if midnight <= earlierMs then earlierMs / DAY_MILLIS == nowMs / DAY_MILLIS
               else earlierMs / DAY_MILLIS == (midnight - 1) / DAY_MILLIS
  {
  }

  function PoolScopes(day: string): seq<Scope> {
    [ClassOnDay(ScheduledClass, day), ClassOnDay(TestMergeClass, day), ClassOnDay(ManualClass, day)]
  }

  function LastDay(c: AccountingClass, nowMs: int): Scope {
    ClassWithin(c, nowMs - DAY_MILLIS, nowMs)
  }

  function WindowScopes(nowMs: int, today: string): seq<Scope> {
    [LastDay(CharacterizationClass, nowMs)] + PoolScopes(today) + PoolScopes(DayBefore(nowMs))
  }

  lemma EntryInWindow(e: Entry, nowMs: int)
    requires e.rollingExpiresAtMs == SaturatingAddDay(e.admittedAtMs) && InScope(e, Rolling(nowMs))
    ensures nowMs - DAY_MILLIS < e.admittedAtMs
  {
  }

  lemma WindowIsCovered(e: Entry, nowMs: int, today: string)
    requires UtcDayId(nowMs) == Ok(today) && UtcDayId(e.admittedAtMs).Ok? && e.admittedAtMs <= nowMs
    requires e.rollingExpiresAtMs == SaturatingAddDay(e.admittedAtMs) && InScope(e, Rolling(nowMs))
    ensures InSome(e, WindowScopes(nowMs, today))
  {
    hide UtcDayId;
    hide DayBefore;
    EntryInWindow(e, nowMs);
    SameOrPreviousDay(e.admittedAtMs, nowMs);
    if e.accountingClass == CharacterizationClass {
      assert InScope(e, WindowScopes(nowMs, today)[0]);
    } else if AdmittedOn(e, today) {
      PoolScopesCover(e, today);
      var i :| 0 <= i < 3 && InScope(e, PoolScopes(today)[i]);
      assert WindowScopes(nowMs, today)[1 + i] == PoolScopes(today)[i];
    } else {
      PoolScopesCover(e, DayBefore(nowMs));
      var i :| 0 <= i < 3 && InScope(e, PoolScopes(DayBefore(nowMs))[i]);
      assert WindowScopes(nowMs, today)[4 + i] == PoolScopes(DayBefore(nowMs))[i];
    }
  }

  lemma PoolScopesCover(e: Entry, day: string)
    requires e.accountingClass != CharacterizationClass && AdmittedOn(e, day)
    ensures exists i :: 0 <= i < 3 && InScope(e, PoolScopes(day)[i])
  {
    hide AdmittedOn;
    var scopes := PoolScopes(day);
    assert InScope(e, scopes[0]) || InScope(e, scopes[1]) || InScope(e, scopes[2]);
  }

  lemma EntriesAreCovered(s: LedgerState, nowMs: int, today: string)
    requires WellFormed(s) && !ClockRolledBack(s, nowMs) && UtcDayId(nowMs) == Ok(today)
    ensures forall id :: id in s.reservations && InScope(EntryOf(s.reservations[id]), Rolling(nowMs)) ==>
              InSome(EntryOf(s.reservations[id]), WindowScopes(nowMs, today))
  {
    hide UtcDayId;
    hide InSome;
    hide WindowScopes;
    hide InScope;
    hide Charge;
    hide ValidReconciliation;
    forall id | id in s.reservations && InScope(EntryOf(s.reservations[id]), Rolling(nowMs))
      ensures InSome(EntryOf(s.reservations[id]), WindowScopes(nowMs, today))
    {
      assert SoundReservation(id, s.reservations[id]);
      WindowIsCovered(EntryOf(s.reservations[id]), nowMs, today);
    }
  }

  lemma {:induction false} SumOverConcat<K>(entries: map<K, Entry>, a: seq<Scope>, b: seq<Scope>)
    ensures SumOver(entries, a + b) == Plus(SumOver(entries, a), SumOver(entries, b))
  {
    hide Sum;
    if a == [] {
      assert a + b == b;
      PlusNothing(SumOver(entries, b));
    } else {
      assert (a + b)[1..] == a[1..] + b;
      SumOverConcat(entries, a[1..], b);
      Associates(Sum(entries, a[0]), SumOver(entries, a[1..]), SumOver(entries, b));
    }
  }

  lemma SumOverOne<K>(entries: map<K, Entry>, scope: Scope)
    ensures SumOver(entries, [scope]) == Sum(entries, scope)
  {
    hide Sum;
    assert [scope][1..] == [];
    PlusNothing(Sum(entries, scope));
  }

  lemma SumOverThree<K>(entries: map<K, Entry>, a: Scope, b: Scope, c: Scope)
    ensures SumOver(entries, [a, b, c]) == Plus(Plus(Sum(entries, a), Sum(entries, b)), Sum(entries, c))
  {
    hide Sum;
    hide Plus;
    assert [a, b, c][1..] == [b, c] && [b, c][1..] == [c];
    SumOverOne(entries, c);
    Associates(Sum(entries, a), Sum(entries, b), Sum(entries, c));
  }

  lemma TotalIsSum(s: LedgerState, scope: Scope)
    requires s.imports == map[]
    ensures Total(s, scope) == Sum(ReservationEntries(s), scope)
  {
    hide Sum;
    SumOfNone(ImportEntries(s), scope);
    PlusNothing(Sum(ReservationEntries(s), scope));
  }

  ghost function PoolsOnDay(s: LedgerState, day: string): Amounts {
    Plus(Plus(Total(s, ClassOnDay(ScheduledClass, day)), Total(s, ClassOnDay(TestMergeClass, day))),
         Total(s, ClassOnDay(ManualClass, day)))
  }

  lemma PoolsAreSum(s: LedgerState, day: string)
    requires s.imports == map[]
    ensures SumOver(ReservationEntries(s), PoolScopes(day)) == PoolsOnDay(s, day)
  {
    SumOverThree(ReservationEntries(s), ClassOnDay(ScheduledClass, day), ClassOnDay(TestMergeClass, day),
                 ClassOnDay(ManualClass, day));
    TotalIsSum(s, ClassOnDay(ScheduledClass, day));
    TotalIsSum(s, ClassOnDay(TestMergeClass, day));
    TotalIsSum(s, ClassOnDay(ManualClass, day));
    hide SumOver;
    hide Total;
    hide Plus;
  }

  /** What the rolling check adds up is at most the recent characterizations and the pools of two days. */
  lemma WindowIsTwoDays(s: LedgerState, nowMs: int, today: string)
    requires WellFormed(s) && s.imports == map[] && !ClockRolledBack(s, nowMs) && UtcDayId(nowMs) == Ok(today)
    ensures AtMost(Total(s, Rolling(nowMs)),
                   Plus(Plus(Total(s, LastDay(CharacterizationClass, nowMs)), PoolsOnDay(s, today)),
                        PoolsOnDay(s, DayBefore(nowMs))))
  {
    var entries, oneShots := ReservationEntries(s), LastDay(CharacterizationClass, nowMs);
    assert forall id :: id in entries ==> id in s.reservations && entries[id] == EntryOf(s.reservations[id]);
    assert WindowScopes(nowMs, today) == [oneShots] + PoolScopes(today) + PoolScopes(DayBefore(nowMs));
    hide *;
    EntriesAreCovered(s, nowMs, today);
    SumIsCovered(entries, Rolling(nowMs), WindowScopes(nowMs, today));
    TotalIsSum(s, Rolling(nowMs));
    TotalIsSum(s, oneShots);
    SumOverConcat(entries, [oneShots] + PoolScopes(today), PoolScopes(DayBefore(nowMs)));
    SumOverConcat(entries, [oneShots], PoolScopes(today));
    SumOverOne(entries, oneShots);
    PoolsAreSum(s, today);
    PoolsAreSum(s, DayBefore(nowMs));
  }

  // ---- The guarantee ----

  function TwoDays(p: Policy): Amounts {
    Plus(Allocated(p), Allocated(p))
  }

  lemma PoolsOfDayFit(s: LedgerState, p: Policy, day: string)
    requires PoolsWithin(s, p)
    ensures AtMost(PoolsOnDay(s, day), Allocated(p))
  {
    hide Total;
    assert PoolOf(p, ScheduledClass).Some? && PoolOf(p, TestMergeClass).Some? && PoolOf(p, ManualClass).Some?;
  }

  lemma PoolsOfDayLeaveRoom(s: LedgerState, p: Policy, proposed: Reservation)
    requires PoolsWithin(s, p) && OwnPoolHasRoom(s, p, proposed)
    ensures AtMost(Plus(PoolsOnDay(s, proposed.utcDayId), FromCaps(proposed.caps)), Allocated(p))
  {
    hide Total;
    hide FromCaps;
    assert PoolOf(p, ScheduledClass).Some? && PoolOf(p, TestMergeClass).Some? && PoolOf(p, ManualClass).Some?;
  }

  lemma AddsUp(window: Amounts, oneShots: Amounts, today: Amounts, yesterday: Amounts, reserve: Amounts, pools: Amounts)
    requires AtMost(window, Plus(Plus(oneShots, today), yesterday))
    requires AtMost(Plus(today, reserve), pools) && AtMost(yesterday, pools)
    ensures AtMost(Plus(window, reserve), Plus(oneShots, Plus(pools, pools)))
  {
  }

  lemma RollingRefusal(s: LedgerState, request: Request, nowMs: int)
    requires RequestRecord(request, nowMs).Some? && LimitsFor(request).Some?
    requires Headroom(s, request, nowMs) == Some(Refused(Rolling24hExhausted))
    ensures var proposed := RequestRecord(request, nowMs).value;
            && !ClockRolledBack(s, nowMs)
            && !AtMost(Plus(Total(s, Rolling(proposed.reservedAtMs)), FromCaps(proposed.caps)),
                       LimitsFor(request).value.rolling24h)
  {
    hide UtcDayId;
    hide RequestRecord;
    hide ClockRolledBack;
    hide ExistingMatchesRequest;
    hide FirstFailure;
    hide Total;
    hide StableId;
    hide ValidPolicy;
    hide FindNamed;
    hide FindTrigger;
    var proposed := RequestRecord(request, nowMs).value;
    var checks := ChecksFor(LimitsFor(request).value, proposed);
    var i := RefusalHasACheck(s, checks, FromCaps(proposed.caps));
    assert forall j :: 0 <= j < |checks| && j != 1 ==> checks[j].refusal != Rolling24hExhausted;
  }

  lemma SharedRolling(request: Request, nowMs: int, p: Policy)
    requires SharesPolicy(request, p) && RequestRecord(request, nowMs).Some?
    ensures LimitsFor(request).Some? && LimitsFor(request).value.rolling24h == p.rolling24h
    ensures RequestRecord(request, nowMs).value.reservedAtMs == nowMs
    ensures UtcDayId(nowMs) == Ok(RequestRecord(request, nowMs).value.utcDayId)
  {
    hide UtcDayId;
    hide StableId;
    hide ValidPolicy;
    hide ValidReservation;
  }

  /**
   * While a request's own class pool has room for it, the rolling budget can refuse it only if the
   * characterizations of the last 24 hours leave less than twice the three pools together.
   */
  lemma ProtectedWindow(events: seq<Event>, p: Policy, request: Request, nowMs: int)
    requires MixedRun(events, p) && SharesPolicy(request, p) && RequestRecord(request, nowMs).Some?
    requires OwnPoolHasRoom(After(EMPTY, events), p, RequestRecord(request, nowMs).value)
    requires Headroom(After(EMPTY, events), request, nowMs) == Some(Refused(Rolling24hExhausted))
    ensures var oneShots := Total(After(EMPTY, events), LastDay(CharacterizationClass, nowMs));
            !AtMost(Plus(oneShots, TwoDays(p)), p.rolling24h)
  {
    var s := After(EMPTY, events);
    assert TwoDays(p) == Plus(Allocated(p), Allocated(p));
    hide *;
    var proposed := RequestRecord(request, nowMs).value;
    SharedRolling(request, nowMs, p);
    RollingRefusal(s, request, nowMs);
    RunFacts(events, p);
    WindowIsTwoDays(s, nowMs, proposed.utcDayId);
    PoolsOfDayLeaveRoom(s, p, proposed);
    PoolsOfDayFit(s, p, DayBefore(nowMs));
    AddsUp(Total(s, Rolling(nowMs)), Total(s, LastDay(CharacterizationClass, nowMs)),
           PoolsOnDay(s, proposed.utcDayId), PoolsOnDay(s, DayBefore(nowMs)), FromCaps(proposed.caps), Allocated(p));
    Chain(Plus(Total(s, Rolling(nowMs)), FromCaps(proposed.caps)),
          Plus(Total(s, LastDay(CharacterizationClass, nowMs)), TwoDays(p)), p.rolling24h);
  }

  lemma Chain(a: Amounts, b: Amounts, c: Amounts)
    requires AtMost(a, b) && !AtMost(a, c)
    ensures !AtMost(b, c)
  {
  }

  lemma RunFacts(events: seq<Event>, p: Policy)
    requires MixedRun(events, p)
    ensures WellFormed(After(EMPTY, events)) && After(EMPTY, events).imports == map[]
    ensures PoolsWithin(After(EMPTY, events), p)
  {
    hide WellFormed;
    hide After;
    hide MixedRun;
    PoolsStayWithin(events, p);
    EmptyIsWithin(p);
    RunIsSound(EMPTY, events);
  }

  // ---- Exactly when the shared budgets never get in the way ----

  /** No shared budget ever refuses a request whose own pool has room, in runs with or without characterizations. */
  ghost predicate NeverInTheWay(p: Policy, oneShots: bool) {
    forall events, request, nowMs, refusal ::
      RefusedDespiteRoom(events, p, request, nowMs, refusal) && (oneShots || SharedRun(events, p)) ==>
        refusal != UtcDayExhausted && refusal != Rolling24hExhausted
  }

  /** Twice the pools, and one effect more if there may be characterizations. */
  function Needed(p: Policy, oneShots: bool): Amounts {
    Plus(if oneShots then ONE_EFFECT else NOTHING, TwoDays(p))
  }

  lemma OneShotsOfLastDay(nowMs: int)
    ensures OneShotScope(LastDay(CharacterizationClass, nowMs))
  {
  }

  lemma NoOneShots(events: seq<Event>, p: Policy, day: string)
    requires SharedRun(events, p)
    ensures After(EMPTY, events).imports == map[]
    ensures Total(After(EMPTY, events), ClassOnDay(CharacterizationClass, day)) == NOTHING
  {
    hide Total;
    hide After;
    RunStaysWithinPolicy(events, p);
    var scope := ClassOnDay(CharacterizationClass, day);
    assert Promise(p, scope) == Some(NOTHING);
    NothingBelow(Total(After(EMPTY, events), scope));
  }

  lemma RecentOneShots(events: seq<Event>, p: Policy, nowMs: int, oneShots: bool)
    requires MixedRun(events, p) && (oneShots || SharedRun(events, p)) && UtcDayId(nowMs).Ok?
    ensures AtMost(Total(After(EMPTY, events), LastDay(CharacterizationClass, nowMs)),
                   if oneShots then ONE_EFFECT else NOTHING)
  {
    var s, scope := After(EMPTY, events), LastDay(CharacterizationClass, nowMs);
    if oneShots {
      hide *;
      OneShotsOfLastDay(nowMs);
      CharacterizationsAreOneEffect(events, p, scope);
    } else {
      assert ReservationEntries(s).Keys == s.reservations.Keys;
      hide *;
      var today, yesterday := UtcDayId(nowMs).value, DayBefore(nowMs);
      RunFacts(events, p);
      NoOneShots(events, p, today);
      NoOneShots(events, p, yesterday);
      OneShotsAreCovered(s, nowMs, today);
      SumOverConcat(ReservationEntries(s), [ClassOnDay(CharacterizationClass, today)],
                    [ClassOnDay(CharacterizationClass, yesterday)]);
      SumOverOne(ReservationEntries(s), ClassOnDay(CharacterizationClass, today));
      SumOverOne(ReservationEntries(s), ClassOnDay(CharacterizationClass, yesterday));
      TotalIsSum(s, ClassOnDay(CharacterizationClass, today));
      TotalIsSum(s, ClassOnDay(CharacterizationClass, yesterday));
      PlusNothing(NOTHING);
    }
  }

  lemma OneShotsAreCovered(s: LedgerState, nowMs: int, today: string)
    requires WellFormed(s) && s.imports == map[] && UtcDayId(nowMs) == Ok(today)
    ensures var days := [ClassOnDay(CharacterizationClass, today)]
                        + [ClassOnDay(CharacterizationClass, DayBefore(nowMs))];
            AtMost(Total(s, LastDay(CharacterizationClass, nowMs)), SumOver(ReservationEntries(s), days))
  {
    hide UtcDayId;
    hide DayBefore;
    hide Charge;
    hide ValidReconciliation;
    hide Total;
    hide Sum;
    hide SumOver;
    var days := [ClassOnDay(CharacterizationClass, today)]
                + [ClassOnDay(CharacterizationClass, DayBefore(nowMs))];
    var scope := LastDay(CharacterizationClass, nowMs);
    forall id | id in s.reservations && InScope(EntryOf(s.reservations[id]), scope)
      ensures InSome(EntryOf(s.reservations[id]), days)
    {
      assert SoundReservation(id, s.reservations[id]);
      SameOrPreviousDay(s.reservations[id].record.reservedAtMs, nowMs);
      assert InScope(EntryOf(s.reservations[id]), days[0]) || InScope(EntryOf(s.reservations[id]), days[1]);
    }
    SumIsCovered(ReservationEntries(s), scope, days);
    TotalIsSum(s, scope);
  }

  lemma RollingSpares(events: seq<Event>, p: Policy, request: Request, nowMs: int, oneShots: bool)
    requires AtMost(Needed(p, oneShots), p.rolling24h) && (oneShots || SharedRun(events, p))
    ensures !RefusedDespiteRoom(events, p, request, nowMs, Rolling24hExhausted)
  {
    var own := if oneShots then ONE_EFFECT else NOTHING;
    assert Needed(p, oneShots) == Plus(own, TwoDays(p));
    hide *;
    if RefusedDespiteRoom(events, p, request, nowMs, Rolling24hExhausted) {
      RefusalFacts(events, p, request, nowMs, Rolling24hExhausted);
      SharedRolling(request, nowMs, p);
      ProtectedWindow(events, p, request, nowMs);
      RecentOneShots(events, p, nowMs, oneShots);
      Together(Total(After(EMPTY, events), LastDay(CharacterizationClass, nowMs)), own, TwoDays(p), p.rolling24h);
    }
  }

  lemma DayIsNeededToo(p: Policy)
    requires ValidPolicy(p) && AtMost(Needed(p, true), p.rolling24h)
    ensures AtMost(Plus(ONE_EFFECT, Allocated(p)), p.utcDay)
  {
    hide Allocated;
    hide ValidNamed;
    hide ValidTriggers;
    hide ValidAggregateCaps;
  }

  lemma DaySpares(events: seq<Event>, p: Policy, request: Request, nowMs: int, oneShots: bool)
    requires AtMost(Needed(p, oneShots), p.rolling24h) && (oneShots || SharedRun(events, p))
    ensures !RefusedDespiteRoom(events, p, request, nowMs, UtcDayExhausted)
  {
    hide *;
    if RefusedDespiteRoom(events, p, request, nowMs, UtcDayExhausted) {
      RefusalFacts(events, p, request, nowMs, UtcDayExhausted);
      if oneShots {
        SharedPolicyIsValid(request, nowMs, p);
        DayIsNeededToo(p);
        RoomForOneEffectProtects(p);
        IsProtected(events, p, request, nowMs);
      } else {
        ProtectedPoolNeverDayRefused(events, p, request, nowMs);
      }
    }
  }

  lemma IsProtected(events: seq<Event>, p: Policy, request: Request, nowMs: int)
    requires PoolsAreProtected(p)
    ensures !RefusedDespiteRoom(events, p, request, nowMs, UtcDayExhausted)
  {
    hide RefusedDespiteRoom;
  }

  /** For every policy: with that much in 24 hours, the pools are guaranteed against both shared budgets. */
  lemma EnoughIsNeverInTheWay(p: Policy, oneShots: bool)
    requires AtMost(Needed(p, oneShots), p.rolling24h)
    ensures NeverInTheWay(p, oneShots)
  {
    hide RefusedDespiteRoom;
    hide SharedRun;
    hide AtMost;
    hide Needed;
    forall events, request, nowMs, refusal
      | RefusedDespiteRoom(events, p, request, nowMs, refusal) && (oneShots || SharedRun(events, p))
      ensures refusal != UtcDayExhausted && refusal != Rolling24hExhausted
    {
      DaySpares(events, p, request, nowMs, oneShots);
      RollingSpares(events, p, request, nowMs, oneShots);
    }
  }

  const EVENING := DAY_MILLIS - 1
  const MORNING := DAY_MILLIS

  lemma EveningAndMorning()
    ensures Overnight(EVENING, MORNING) && UtcDayId(EVENING).Ok? && UtcDayId(MORNING).Ok?
  {
    hide UtcDayId;
    DayIdNamesTheDay(EVENING);
    DayIdNamesTheDay(MORNING);
    SameDayId(EVENING, MORNING);
  }

  /** The start of an evening, with or without a characterization. */
  lemma BuildsEvening(p: Policy, atMs: int, oneShots: bool) returns (b: Built)
    requires OnlyPools(p) && UtcDayId(atMs).Ok?
    ensures Builds(b, p, atMs, atMs, oneShots) && b.held.before == NOTHING && NothingFilled(b.held)
    ensures b.held.today == if oneShots then ONE_EFFECT else NOTHING
  {
    assert NOTHING_BUILT.held.before == NOTHING && NOTHING_BUILT.held.today == NOTHING;
    assert NothingFilled(NOTHING_BUILT.held);
    hide *;
    if oneShots {
      b := BuildsCharacterization(p, atMs);
    } else {
      BuildsNothing(p, atMs, false);
      b := NOTHING_BUILT;
    }
  }

  /**
   * The pools are filled late on one day and again early on the next. Unless 24 hours have room for all of
   * it, one of the requests is refused although its own pool has room.
   */
  lemma TwoDayRun(p: Policy, evening: int, morning: int, oneShots: bool)
    returns (more: Built, atMs: int, stop: Option<(Request, Refusal)>)
    requires OnlyPools(p) && FillablePools(p)
    requires UtcDayId(evening).Ok? && UtcDayId(morning).Ok? && Overnight(evening, morning)
    ensures match stop
            case Some((request, refusal)) => Stops(more, p, atMs, oneShots, request, refusal)
            case None => AtMost(Needed(p, oneShots), p.rolling24h)
  {
    hide *;
    var b := BuildsEvening(p, evening, oneShots);
    atMs := evening;
    more, stop := FillPools(b, p, evening, evening, oneShots);
    if stop.None? {
      var next := BuildsOvernight(more, p, evening, morning, oneShots);
      atMs := morning;
      more, stop := FillPools(next, p, evening, morning, oneShots);
      if stop.None? {
        SharedFacts(more.held, p);
        BothDays(p, oneShots, next.held.before, more.held.today);
      }
    }
  }

  lemma BothDays(p: Policy, oneShots: bool, before: Amounts, today: Amounts)
    requires before == Plus(if oneShots then ONE_EFFECT else NOTHING, Allocated(p))
    requires today == Plus(NOTHING, Allocated(p))
    ensures Plus(before, today) == Needed(p, oneShots)
  {
    PlusNothing(Allocated(p));
    Associates(if oneShots then ONE_EFFECT else NOTHING, Allocated(p), Allocated(p));
    hide Plus;
    hide Allocated;
  }

  lemma InTheWay(b: Built, p: Policy, atMs: int, oneShots: bool, request: Request, refusal: Refusal)
    requires Stops(b, p, atMs, oneShots, request, refusal)
    ensures !NeverInTheWay(p, oneShots)
  {
    hide RefusedDespiteRoom;
    hide SharedRun;
  }

  /**
   * For pools that effects can use up, the shared budgets are never in the way exactly when 24 hours have
   * room for the pools of two days, and for one effect more if there may be characterizations.
   */
  lemma NeverInTheWayExactly(p: Policy, oneShots: bool)
    requires OnlyPools(p) && FillablePools(p)
    ensures NeverInTheWay(p, oneShots) <==> AtMost(Needed(p, oneShots), p.rolling24h)
  {
    hide *;
    if AtMost(Needed(p, oneShots), p.rolling24h) {
      EnoughIsNeverInTheWay(p, oneShots);
    } else {
      EveningAndMorning();
      var b, atMs, stop := TwoDayRun(p, EVENING, MORNING, oneShots);
      InTheWay(b, p, atMs, oneShots, stop.value.0, stop.value.1);
    }
  }

  lemma OneEffectIsFillable(caps: EffectCaps)
    requires ValidEffectCaps(caps)
    ensures Fillable(FromCaps(caps))
  {
  }

  /** A valid policy whose 24 hours have room for its pools only once leaves them unprotected across midnight. */
  lemma PoolsOnceAreNotEnough(caps: EffectCaps)
    requires ValidEffectCaps(caps)
    ensures var p := PooledPolicy(caps);
            ValidPolicy(p) && p.rolling24h == Allocated(p) && !NeverInTheWay(p, false)
  {
    PooledBudgets(caps);
    hide *;
    PooledIsValid(caps);
    PooledIsOnlyPools(caps);
    NeverInTheWayExactly(PooledPolicy(caps), false);
  }

  lemma PooledBudgets(caps: EffectCaps)
    requires ValidEffectCaps(caps)
    ensures var p := PooledPolicy(caps);
            p.rolling24h == Allocated(p) && FillablePools(p) && !AtMost(Needed(p, false), p.rolling24h)
  {
    OneEffectIsFillable(caps);
    hide Fillable;
    assert Allocated(PooledPolicy(caps)).attempts == 3;
  }
}

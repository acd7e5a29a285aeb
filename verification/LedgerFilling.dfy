/** Runs that fill the class pools one effect at a time, until a shared budget refuses. */
module LedgerFilling {
  import opened Prelude
  import opened Budget
  import opened Calendar
  import opened LedgerRecords
  import opened Accounting
  import opened LedgerSpec
  import opened LedgerRuns
  import opened LedgerDurable
  import opened LedgerScenarios

  /** The most that a single effect can reserve. */
  const ONE_EFFECT := Amounts(1, MAX_TOKENS, MAX_COST_MICROUSD, MAX_TIMEOUT_SECS)

  const FULL_CAPS := EffectCaps(MAX_TIMEOUT_SECS, MAX_TOKENS, MAX_COST_MICROUSD, 1, 0, 0)

  /** After a run, a request whose own pool has room for it is refused for some reason. */
  ghost predicate RefusedDespiteRoom(events: seq<Event>, p: Policy, request: Request, nowMs: int, refusal: Refusal) {
    && MixedRun(events, p) && SharesPolicy(request, p) && RequestRecord(request, nowMs).Some?
    && OwnPoolHasRoom(After(EMPTY, events), p, RequestRecord(request, nowMs).value)
    && Headroom(After(EMPTY, events), request, nowMs) == Some(Refused(refusal))
  }

  lemma RefusalFacts(events: seq<Event>, p: Policy, request: Request, nowMs: int, refusal: Refusal)
    requires RefusedDespiteRoom(events, p, request, nowMs, refusal)
    ensures MixedRun(events, p) && SharesPolicy(request, p) && RequestRecord(request, nowMs).Some?
    ensures OwnPoolHasRoom(After(EMPTY, events), p, RequestRecord(request, nowMs).value)
    ensures Headroom(After(EMPTY, events), request, nowMs) == Some(Refused(refusal))
  {
    hide RequestRecord;
    hide Headroom;
    hide OwnPoolHasRoom;
    hide After;
  }

  // ---- Pools as sums of effects ----

  ghost predicate AllValid(effects: seq<EffectCaps>) {
    forall i :: 0 <= i < |effects| ==> ValidEffectCaps(effects[i])
  }

  function SumOf(effects: seq<EffectCaps>): Amounts {
    if effects == [] then NOTHING else Plus(FromCaps(effects[0]), SumOf(effects[1..]))
  }

  /** As many effects as the pool has attempts can use up all of it. */
  predicate Fillable(pool: Amounts) {
    && 0 < pool.attempts
    && pool.attempts <= pool.tokens <= pool.attempts * MAX_TOKENS
    && pool.costMicrousd <= pool.attempts * MAX_COST_MICROUSD
    && pool.attempts <= pool.timeSecs <= pool.attempts * MAX_TIMEOUT_SECS
  }

  function Least(a: int, b: int): int {
    if a <= b then a else b
  }

  lemma {:induction false} EffectsOf(pool: Amounts) returns (effects: seq<EffectCaps>)
    requires Fillable(pool)
    ensures effects != [] && AllValid(effects) && SumOf(effects) == pool
    decreases pool.attempts
  {
    var others := pool.attempts - 1;
    var first := EffectCaps(Least(pool.timeSecs - others, MAX_TIMEOUT_SECS), Least(pool.tokens - others, MAX_TOKENS),
                            Least(pool.costMicrousd, MAX_COST_MICROUSD), 1, 0, 0);
    effects := [first];
    if others == 0 {
      assert SumOf(effects[1..]) == NOTHING;
    } else {
      var rest := EffectsOf(Amounts(others, pool.tokens - first.maxTokens, pool.costMicrousd - first.maxCostMicrousd,
                                    pool.timeSecs - first.timeoutSecs));
      effects := [first] + rest;
      assert effects[1..] == rest;
    }
  }

  lemma {:induction false} SumIsFillable(effects: seq<EffectCaps>)
    requires effects != [] && AllValid(effects)
    ensures Fillable(SumOf(effects))
  {
    if |effects| == 1 {
      assert SumOf(effects[1..]) == NOTHING;
    } else {
      SumIsFillable(effects[1..]);
    }
  }

  /** A pool is a sum of effects exactly when its amounts lie between its attempts and what those can reserve. */
  lemma FillableExactly(pool: Amounts)
    ensures Fillable(pool) <==> exists effects :: effects != [] && AllValid(effects) && SumOf(effects) == pool
  {
    if Fillable(pool) {
      var effects := EffectsOf(pool);
    } else {
      forall effects | effects != [] && AllValid(effects) ensures SumOf(effects) != pool {
        SumIsFillable(effects);
      }
    }
  }

  ghost predicate FillablePools(p: Policy) {
    Fillable(p.protectedScheduled) && Fillable(p.protectedTestMerge) && Fillable(p.manualUnallocated)
  }

  // ---- Runs under construction ----

  /** A run, what its reservations hold, and the number of the next attempt. */
  datatype Built = Built(events: seq<Event>, held: Held, next: nat)

  function Attempt(n: nat): string {
    seq(n, _ => 'a')
  }

  /** Every reservation of the state was made at one of two times. */
  ghost predicate MadeAt(s: LedgerState, fromMs: int, atMs: int) {
    forall id :: id in s.reservations ==> s.reservations[id].record.reservedAtMs in {fromMs, atMs}
  }

  ghost predicate Unused(s: LedgerState, next: nat) {
    forall j: nat :: j >= next ==> WantedId(Attempt(j)) !in s.reservations
  }

  /** All steps of the run completed and its reservations are a load; characterizations only if allowed. */
  ghost predicate Builds(b: Built, p: Policy, fromMs: int, atMs: int, oneShots: bool)
    requires UtcDayId(atMs).Ok?
  {
    && Completed(b.events) && MixedRun(b.events, p) && (oneShots || SharedRun(b.events, p))
    && Load(After(EMPTY, b.events), atMs, b.held)
    && MadeAt(After(EMPTY, b.events), fromMs, atMs) && Unused(After(EMPTY, b.events), b.next)
    && AtMost(InWindow(b.held), Plus(ONE_EFFECT, p.utcDay))
  }

  const NOTHING_BUILT := Built([], NOTHING_HELD, 0)

  lemma BuildsNothing(p: Policy, atMs: int, oneShots: bool)
    requires UtcDayId(atMs).Ok?
    ensures Builds(NOTHING_BUILT, p, atMs, atMs, oneShots)
  {
    NoLoad(EMPTY, atMs);
    hide UtcDayId;
    hide Load;
  }

  lemma BuildFacts(b: Built, p: Policy, fromMs: int, atMs: int, oneShots: bool)
    requires UtcDayId(atMs).Ok? && Builds(b, p, fromMs, atMs, oneShots)
    ensures Completed(b.events) && MixedRun(b.events, p) && (oneShots || SharedRun(b.events, p))
    ensures Load(After(EMPTY, b.events), atMs, b.held)
    ensures WantedId(Attempt(b.next)) !in After(EMPTY, b.events).reservations
    ensures AtMost(InWindow(b.held), Plus(ONE_EFFECT, p.utcDay))
  {
    hide UtcDayId;
    hide Load;
    hide After;
    hide Attempt;
    hide AtMost;
    hide Plus;
  }

  /** Room in the three budgets that are left to check. */
  predicate HasRoom(held: Held, p: Policy, c: AccountingClass, caps: EffectCaps) {
    && AtMost(Plus(Filled(held, c), FromCaps(caps)), PoolCap(c, caps, p))
    && AtMost(Plus(held.today, FromCaps(caps)), DayCap(c, caps, p))
    && AtMost(Plus(InWindow(held), FromCaps(caps)), RollingCap(c, caps, p))
  }

  lemma RoomFacts(held: Held, p: Policy, c: AccountingClass, caps: EffectCaps)
    requires OnlyPools(p) && ValidEffectCaps(caps) && HasRoom(held, p, c, caps)
    ensures AtMost(Plus(Filled(held, c), FromCaps(caps)), PoolCap(c, caps, p))
    ensures AtMost(Plus(held.today, FromCaps(caps)), DayCap(c, caps, p))
    ensures AtMost(Plus(InWindow(held), FromCaps(caps)), RollingCap(c, caps, p))
    ensures Representable(Plus(InWindow(held), FromCaps(caps)))
    ensures AtMost(InWindow(WithMore(held, c, FromCaps(caps))), Plus(ONE_EFFECT, p.utcDay))
  {
    hide PoolCap;
    hide Filled;
    hide ValidNamed;
    hide ValidTriggers;
    hide FindNamed;
    hide FindTrigger;
  }

  lemma BuildsOneMore(b: Built, p: Policy, fromMs: int, atMs: int, oneShots: bool, c: AccountingClass,
                      caps: EffectCaps)
                      returns (more: Built)
    requires UtcDayId(atMs).Ok? && Builds(b, p, fromMs, atMs, oneShots) && OnlyPools(p) && ValidEffectCaps(caps)
    requires HasRoom(b.held, p, c, caps) && (c == CharacterizationClass ==> oneShots)
    ensures Builds(more, p, fromMs, atMs, oneShots) && more.held == WithMore(b.held, c, FromCaps(caps))
  {
    var s, attempt := After(EMPTY, b.events), Attempt(b.next);
    var request := Wanted(c, caps, p, attempt);
    more := Built(b.events + [Reserve(request, atMs, Persists)], WithMore(b.held, c, FromCaps(caps)), b.next + 1);
    hide *;
    BuildFacts(b, p, fromMs, atMs, oneShots);
    WantedShares(c, caps, p, attempt);
    RunMirrors(b.events);
    NoFileYet(s, WantedId(attempt));
    WantedIsValid(c, caps, p, attempt, atMs);
    RoomFacts(b.held, p, c, caps);
    HeadroomUnderLoad(s, atMs, b.held, c, caps, p, attempt);
    RoomReserves(s, request, atMs, Persists);
    var record := RequestRecord(request, atMs).value;
    AfterReserving(b.events, request, atMs, Persists);
    var s' := After(EMPTY, more.events);
    LoadGrowsBy(s, atMs, b.held, record, s');
    BuildsAgain(b, p, fromMs, atMs, oneShots, request, record, more);
  }

  lemma LoadGrowsBy(s: LedgerState, atMs: int, held: Held, record: Reservation, s': LedgerState)
    requires UtcDayId(atMs).Ok? && Load(s, atMs, held) && record.reservedAtMs == atMs
    requires record.reservationId !in s.reservations && s'.imports == s.imports
    requires s'.reservations == s.reservations[record.reservationId := Stored(record, None)]
    ensures Load(s', atMs, WithMore(held, record.accountingClass, FromCaps(record.caps)))
  {
    assert Adds(s, record, s');
    hide *;
    LoadGrows(s, atMs, held, record, s');
  }

  lemma WantedShares(c: AccountingClass, caps: EffectCaps, p: Policy, attempt: string)
    ensures var request := Wanted(c, caps, p, attempt);
            if c == CharacterizationClass then request.budgetAuthority.CharacterizationBudget?
            else SharesPolicy(request, p)
  {
  }

  lemma NoFileYet(s: LedgerState, id: ReservationId)
    requires Mirrors(s) && id !in s.reservations
    ensures ReservationFile(id) !in s.directory
  {
    assert MirrorsFile(s, ReservationFile(id));
  }

  lemma AfterReserving(events: seq<Event>, request: Request, atMs: int, disk: Disk)
    ensures After(EMPTY, events + [Reserve(request, atMs, disk)])
            == Reserved(After(EMPTY, events), request, atMs, disk).0
  {
    hide Reserved;
    assert (events + [Reserve(request, atMs, disk)])[..|events|] == events;
  }

  lemma BuildsAgain(b: Built, p: Policy, fromMs: int, atMs: int, oneShots: bool, request: Request, record: Reservation,
                    more: Built)
    requires UtcDayId(atMs).Ok? && Builds(b, p, fromMs, atMs, oneShots)
    requires more.events == b.events + [Reserve(request, atMs, Persists)] && more.next == b.next + 1
    requires SharesPolicy(request, p) || (oneShots && request.budgetAuthority.CharacterizationBudget?)
    requires Load(After(EMPTY, more.events), atMs, more.held)
    requires record.reservationId == WantedId(Attempt(b.next)) && record.reservedAtMs == atMs
    requires After(EMPTY, more.events).reservations
          == After(EMPTY, b.events).reservations[record.reservationId := Stored(record, None)]
    requires AtMost(InWindow(more.held), Plus(ONE_EFFECT, p.utcDay))
    ensures Builds(more, p, fromMs, atMs, oneShots)
  {
    hide UtcDayId;
    hide Load;
    hide After;
    hide AtMost;
    hide Plus;
    hide InWindow;
    hide SharesPolicy;
    assert forall j: nat :: j > b.next ==> |Attempt(j)| != |Attempt(b.next)|;
  }

  // ---- Filling ----

  /** At the end of the run a request has room in its own pool and a shared budget refuses it. */
  ghost predicate Stops(b: Built, p: Policy, atMs: int, oneShots: bool, request: Request, refusal: Refusal) {
    && RefusedDespiteRoom(b.events, p, request, atMs, refusal) && (oneShots || SharedRun(b.events, p))
    && (refusal == UtcDayExhausted || refusal == Rolling24hExhausted)
  }

  lemma StopFacts(b: Built, p: Policy, atMs: int, oneShots: bool, request: Request, refusal: Refusal)
    requires Stops(b, p, atMs, oneShots, request, refusal)
    ensures RefusedDespiteRoom(b.events, p, request, atMs, refusal) && (oneShots || SharedRun(b.events, p))
    ensures refusal == UtcDayExhausted || refusal == Rolling24hExhausted
  {
    hide RefusedDespiteRoom;
    hide SharedRun;
  }

  lemma StopsUnderLoad(b: Built, p: Policy, fromMs: int, atMs: int, oneShots: bool, c: AccountingClass,
                       caps: EffectCaps)
                       returns (request: Request, refusal: Refusal)
    requires UtcDayId(atMs).Ok? && Builds(b, p, fromMs, atMs, oneShots) && OnlyPools(p) && ValidEffectCaps(caps)
    requires c != CharacterizationClass && AtMost(Plus(Filled(b.held, c), FromCaps(caps)), PoolCap(c, caps, p))
    requires !HasRoom(b.held, p, c, caps)
    ensures Stops(b, p, atMs, oneShots, request, refusal)
    ensures refusal == UtcDayExhausted || b.held.before != NOTHING || p.rolling24h != p.utcDay
  {
    var s := After(EMPTY, b.events);
    request := Wanted(c, caps, p, Attempt(b.next));
    hide *;
    BuildFacts(b, p, fromMs, atMs, oneShots);
    WantedShares(c, caps, p, Attempt(b.next));
    WantedIsValid(c, caps, p, Attempt(b.next), atMs);
    refusal := NoRoomFacts(b.held, p, c, caps);
    HeadroomUnderLoad(s, atMs, b.held, c, caps, p, Attempt(b.next));
    LoadFacts(s, atMs, b.held, c);
    StopsHere(b, p, atMs, oneShots, request, refusal, c, caps);
  }

  lemma NoRoomFacts(held: Held, p: Policy, c: AccountingClass, caps: EffectCaps) returns (refusal: Refusal)
    requires OnlyPools(p) && ValidEffectCaps(caps) && !HasRoom(held, p, c, caps) && c != CharacterizationClass
    requires AtMost(InWindow(held), Plus(ONE_EFFECT, p.utcDay))
    requires AtMost(Plus(Filled(held, c), FromCaps(caps)), PoolCap(c, caps, p))
    ensures Representable(Plus(InWindow(held), FromCaps(caps)))
    ensures if !AtMost(Plus(held.today, FromCaps(caps)), DayCap(c, caps, p)) then refusal == UtcDayExhausted
            else refusal == Rolling24hExhausted && !AtMost(Plus(InWindow(held), FromCaps(caps)), RollingCap(c, caps, p))
    ensures refusal == UtcDayExhausted || held.before != NOTHING || p.rolling24h != p.utcDay
  {
    hide PoolCap;
    hide Filled;
    hide ValidNamed;
    hide ValidTriggers;
    hide FindNamed;
    hide FindTrigger;
    refusal := if AtMost(Plus(held.today, FromCaps(caps)), DayCap(c, caps, p)) then Rolling24hExhausted
               else UtcDayExhausted;
  }

  lemma StopsHere(b: Built, p: Policy, atMs: int, oneShots: bool, request: Request, refusal: Refusal,
                  c: AccountingClass, caps: EffectCaps)
    requires MixedRun(b.events, p) && (oneShots || SharedRun(b.events, p)) && SharesPolicy(request, p)
    requires RequestRecord(request, atMs).Some? && c != CharacterizationClass
    requires var proposed := RequestRecord(request, atMs).value;
             && proposed.accountingClass == c && proposed.caps == caps
             && Total(After(EMPTY, b.events), ClassOnDay(c, proposed.utcDayId)) == Filled(b.held, c)
    requires AtMost(Plus(Filled(b.held, c), FromCaps(caps)), PoolCap(c, caps, p))
    requires Headroom(After(EMPTY, b.events), request, atMs) == Some(Refused(refusal))
    requires refusal == UtcDayExhausted || refusal == Rolling24hExhausted
    ensures Stops(b, p, atMs, oneShots, request, refusal)
  {
    hide MixedRun;
    hide SharedRun;
    hide SharesPolicy;
    hide RequestRecord;
    hide Total;
    hide After;
    hide Headroom;
    hide Filled;
    hide Plus;
    hide AtMost;
    hide FromCaps;
  }

  /** From one load to another, only the class was filled, by the given amounts. */
  ghost predicate FilledBy(held: Held, c: AccountingClass, more: Amounts, after: Held) {
    && after.before == held.before && after.today == Plus(held.today, more)
    && forall d :: Filled(after, d) == if d == c then Plus(Filled(held, c), more) else Filled(held, d)
  }

  lemma FilledByNothing(held: Held, c: AccountingClass)
    ensures FilledBy(held, c, NOTHING, held)
  {
    PlusNothing(held.today);
    PlusNothing(Filled(held, c));
    hide Plus;
    hide Filled;
  }

  lemma FilledByMore(held: Held, c: AccountingClass, first: Amounts, rest: Amounts, after: Held)
    requires FilledBy(WithMore(held, c, first), c, rest, after)
    ensures FilledBy(held, c, Plus(first, rest), after)
  {
    var middle := WithMore(held, c, first);
    assert Filled(middle, c) == Plus(Filled(held, c), first);
    assert forall d :: d != c ==> Filled(middle, d) == Filled(held, d);
    Associates(held.today, first, rest);
    Associates(Filled(held, c), first, rest);
    hide Plus;
    hide Filled;
  }

  lemma Associates(a: Amounts, b: Amounts, c: Amounts)
    ensures Plus(Plus(a, b), c) == Plus(a, Plus(b, c))
  {
  }

  /** What is filled lies within the shared budgets. */
  predicate FitsShared(held: Held, p: Policy) {
    AtMost(held.today, p.utcDay) && AtMost(InWindow(held), p.rolling24h)
  }

  lemma SharedFacts(held: Held, p: Policy)
    requires FitsShared(held, p)
    ensures AtMost(held.today, p.utcDay) && AtMost(Plus(held.before, held.today), p.rolling24h)
  {
    hide AtMost;
  }

  lemma FirstOf(held: Held, p: Policy, c: AccountingClass, effects: seq<EffectCaps>)
    requires effects != [] && AllValid(effects) && c != CharacterizationClass && PoolOf(p, c).Some?
    requires AtMost(Plus(Filled(held, c), SumOf(effects)), PoolOf(p, c).value)
    ensures ValidEffectCaps(effects[0]) && AllValid(effects[1..])
    ensures SumOf(effects) == Plus(FromCaps(effects[0]), SumOf(effects[1..]))
    ensures AtMost(Plus(Filled(held, c), FromCaps(effects[0])), PoolCap(c, effects[0], p))
    ensures var next := WithMore(held, c, FromCaps(effects[0]));
            AtMost(Plus(Filled(next, c), SumOf(effects[1..])), PoolOf(p, c).value)
  {
    hide ValidEffectCaps;
    hide PoolOf;
    hide FromCaps;
  }

  lemma RoomKeepsShared(held: Held, p: Policy, c: AccountingClass, caps: EffectCaps)
    requires HasRoom(held, p, c, caps) && c != CharacterizationClass
    ensures FitsShared(WithMore(held, c, FromCaps(caps)), p)
  {
    hide FromCaps;
    hide PoolCap;
  }

  /** Effects that fit their pool together are all admitted, or a shared budget stops the run at one of them. */
  lemma {:induction false} FillClass(b: Built, p: Policy, fromMs: int, atMs: int, oneShots: bool, c: AccountingClass,
                                     effects: seq<EffectCaps>)
                                     returns (more: Built, stop: Option<(Request, Refusal)>)
    requires UtcDayId(atMs).Ok? && Builds(b, p, fromMs, atMs, oneShots) && OnlyPools(p)
    requires c != CharacterizationClass && PoolOf(p, c).Some? && AllValid(effects)
    requires AtMost(Plus(Filled(b.held, c), SumOf(effects)), PoolOf(p, c).value)
    ensures match stop
            case None =>
              && Builds(more, p, fromMs, atMs, oneShots) && FilledBy(b.held, c, SumOf(effects), more.held)
              && (effects != [] ==> FitsShared(more.held, p))
            case Some((request, refusal)) =>
              && Stops(more, p, atMs, oneShots, request, refusal)
              && (refusal == UtcDayExhausted || b.held.before != NOTHING || p.rolling24h != p.utcDay)
    decreases |effects|
  {
    hide *;
    more, stop := b, None;
    if effects == [] {
      NoEffects(effects);
      FilledByNothing(b.held, c);
    } else {
      FirstOf(b.held, p, c, effects);
      if HasRoom(b.held, p, c, effects[0]) {
        RoomKeepsShared(b.held, p, c, effects[0]);
        var one := BuildsOneMore(b, p, fromMs, atMs, oneShots, c, effects[0]);
        WithMoreFacts(b.held, c, FromCaps(effects[0]));
        more, stop := FillClass(one, p, fromMs, atMs, oneShots, c, effects[1..]);
        if stop.None? {
          FilledByMore(b.held, c, FromCaps(effects[0]), SumOf(effects[1..]), more.held);
          if effects[1..] == [] {
            NoEffects(effects[1..]);
            StaysWithin(one.held, p, c, more.held);
          }
        }
      } else {
        var request, refusal := StopsUnderLoad(b, p, fromMs, atMs, oneShots, c, effects[0]);
        stop := Some((request, refusal));
      }
    }
  }

  lemma NoEffects(effects: seq<EffectCaps>)
    requires effects == []
    ensures SumOf(effects) == NOTHING
  {
  }

  lemma WithMoreFacts(held: Held, c: AccountingClass, more: Amounts)
    ensures WithMore(held, c, more).before == held.before
  {
  }

  lemma StaysWithin(held: Held, p: Policy, c: AccountingClass, after: Held)
    requires FilledBy(held, c, NOTHING, after) && FitsShared(held, p)
    ensures FitsShared(after, p)
  {
    PlusNothing(held.today);
  }

  lemma PoolsOf(p: Policy)
    ensures PoolOf(p, ScheduledClass) == Some(p.protectedScheduled)
    ensures PoolOf(p, TestMergeClass) == Some(p.protectedTestMerge)
    ensures PoolOf(p, ManualClass) == Some(p.manualUnallocated)
  {
  }

  /** The whole of a pool that is still empty is filled, or a shared budget stops the run. */
  lemma FillPool(b: Built, p: Policy, fromMs: int, atMs: int, oneShots: bool, c: AccountingClass)
    returns (more: Built, stop: Option<(Request, Refusal)>)
    requires UtcDayId(atMs).Ok? && Builds(b, p, fromMs, atMs, oneShots) && OnlyPools(p)
    requires c != CharacterizationClass && PoolOf(p, c).Some? && Fillable(PoolOf(p, c).value)
    requires Filled(b.held, c) == NOTHING
    ensures match stop
            case None =>
              && Builds(more, p, fromMs, atMs, oneShots) && FilledBy(b.held, c, PoolOf(p, c).value, more.held)
              && FitsShared(more.held, p)
            case Some((request, refusal)) =>
              && Stops(more, p, atMs, oneShots, request, refusal)
              && (refusal == UtcDayExhausted || b.held.before != NOTHING || p.rolling24h != p.utcDay)
  {
    hide *;
    var effects := EffectsOf(PoolOf(p, c).value);
    PlusNothing(SumOf(effects));
    AtMostItself(SumOf(effects));
    more, stop := FillClass(b, p, fromMs, atMs, oneShots, c, effects);
  }

  ghost predicate NothingFilled(held: Held) {
    forall c :: c != CharacterizationClass ==> Filled(held, c) == NOTHING
  }

  lemma OthersStayEmpty(held: Held, c: AccountingClass, more: Amounts, after: Held)
    requires FilledBy(held, c, more, after)
    ensures after.before == held.before && after.today == Plus(held.today, more)
    ensures forall d :: d != c ==> Filled(after, d) == Filled(held, d)
  {
    hide Plus;
    hide Filled;
  }

  lemma FillableFacts(p: Policy)
    requires FillablePools(p)
    ensures Fillable(p.protectedScheduled) && Fillable(p.protectedTestMerge) && Fillable(p.manualUnallocated)
  {
    hide Fillable;
  }

  lemma ThreePools(today: Amounts, p: Policy)
    ensures Plus(Plus(Plus(today, p.protectedScheduled), p.protectedTestMerge), p.manualUnallocated)
         == Plus(today, Allocated(p))
  {
  }

  /** All three pools are filled on a day, or a shared budget stops the run. */
  lemma FillPools(b: Built, p: Policy, fromMs: int, atMs: int, oneShots: bool)
    returns (more: Built, stop: Option<(Request, Refusal)>)
    requires UtcDayId(atMs).Ok? && Builds(b, p, fromMs, atMs, oneShots) && OnlyPools(p) && FillablePools(p)
    requires NothingFilled(b.held)
    ensures match stop
            case None =>
              && Builds(more, p, fromMs, atMs, oneShots) && FitsShared(more.held, p)
              && more.held.before == b.held.before && more.held.today == Plus(b.held.today, Allocated(p))
            case Some((request, refusal)) =>
              && Stops(more, p, atMs, oneShots, request, refusal)
              && (refusal == UtcDayExhausted || b.held.before != NOTHING || p.rolling24h != p.utcDay)
  {
    assert forall c :: c != CharacterizationClass ==> Filled(b.held, c) == NOTHING;
    hide *;
    FillableFacts(p);
    PoolsOf(p);
    ThreePools(b.held.today, p);
    more, stop := FillPool(b, p, fromMs, atMs, oneShots, ScheduledClass);
    if stop.None? {
      var first := more;
      OthersStayEmpty(b.held, ScheduledClass, p.protectedScheduled, first.held);
      more, stop := FillPool(first, p, fromMs, atMs, oneShots, TestMergeClass);
      if stop.None? {
        var second := more;
        OthersStayEmpty(first.held, TestMergeClass, p.protectedTestMerge, second.held);
        more, stop := FillPool(second, p, fromMs, atMs, oneShots, ManualClass);
        if stop.None? {
          OthersStayEmpty(second.held, ManualClass, p.manualUnallocated, more.held);
        }
      }
    }
  }

  lemma FullEffect()
    ensures ValidEffectCaps(FULL_CAPS) && FromCaps(FULL_CAPS) == ONE_EFFECT
    ensures NOTHING_BUILT.held == NOTHING_HELD
  {
  }

  lemma OneShotHasRoom(p: Policy, caps: EffectCaps)
    ensures HasRoom(NOTHING_HELD, p, CharacterizationClass, caps)
  {
    PlusNothing(FromCaps(caps));
    PlusNothing(NOTHING);
    AtMostItself(FromCaps(caps));
    hide FromCaps;
    hide Plus;
    hide AtMost;
  }

  lemma OneShotHeld(more: Amounts)
    ensures var held := WithMore(NOTHING_HELD, CharacterizationClass, more);
            held.before == NOTHING && held.today == more && NothingFilled(held)
  {
    PlusNothing(more);
    hide Plus;
  }

  /** A characterization takes a whole effect of an empty day. */
  lemma BuildsCharacterization(p: Policy, atMs: int) returns (b: Built)
    requires UtcDayId(atMs).Ok? && OnlyPools(p)
    ensures Builds(b, p, atMs, atMs, true)
    ensures b.held.before == NOTHING && b.held.today == ONE_EFFECT && NothingFilled(b.held)
  {
    hide *;
    FullEffect();
    OneShotHasRoom(p, FULL_CAPS);
    OneShotHeld(ONE_EFFECT);
    BuildsNothing(p, atMs, true);
    b := BuildsOneMore(NOTHING_BUILT, p, atMs, atMs, true, CharacterizationClass, FULL_CAPS);
  }

  // ---- The next day ----

  lemma OutOfScope(s: LedgerState, scope: Scope)
    requires s.imports == map[]
    requires forall id :: id in s.reservations ==> !InScope(EntryOf(s.reservations[id]), scope)
    ensures Total(s, scope) == NOTHING
  {
    hide Sum;
    hide EntryOf;
    hide InScope;
    SumOfOutside(ReservationEntries(s), scope);
    SumOfNone(ImportEntries(s), scope);
  }

  lemma {:induction false} SumOfOutside<K>(entries: map<K, Entry>, scope: Scope)
    requires forall k :: k in entries ==> !InScope(entries[k], scope)
    ensures Sum(entries, scope) == NOTHING
    decreases |entries|
  {
    hide InScope;
    hide Sum;
    hide Plus;
    if |entries| == 0 {
      SumOfNone(entries, scope);
    } else {
      var k :| k in entries;
      SumSplits(entries, scope, k);
      SumOfOutside(entries - {k}, scope);
      PlusNothing(NOTHING);
    }
  }

  lemma SameScope(s: LedgerState, a: Scope, b: Scope)
    requires s.imports == map[]
    requires forall id :: id in s.reservations ==>
               InScope(EntryOf(s.reservations[id]), a) == InScope(EntryOf(s.reservations[id]), b)
    ensures Total(s, a) == Total(s, b)
  {
    hide Total;
    hide EntryOf;
    hide InScope;
    SharesAreMonotone(s, a, s, b);
    SharesAreMonotone(s, b, s, a);
  }

  ghost predicate Overnight(fromMs: int, atMs: int) {
    && UtcDayId(fromMs).Ok? && UtcDayId(atMs).Ok? && UtcDayId(fromMs) != UtcDayId(atMs)
    && fromMs < atMs < fromMs + DAY_MILLIS
  }

  lemma OvernightEntry(record: Reservation, reconciliation: Option<Reconciliation>, fromMs: int, atMs: int)
    requires Overnight(fromMs, atMs) && record.reservedAtMs == fromMs
    ensures var e := EntryOf(Stored(record, reconciliation));
            && InScope(e, Rolling(fromMs)) && InScope(e, Rolling(atMs))
            && forall scope :: DayOf(scope) == Some(UtcDayId(atMs).value) ==> !InScope(e, scope)
  {
    DayIdNamesTheDay(atMs);
    hide UtcDayId;
    hide Charge;
  }

  function NextMorning(held: Held): Held {
    Held(held.today, NOTHING, map[])
  }

  lemma LoadedOvernight(s: LedgerState, fromMs: int, atMs: int, held: Held, scope: Scope)
    requires UtcDayId(fromMs).Ok? && UtcDayId(atMs).Ok? && Overnight(fromMs, atMs)
    requires Load(s, fromMs, held) && MadeAt(s, fromMs, fromMs) && held.before == NOTHING
    ensures Loaded(s, atMs, UtcDayId(atMs).value, NextMorning(held), scope)
  {
    hide *;
    LoadFacts(s, fromMs, held, ManualClass);
    EntriesOvernight(s, fromMs, atMs, held);
    SameScope(s, Rolling(fromMs), Rolling(atMs));
    if DayOf(scope) == Some(UtcDayId(atMs).value) {
      OutOfScope(s, scope);
    }
    LoadedNextMorning(s, fromMs, atMs, UtcDayId(atMs).value, held, scope);
  }

  lemma EntriesOvernight(s: LedgerState, fromMs: int, atMs: int, held: Held)
    requires Overnight(fromMs, atMs) && Load(s, fromMs, held) && MadeAt(s, fromMs, fromMs)
    ensures s.imports == map[]
    ensures forall id :: id in s.reservations ==>
              && InScope(EntryOf(s.reservations[id]), Rolling(fromMs))
              && InScope(EntryOf(s.reservations[id]), Rolling(atMs))
    ensures forall id, scope :: id in s.reservations && DayOf(scope) == Some(UtcDayId(atMs).value) ==>
              !InScope(EntryOf(s.reservations[id]), scope)
  {
    hide UtcDayId;
    hide ClockRolledBack;
    hide Loaded;
    hide EntryOf;
    hide InScope;
    forall id | id in s.reservations
      ensures InScope(EntryOf(s.reservations[id]), Rolling(fromMs))
      ensures InScope(EntryOf(s.reservations[id]), Rolling(atMs))
      ensures forall scope :: DayOf(scope) == Some(UtcDayId(atMs).value) ==>
                !InScope(EntryOf(s.reservations[id]), scope)
    {
      var stored := s.reservations[id];
      OvernightEntry(stored.record, stored.reconciliation, fromMs, atMs);
    }
  }

  lemma LoadedNextMorning(s: LedgerState, fromMs: int, atMs: int, day: string, held: Held, scope: Scope)
    requires Total(s, Rolling(fromMs)) == Total(s, Rolling(atMs)) == InWindow(held) && held.before == NOTHING
    requires DayOf(scope) == Some(day) ==> Total(s, scope) == NOTHING
    ensures Loaded(s, atMs, day, NextMorning(held), scope)
  {
    PlusNothing(held.today);
    AtMostItself(NOTHING);
    hide Total;
    hide Plus;
    hide AtMost;
  }

  lemma StillLater(s: LedgerState, fromMs: int, atMs: int)
    requires !ClockRolledBack(s, fromMs) && fromMs < atMs
    ensures !ClockRolledBack(s, atMs)
  {
  }

  lemma LoadOvernight(s: LedgerState, fromMs: int, atMs: int, held: Held)
    requires Overnight(fromMs, atMs) && Load(s, fromMs, held) && MadeAt(s, fromMs, fromMs) && held.before == NOTHING
    ensures Load(s, atMs, NextMorning(held))
  {
    assert s.imports == map[];
    StillLater(s, fromMs, atMs);
    hide UtcDayId;
    hide ClockRolledBack;
    hide Loaded;
    hide NextMorning;
    hide MadeAt;
    forall scope ensures Loaded(s, atMs, UtcDayId(atMs).value, NextMorning(held), scope) {
      LoadedOvernight(s, fromMs, atMs, held, scope);
    }
  }

  lemma BuildsOvernight(b: Built, p: Policy, fromMs: int, atMs: int, oneShots: bool) returns (more: Built)
    requires Overnight(fromMs, atMs) && Builds(b, p, fromMs, fromMs, oneShots) && b.held.before == NOTHING
    ensures Builds(more, p, fromMs, atMs, oneShots)
    ensures more.held.before == b.held.today && more.held.today == NOTHING && NothingFilled(more.held)
  {
    more := b.(held := NextMorning(b.held));
    PlusNothing(b.held.today);
    assert NothingFilled(more.held) && InWindow(more.held) == InWindow(b.held);
    hide UtcDayId;
    hide Load;
    hide After;
    hide AtMost;
    hide Plus;
    hide MixedRun;
    hide SharedRun;
    hide Completed;
    LoadOvernight(After(EMPTY, b.events), fromMs, atMs, b.held);
  }
}

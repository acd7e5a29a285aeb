/** Amounts of effect, the caps that bound them and the budget policy of a grant. */
module Budget {
  import opened Prelude

  /** Four independent dimensions. Both accumulated usage and aggregate caps are amounts. */
  datatype Amounts = Amounts(attempts: nat, tokens: nat, costMicrousd: nat, timeSecs: nat)

  const NOTHING := Amounts(0, 0, 0, 0)

  function Plus(a: Amounts, b: Amounts): Amounts {
    Amounts(a.attempts + b.attempts, a.tokens + b.tokens,
            a.costMicrousd + b.costMicrousd, a.timeSecs + b.timeSecs)
  }

  predicate AtMost(a: Amounts, b: Amounts) {
    && a.attempts <= b.attempts
    && a.tokens <= b.tokens
    && a.costMicrousd <= b.costMicrousd
    && a.timeSecs <= b.timeSecs
  }

  /** Every dimension is representable as an unsigned 64-bit integer. */
  predicate Representable(a: Amounts) {
    AtMost(a, Amounts(U64_MAX, U64_MAX, U64_MAX, U64_MAX))
  }

  function CheckedAdd(a: Amounts, b: Amounts): Option<Amounts> {
    if Representable(Plus(a, b)) then Some(Plus(a, b)) else None
  }

  // ---- Caps and charges of one effect ----

  datatype EffectCaps = EffectCaps(timeoutSecs: nat, maxTokens: nat, maxCostMicrousd: nat,
                                   attempts: nat, retryCap: nat, fallbackCap: nat)

  const MAX_TIMEOUT_SECS := 900
  const MAX_TOKENS := 1_000_000
  const MAX_COST_MICROUSD := 100_000_000

  predicate ValidEffectCaps(caps: EffectCaps) {
    && 0 < caps.timeoutSecs <= MAX_TIMEOUT_SECS
    && 0 < caps.maxTokens <= MAX_TOKENS
    && caps.maxCostMicrousd <= MAX_COST_MICROUSD
    && caps.attempts == 1 && caps.retryCap == 0 && caps.fallbackCap == 0
  }

  function FromCaps(caps: EffectCaps): Amounts {
    Amounts(caps.attempts, caps.maxTokens, caps.maxCostMicrousd, caps.timeoutSecs)
  }

  datatype UsageCharge = UsageCharge(attempts: nat, tokens: nat, costMicrousd: nat, elapsedMillis: nat)

  const NO_CHARGE := UsageCharge(0, 0, 0, 0)

  function FromCharge(charge: UsageCharge): Amounts {
    Amounts(charge.attempts, charge.tokens, charge.costMicrousd, (charge.elapsedMillis + 999) / 1_000)
  }

  function SaturatingMillis(secs: nat): nat {
    if secs * 1_000 <= U64_MAX then secs * 1_000 else U64_MAX
  }

  function FullConservativeCharge(caps: EffectCaps): UsageCharge {
    UsageCharge(caps.attempts, caps.maxTokens, caps.maxCostMicrousd, SaturatingMillis(caps.timeoutSecs))
  }

  predicate ChargeWithinCaps(charge: UsageCharge, caps: EffectCaps) {
    && charge.attempts == 1
    && charge.tokens <= caps.maxTokens
    && charge.costMicrousd <= caps.maxCostMicrousd
    && charge.elapsedMillis <= SaturatingMillis(caps.timeoutSecs)
  }

  /** Rounding elapsed milliseconds up to seconds never takes a bounded charge above the reserved caps. */
  lemma ChargeNeverExceedsCaps(charge: UsageCharge, caps: EffectCaps)
    requires ValidEffectCaps(caps) && ChargeWithinCaps(charge, caps)
    ensures AtMost(FromCharge(charge), FromCaps(caps))
  {
    assert SaturatingMillis(caps.timeoutSecs) == caps.timeoutSecs * 1_000;
  }

  /** The conservative charge survives the conversion to seconds exactly: it costs the whole reservation. */
  lemma ConservativeChargeIsTheReservation(caps: EffectCaps)
    requires ValidEffectCaps(caps)
    ensures FromCharge(FullConservativeCharge(caps)) == FromCaps(caps)
  {
    assert SaturatingMillis(caps.timeoutSecs) == caps.timeoutSecs * 1_000;
  }

  // ---- Budget policies ----

  datatype Trigger = ManualCharacterization | ManualCompatibility | Daily | ScheduledMain | TestMerge

  datatype AccountingClass = CharacterizationClass | ScheduledClass | TestMergeClass | ManualClass

  datatype NamedCaps = NamedCaps(id: string, caps: Amounts)
  datatype TriggerCaps = TriggerCaps(trigger: Trigger, caps: Amounts)

  datatype Policy = Policy(
    perCase: seq<NamedCaps>,
    perTriggerPool: seq<TriggerCaps>,
    perProvider: seq<NamedCaps>,
    utcDay: Amounts,
    rolling24h: Amounts,
    protectedScheduled: Amounts,
    protectedTestMerge: Amounts,
    manualUnallocated: Amounts)

  predicate LowerOrDigit(c: char) {
    'a' <= c <= 'z' || '0' <= c <= '9'
  }

  predicate StableId(value: string) {
    && 0 < |value| <= 128
    && LowerOrDigit(value[0])
    && forall i :: 0 <= i < |value| ==> LowerOrDigit(value[i]) || value[i] in "-_."
  }

  predicate ValidAggregateCaps(caps: Amounts) {
    && 0 < caps.attempts <= 10_000
    && 0 < caps.tokens <= 1_000_000_000
    && caps.costMicrousd <= 10_000_000_000
    && 0 < caps.timeSecs <= 31 * 24 * 60 * 60
  }

  predicate ValidNamed(values: seq<NamedCaps>, shared: Amounts) {
    && (forall i :: 0 <= i < |values| ==>
          && ValidAggregateCaps(values[i].caps)
          && AtMost(values[i].caps, shared)
          && StableId(values[i].id))
    && (forall i, j :: 0 <= i < j < |values| ==> values[i].id != values[j].id)
  }

  predicate ValidTriggers(values: seq<TriggerCaps>, shared: Amounts) {
    && (forall i :: 0 <= i < |values| ==> ValidAggregateCaps(values[i].caps) && AtMost(values[i].caps, shared))
    && (forall i, j :: 0 <= i < j < |values| ==> values[i].trigger != values[j].trigger)
  }

  /** The sum of the three class pools; valid pools are far too small to overflow it. */
  function Allocated(p: Policy): Amounts {
    Plus(Plus(p.protectedScheduled, p.protectedTestMerge), p.manualUnallocated)
  }

  predicate ValidPolicy(p: Policy) {
    && ValidAggregateCaps(p.utcDay)
    && ValidAggregateCaps(p.rolling24h)
    && ValidAggregateCaps(p.protectedScheduled)
    && ValidAggregateCaps(p.protectedTestMerge)
    && ValidAggregateCaps(p.manualUnallocated)
    && AtMost(p.rolling24h, p.utcDay)
    && ValidNamed(p.perCase, p.utcDay)
    && ValidNamed(p.perProvider, p.utcDay)
    && ValidTriggers(p.perTriggerPool, p.utcDay)
    && AtMost(Allocated(p), p.utcDay)
    && AtMost(Allocated(p), p.rolling24h)
  }

  function FindNamed(values: seq<NamedCaps>, id: string): Option<Amounts> {
    if values == [] then None
    else if values[0].id == id then Some(values[0].caps)
    else FindNamed(values[1..], id)
  }

  function FindTrigger(values: seq<TriggerCaps>, trigger: Trigger): Option<Amounts> {
    if values == [] then None
    else if values[0].trigger == trigger then Some(values[0].caps)
    else FindTrigger(values[1..], trigger)
  }

  /** The pool a class draws from under a grant; characterization has none. */
  function PoolOf(p: Policy, c: AccountingClass): Option<Amounts> {
    match c
    case CharacterizationClass => None
    case ScheduledClass => Some(p.protectedScheduled)
    case TestMergeClass => Some(p.protectedTestMerge)
    case ManualClass => Some(p.manualUnallocated)
  }
}

/** Usage totals: sums of the charges of the entries that a scope selects. */
module Accounting {
  import opened Prelude
  import opened Budget
  import opened Calendar
  import opened LedgerRecords

  datatype Entry = Entry(
    caseId: string,
    providerFamily: string,
    trigger: Trigger,
    accountingClass: AccountingClass,
    admittedAtMs: int,
    rollingExpiresAtMs: int,
    charge: Amounts)

  function EntryOf(stored: Stored): Entry {
    var r := stored.record;
    Entry(r.caseId, r.providerFamily, r.trigger, r.accountingClass, r.reservedAtMs,
          SaturatingAddDay(r.reservedAtMs), Charge(stored))
  }

  function EntryOfImport(v: LegacyImport): Entry {
    Entry(v.caseId, v.providerFamily, v.trigger, v.accountingClass, v.observedAtMs,
          v.rollingExpiresAtMs, v.chargedUsage)
  }

  /** The filters admission uses, and the half-open intervals of admission times used to state safety. */
  datatype Scope =
    | OnDay(day: string)
    | Rolling(nowMs: int)
    | CaseOnDay(caseId: string, day: string)
    | ProviderOnDay(providerFamily: string, day: string)
    | TriggerOnDay(trigger: Trigger, day: string)
    | ClassOnDay(accountingClass: AccountingClass, day: string)
    | AdmittedWithin(afterMs: int, untilMs: int)
    | ClassWithin(accountingClass: AccountingClass, afterMs: int, untilMs: int)

  predicate AdmittedOn(e: Entry, day: string) {
    UtcDayId(e.admittedAtMs) == Ok(day)
  }

  predicate InScope(e: Entry, scope: Scope) {
    match scope
    case OnDay(day) => AdmittedOn(e, day)
    case Rolling(nowMs) => e.rollingExpiresAtMs > nowMs
    case CaseOnDay(caseId, day) => e.caseId == caseId && AdmittedOn(e, day)
    case ProviderOnDay(provider, day) => e.providerFamily == provider && AdmittedOn(e, day)
    case TriggerOnDay(trigger, day) => e.trigger == trigger && AdmittedOn(e, day)
    case ClassOnDay(c, day) => e.accountingClass == c && AdmittedOn(e, day)
    case AdmittedWithin(afterMs, untilMs) => afterMs < e.admittedAtMs <= untilMs
    case ClassWithin(c, afterMs, untilMs) => e.accountingClass == c && afterMs < e.admittedAtMs <= untilMs
  }

  function Share(e: Entry, scope: Scope): Amounts {
    if InScope(e, scope) then e.charge else NOTHING
  }

  /** The sum of the shares of all entries, whatever the order they are visited in. */
  ghost function Sum<K>(entries: map<K, Entry>, scope: Scope): Amounts
    decreases |entries|
  {
    if |entries| == 0 then NOTHING
    else
      var k :| k in entries;
      Plus(Share(entries[k], scope), Sum(entries - {k}, scope))
  }

  lemma SumOfNone<K>(entries: map<K, Entry>, scope: Scope)
    requires |entries| == 0
    ensures Sum(entries, scope) == NOTHING
  {
  }

  lemma {:induction false} SumSplits<K>(entries: map<K, Entry>, scope: Scope, k: K)
    requires k in entries
    ensures Sum(entries, scope) == Plus(Share(entries[k], scope), Sum(entries - {k}, scope))
    decreases |entries|
  {
    hide Share;
    var picked :|
      picked in entries && Sum(entries, scope) == Plus(Share(entries[picked], scope), Sum(entries - {picked}, scope));
    if picked != k {
      var neither := entries - {picked} - {k};
      SumSplits(entries - {picked}, scope, k);
      SumSplits(entries - {k}, scope, picked);
      assert entries - {k} - {picked} == neither;
      Exchange(Share(entries[picked], scope), Share(entries[k], scope), Sum(neither, scope));
    }
  }

  lemma Exchange(a: Amounts, b: Amounts, c: Amounts)
    ensures Plus(a, Plus(b, c)) == Plus(b, Plus(a, c))
  {
  }

  /** Setting one entry replaces its old share, if it had one, by the new one. */
  lemma SumOfUpdate<K>(entries: map<K, Entry>, scope: Scope, k: K, e: Entry)
    ensures Sum(entries[k := e], scope) == Plus(Share(e, scope), Sum(entries - {k}, scope))
  {
    hide Share;
    SumSplits(entries[k := e], scope, k);
    assert entries[k := e] - {k} == entries - {k};
  }

  /** Entry by entry at most as much gives in total at most as much. */
  lemma {:induction false} SumIsMonotone<K>(less: map<K, Entry>, a: Scope, more: map<K, Entry>, b: Scope)
    requires less.Keys <= more.Keys
    requires forall k :: k in less ==> AtMost(Share(less[k], a), Share(more[k], b))
    ensures AtMost(Sum(less, a), Sum(more, b))
    decreases |less|
  {
    hide Share;
    hide Sum;
    if |less| == 0 {
      SumOfNone(less, a);
    } else {
      var k :| k in less;
      SumSplits(less, a, k);
      SumSplits(more, b, k);
      var less', more' := less - {k}, more - {k};
      assert forall j :: j in less' ==> less'[j] == less[j] && more'[j] == more[j];
      SumIsMonotone(less', a, more', b);
    }
  }

  function FourClasses(characterization: Amounts, scheduled: Amounts, testMerge: Amounts, manual: Amounts): Amounts {
    Plus(Plus(characterization, scheduled), Plus(testMerge, manual))
  }

  lemma Regroup(a: Amounts, b: Amounts, c: Amounts, d: Amounts, a': Amounts, b': Amounts, c': Amounts, d': Amounts)
    ensures Plus(FourClasses(a, b, c, d), FourClasses(a', b', c', d'))
         == FourClasses(Plus(a, a'), Plus(b, b'), Plus(c, c'), Plus(d, d'))
  {
  }

  lemma PlusNothing(a: Amounts)
    ensures Plus(a, NOTHING) == a && Plus(NOTHING, a) == a
  {
  }

  lemma ClassOfShare(e: Entry, day: string)
    ensures Share(e, OnDay(day))
         == FourClasses(Share(e, ClassOnDay(CharacterizationClass, day)), Share(e, ClassOnDay(ScheduledClass, day)),
                        Share(e, ClassOnDay(TestMergeClass, day)), Share(e, ClassOnDay(ManualClass, day)))
  {
    hide AdmittedOn;
    hide Plus;
    PlusNothing(e.charge);
    PlusNothing(NOTHING);
  }

  /** The four accounting classes partition the charges of a day. */
  lemma {:induction false} ClassesPartitionDay<K>(entries: map<K, Entry>, day: string)
    ensures Sum(entries, OnDay(day))
         == FourClasses(Sum(entries, ClassOnDay(CharacterizationClass, day)),
                        Sum(entries, ClassOnDay(ScheduledClass, day)),
                        Sum(entries, ClassOnDay(TestMergeClass, day)), Sum(entries, ClassOnDay(ManualClass, day)))
    decreases |entries|
  {
    hide Share;
    hide Plus;
    hide FourClasses;
    var s0, s1, s2, s3 := ClassOnDay(CharacterizationClass, day), ClassOnDay(ScheduledClass, day),
                          ClassOnDay(TestMergeClass, day), ClassOnDay(ManualClass, day);
    if |entries| == 0 {
      NoClasses();
    } else {
      hide Sum;
      var k :| k in entries;
      var e, rest := entries[k], entries - {k};
      SumSplits(entries, OnDay(day), k);
      SumSplits(entries, s0, k);
      SumSplits(entries, s1, k);
      SumSplits(entries, s2, k);
      SumSplits(entries, s3, k);
      ClassesPartitionDay(rest, day);
      ClassOfShare(e, day);
      Regroup(Share(e, s0), Share(e, s1), Share(e, s2), Share(e, s3),
              Sum(rest, s0), Sum(rest, s1), Sum(rest, s2), Sum(rest, s3));
    }
  }

  lemma NoClasses()
    ensures FourClasses(NOTHING, NOTHING, NOTHING, NOTHING) == NOTHING
  {
  }

  // ---- Covers ----

  ghost function SumOver<K>(entries: map<K, Entry>, scopes: seq<Scope>): Amounts {
    if scopes == [] then NOTHING else Plus(Sum(entries, scopes[0]), SumOver(entries, scopes[1..]))
  }

  function ShareOver(e: Entry, scopes: seq<Scope>): Amounts {
    if scopes == [] then NOTHING else Plus(Share(e, scopes[0]), ShareOver(e, scopes[1..]))
  }

  predicate InSome(e: Entry, scopes: seq<Scope>) {
    exists i :: 0 <= i < |scopes| && InScope(e, scopes[i])
  }

  lemma {:induction false} ShareIsCovered(e: Entry, scopes: seq<Scope>)
    requires InSome(e, scopes)
    ensures AtMost(e.charge, ShareOver(e, scopes))
  {
    hide InScope;
    if !InScope(e, scopes[0]) {
      var i :| 0 <= i < |scopes| && InScope(e, scopes[i]);
      assert scopes[1..][i - 1] == scopes[i];
      ShareIsCovered(e, scopes[1..]);
    }
  }

  lemma {:induction false} SumOverSplits<K>(entries: map<K, Entry>, scopes: seq<Scope>, k: K)
    requires k in entries
    ensures SumOver(entries, scopes) == Plus(ShareOver(entries[k], scopes), SumOver(entries - {k}, scopes))
  {
    hide Share;
    hide Sum;
    hide Plus;
    if scopes == [] {
      PlusNothing(NOTHING);
    } else {
      var rest := entries - {k};
      SumSplits(entries, scopes[0], k);
      SumOverSplits(entries, scopes[1..], k);
      Interchange(Share(entries[k], scopes[0]), Sum(rest, scopes[0]), ShareOver(entries[k], scopes[1..]),
                  SumOver(rest, scopes[1..]));
    }
  }

  lemma Interchange(a: Amounts, b: Amounts, c: Amounts, d: Amounts)
    ensures Plus(Plus(a, b), Plus(c, d)) == Plus(Plus(a, c), Plus(b, d))
  {
  }

  /** If every entry of a scope lies in one of several others, their sums together are at least its sum. */
  lemma {:induction false} SumIsCovered<K>(entries: map<K, Entry>, scope: Scope, scopes: seq<Scope>)
    requires forall k :: k in entries && InScope(entries[k], scope) ==> InSome(entries[k], scopes)
    ensures AtMost(Sum(entries, scope), SumOver(entries, scopes))
    decreases |entries|
  {
    hide InSome;
    hide Sum;
    hide SumOver;
    hide ShareOver;
    hide InScope;
    if |entries| == 0 {
      SumOfNone(entries, scope);
    } else {
      var k :| k in entries;
      SumSplits(entries, scope, k);
      SumOverSplits(entries, scopes, k);
      SumIsCovered(entries - {k}, scope, scopes);
      if InScope(entries[k], scope) {
        ShareIsCovered(entries[k], scopes);
      }
    }
  }
}

# Verification of the compatibility core

This project models the parts of the bridge that decide, account and judge, and proves what they promise. It is
written for Dafny 4.11; `dafny verify dfyconfig.toml` checks all of it.

| part | modules |
|---|---|
| The crash-conservative effect ledger: UTC days, budgets, records, admission, runs, durability | `Calendar`, `Budget`, `LedgerRecords`, `Accounting`, `LedgerSpec`, `LedgerRuns`, `LedgerUsage`, `LedgerAdmission`, `LedgerDecision`, `LedgerSettlement`, `LedgerScenarios`, `LedgerGrowth`, `LedgerReading`, `LedgerFilling`, `LedgerPools`, `LedgerRolling`, `LedgerHistory`, `LedgerDurable`, `LedgerReopening`, `LedgerDirectory`, `LedgerLapse`, `LedgerCrash`, `Ledger` |
| The bounded canary runner, the checker that recomputes its verdicts, and the comparison with a baseline | `Json`, `SmokeEvidence`, `DriftScan`, `EvidenceMeaning`, `Runner`, `RunnerSafety`, `RunnerReasons`, `RunnerVerdict`, `DriftMeaning`, `Checker`, `CheckerMeaning`, `Comparison`, `ComparisonMeaning` |
| Where an accounting destination that need not exist yet would land | `Destination`, `Creation` |
| The anchored process group under pid reuse | `ProcessGroup` |
| Evaluation statistics: judge validation, pass rates, recall, flips, intervals, significance, spot-check sample | `Judge`, `Metrics`, `MetricsCounts`, `Reals`, `Wilson`, `WilsonScore`, `McNemar`, `Sampler` |
| The canonical form of required environment variables | `Ordering`, `Requirements` |

How the world enters the model:

- Hashes and identifiers derived from hashes are constructors, so they are injective. Record bytes are the record
  itself or unreadable content. A directory is a map from file names to contents.
- What the disk, the clock, the cancellation flag, a child process or the operating system answers is a parameter of
  the operation (`Disk`, `Observation`, `SpawnAnswer`, `OsEvent`). The theorems quantify over all of it.
- Code that works by updating state is a class or a method with loops (`Ledger.FileCompatibilityLedger`,
  `Runner.BuildAggregate`, `Comparison.CompareArtifacts`, `ProcessGroup.AnchoredProcessGroup`, `Sampler.Deal`, ...),
  proved equal to a specification function; the theorems about runs are about that function.
- Specification functions follow the code branch by branch. What their answers mean is stated apart from them, over
  records, rows, JSON paths and counted positions (`LedgerUsage`, `LedgerDecision`, `LedgerSettlement`, `LedgerGrowth`,
  `LedgerReading`, `EvidenceMeaning`, `DriftMeaning`, `RunnerReasons`, `RunnerVerdict`, `CheckerMeaning`,
  `ComparisonMeaning`, `MetricsCounts`, `WilsonScore`).
- Costs, rates and probabilities are exact reals. A cost total that would not be finite saturates as it does in the
  source.

Where the proofs say more or less than one might expect:

- The sliding-window bound does not need the clock-rollback refusal: the rolling check counts every charge that has not
  expired at the time of the request, including charges dated later.
- Against the day budget the protected-pool guarantee is unconditional for standing and manual requests alone. One-shot
  characterizations have no pool of their own and draw on the day budget. At most one effect a day can be drawn that
  way, so the guarantee holds in all runs of a policy whose day has room for one effect of the largest size beside the
  pools (`RoomForOneEffectProtects`). For pools that effects can use up the condition is exact (`ProtectedExactly`).
- Pools are per UTC day and the rolling budget is not, so filling the pools late on one day can have a request refused
  early on the next although its own pool is empty. A policy is valid as soon as its pools fit the rolling budget once
  (`PoolsOnceAreNotEnough`); the shared budgets are never in the way exactly when they fit twice, with one effect more
  if there may be characterizations (`NeverInTheWayExactly`).
- The directory is the authority, but a long-lived ledger checks admissions against memory. A record that was written
  and then not acknowledged is on disk and not in memory, so the next admission can take the directory beyond the
  policy (`UnsyncedRunExceeds`). Reopening before anything more is written for a reservation is exactly what prevents
  this (`KeepsWithinExactly`). The schedule transactions reopen for every operation. Reservations that passed the
  checks stay within the policy in any case (`AdmittedStaysWithin`).
- Asked again for a record whose file is already there, the ledger answers that it is stored without syncing it. If the
  first attempt failed to sync, a machine crash can still lose what was then acknowledged (`AcknowledgedAndLost`). A
  record survives every crash exactly when its creation was once answered (`SurvivesExactly`). The theorems of
  `LedgerDurable`, `LedgerReopening`, `LedgerDirectory` and `LedgerLapse` are about processes that fail and are
  restarted while the files stay.
- An accounting destination behind a dangling link is reported as unavailable. Creating it can still end inside the
  scratch directory (`DanglingLinkLandsInside`); `AnswersMean` says exactly when it cannot.
- The opening comment of `compatibility_process_group.rs` says that every signal revalidates the start identity of the
  anchor. The code does not observe it again; it relies on the child handle that has not been waited for. The model
  follows the code, and `RunKeepsPinned` shows that this is enough.
- The canonical form of required variables is promised to be independent of order, and it is for every list that
  reaches the function: validation accepts no list with a repeated name (`ValidateRequiredEnvironment`,
  `AcceptedIgnoresOrder`). Without that check it would not be; `OrderMattersHere` is a list that validation refuses and
  on which the order shows.

## Model

| member | source | states |
|---|---|---|
| `Calendar.YearOfEraBrackets` | bin/a2a-bridge/src/compatibility_schedule_ledger.rs:517-519 | the closed formula for the year of a 400-year era picks the one year whose days contain the given day, for all 146097 days |
| `Calendar.DaysAreValid` | bin/a2a-bridge/src/compatibility_schedule_ledger.rs:509-525 | every day from the epoch on gets a date that exists in the Gregorian calendar (month lengths of RFC 3339 section 5.7, leap years of Appendix C), and counting that date's days gives the day back |
| `Calendar.ConsecutiveDays` | bin/a2a-bridge/src/compatibility_schedule_ledger.rs:509-525 | the date of the next day is the calendar successor of the date of this day, over every month, year, century and era boundary |
| `Calendar.DayNumberIsInjective` | bin/a2a-bridge/src/compatibility_schedule_ledger.rs:509-525 | no two calendar dates have the same day count |
| `Calendar.DateRoundTrip` | bin/a2a-bridge/src/compatibility_schedule_ledger.rs:509-525 | every calendar date from the epoch on is the date of exactly the day it counts, so date and day number are inverse |
| `Calendar.DayIdNamesTheDay` | bin/a2a-bridge/src/compatibility_schedule_ledger.rs:507-528 | an identifier exists exactly for the positive timestamps through the year 9999; it spells an existing date whose day count is the Euclidean day of the timestamp |
| `Calendar.SameDayId` | bin/a2a-bridge/src/compatibility_schedule_ledger.rs:507-528 | two timestamps share an identifier exactly when they lie in the same UTC day |
| `Budget.ChargeNeverExceedsCaps` | bin/a2a-bridge/src/compatibility_schedule_ledger.rs:117-134 | rounding elapsed milliseconds up to seconds never takes a charge that is within its caps above the reserved amounts |
| `Budget.ConservativeChargeIsTheReservation` | bin/a2a-bridge/src/compatibility_schedule_ledger.rs:719-733 | the conservative charge is within the caps and, converted to seconds through the ceiling division, is the whole reservation in every dimension |
| `LedgerRecords.ReconciliationNeverRaises` | bin/a2a-bridge/src/compatibility_schedule_ledger.rs:735-774 | a reconciliation that is valid for its reservation lowers or keeps every dimension of the charge |
| `Accounting.SumOfUpdate` | bin/a2a-bridge/src/compatibility_schedule_ledger.rs:1008-1039 | in every scope, setting one record replaces exactly its old share of the total by the new one |
| `Accounting.SumIsMonotone` | bin/a2a-bridge/src/compatibility_schedule_ledger.rs:1008-1039 | if every record's share in one scope is at most its share in another ledger's scope, so is the total |
| `Accounting.ClassesPartitionDay` | bin/a2a-bridge/src/compatibility_schedule_ledger.rs:1200-1214 | the four accounting classes partition the charges of a UTC day |
| `LedgerRuns.StepIsSound` | bin/a2a-bridge/src/compatibility_schedule_ledger.rs:1218-1392 | every reservation, reconciliation and import, whatever the disk answers, keeps all records valid and leaves every earlier record and file unchanged |
| `LedgerRuns.RunIsSound` | bin/a2a-bridge/src/compatibility_schedule_ledger.rs:889-1399 | the same for every run of events |
| `LedgerRuns.RunStaysWithinPolicy` | bin/a2a-bridge/src/compatibility_schedule_ledger.rs:1086-1216 | in every run whose requests share one policy, whatever the disk does, for every UTC day the totals in memory of the day, each case, each provider, each standing trigger and each class stay within their caps, and those admitted in any interval of at most 24 hours stay within the rolling cap, in all four dimensions; `LedgerReopening` and `LedgerLapse` say the same of reopened ledgers and of the directory |
| `LedgerRuns.SlidingWindowIsSafe` | bin/a2a-bridge/src/compatibility_schedule_ledger.rs:1086-1153 | the charges admitted in (t - 24 h, t] stay within the rolling cap for every instant t, not only at admissions |
| `LedgerUsage.TotalIsUsed` | bin/a2a-bridge/src/compatibility_schedule_ledger.rs:1001-1039 | a total that admission computes is the sum of the charges of exactly the reservations and imports its filter selects |
| `LedgerUsage.RecordsStayWithinPolicy` | bin/a2a-bridge/src/compatibility_schedule_ledger.rs:1086-1216 | the same safety told from the records alone: in every run that shares a policy, the charges of the reservations made on any day, and of those of any one case, provider, standing trigger or class of it, are within the policy's own entry for it, found by its position; those of any 24 hours are within the rolling cap; a case or provider the policy does not name is charged nothing |
| `LedgerRuns.PoolsStayWithin` | bin/a2a-bridge/src/compatibility_schedule_ledger.rs:1200-1214 | in every run that also admits characterizations, no class ever exceeds its pool on any day |
| `LedgerRuns.ClassTotalsAddUp` | bin/a2a-bridge/src/compatibility_schedule_ledger.rs:1008-1039 | in every state, imports included, the four class totals of a day add up to the total of the day |
| `LedgerRuns.ProtectedPool` | bin/a2a-bridge/src/compatibility_schedule_ledger.rs:288-343 | in a run that also admits characterizations, a request whose own pool has room is refused for the day only if the characterizations of that day leave less than the three pools together; `LedgerPools` turns this into a condition on the policy |
| `LedgerRuns.ProtectedPoolNeverDayRefused` | bin/a2a-bridge/src/compatibility_schedule_ledger.rs:1128-1214 | without characterizations, a standing or manual request whose own pool has room is never refused as day-exhausted, whatever the other classes did |
| `LedgerPools.CharacterizationNeedsEmptyBudgets` | bin/a2a-bridge/src/compatibility_schedule_ledger.rs:415-423 | a characterization is admitted only when nothing is charged to its day or to the last 24 hours, because its own caps are all its limits |
| `LedgerPools.CharacterizationsAreOneEffect` | bin/a2a-bridge/src/compatibility_schedule_ledger.rs:388-424 | in every run with characterizations, those of any one day and those of any 24 hours come to at most one effect of the largest size |
| `LedgerPools.RoomForOneEffectProtects` | bin/a2a-bridge/src/compatibility_schedule_ledger.rs:288-343 | if one effect of the largest size fits the day beside the three pools, then in every run with characterizations no request whose own pool has room is refused for the day |
| `LedgerPools.UnprotectedRun` | bin/a2a-bridge/src/compatibility_schedule_ledger.rs:1122-1141 | for every policy whose pools effects can use up and whose day has less room than that, on any day: a characterization and requests that fill the pools, one of which is refused for the day although its own pool has room |
| `LedgerPools.ProtectedExactly` | bin/a2a-bridge/src/compatibility_schedule_ledger.rs:288-343 | for policies whose pools effects can use up and which have no other tight cap, the pools are protected against the day budget in all runs exactly when one effect of the largest size fits the day beside them |
| `LedgerFilling.FillableExactly` | bin/a2a-bridge/src/compatibility_schedule_ledger.rs:288-343 | a pool of any size is a sum of effects exactly when its tokens and seconds are at least its attempts and no amount exceeds what that many effects can reserve |
| `LedgerFilling.FillPools` | bin/a2a-bridge/src/compatibility_schedule_ledger.rs:1128-1214 | under every load of the last 24 hours, requests that use up all three pools of a day are all admitted and stay within both shared budgets, or one of them is refused by a shared budget although its own pool has room |
| `LedgerRolling.WindowIsTwoDays` | bin/a2a-bridge/src/compatibility_schedule_ledger.rs:1128-1141 | what the rolling check adds up is at most the characterizations of the last 24 hours and the pool classes of two UTC days |
| `LedgerRolling.ProtectedWindow` | bin/a2a-bridge/src/compatibility_schedule_ledger.rs:288-343 | in a run with characterizations, a request whose own pool has room is refused for the rolling budget only if the characterizations of the last 24 hours leave less than twice the three pools |
| `LedgerRolling.EnoughIsNeverInTheWay` | bin/a2a-bridge/src/compatibility_schedule_ledger.rs:288-343 | for every policy: if the rolling budget holds the pools twice, and one effect more where characterizations may run, no request whose own pool has room is ever refused for the day or the rolling budget |
| `LedgerRolling.TwoDayRun` | bin/a2a-bridge/src/compatibility_schedule_ledger.rs:1128-1141 | for every policy whose pools effects can use up and whose rolling budget is smaller than that: pools filled late on one day and again early on the next, until a request is refused by a shared budget although its own pool has room |
| `LedgerRolling.NeverInTheWayExactly` | bin/a2a-bridge/src/compatibility_schedule_ledger.rs:288-343 | for such policies, with characterizations and without, the shared budgets never refuse a request whose own pool has room exactly when the rolling budget holds the pools of two days, and one effect more if there are characterizations |
| `LedgerRolling.PoolsOnceAreNotEnough` | bin/a2a-bridge/src/compatibility_schedule_ledger.rs:316-319 | a valid policy whose rolling budget holds its pools once leaves them unprotected across midnight |
| `LedgerAdmission.AdmittedExactly` | bin/a2a-bridge/src/compatibility_schedule_ledger.rs:1086-1216 | a request not seen before is admitted exactly when no recorded time lies after it and every applicable budget has room for its whole caps without overflow |
| `LedgerAdmission.RefusalNamesFirst` | bin/a2a-bridge/src/compatibility_schedule_ledger.rs:1128-1214 | a budget refusal names the first budget, in order, that the request does not fit; all earlier ones have room |
| `LedgerDecision.AnswersByTheTable` | bin/a2a-bridge/src/compatibility_schedule_ledger.rs:1086-1216 | in every well-formed ledger, the whole answer to a new standing or manual request as a decision table over sums of recorded charges and the entries of the policy: rollback, day, window, case, provider, trigger, pool, in that order, with overflow possible for day and window only |
| `LedgerDecision.RefusedForItsEntryExactly` | bin/a2a-bridge/src/compatibility_schedule_ledger.rs:1154-1199 | once rollback, day and window have room, a request is refused for its case exactly when the charges of that case on the day and its own caps exceed the policy's entry; likewise for provider and trigger in turn |
| `LedgerDecision.OneShotAdmittedExactly` | bin/a2a-bridge/src/compatibility_schedule_ledger.rs:405-424 | a new characterization is admitted exactly when nothing is recorded later and nothing is charged to its day or to the last 24 hours, and is refused for the first of the two that is not empty |
| `LedgerDecision.RecordsExactly` | bin/a2a-bridge/src/compatibility_schedule_ledger.rs:1041-1074 | a request forms a record exactly when its ids, caps, derived keys, authority, class, trigger and budget belong together and the time is one of the calendar, and the record then says all that the request says |
| `LedgerDecision.ReplaysExactly` | bin/a2a-bridge/src/compatibility_schedule_ledger.rs:1076-1102 | a request whose attempt is recorded is let through exactly when the record says what the request says; a changed one is invalid, whatever clock and budgets say |
| `LedgerAdmission.SettlementNets` | bin/a2a-bridge/src/compatibility_schedule_ledger.rs:1274-1373 | reserving and then reconciling leaves in the total of every scope exactly the final charge on top of what was there before; a proved pre-effect release restores every total and permits a successor |
| `LedgerSettlement.ChargeMeans` | bin/a2a-bridge/src/compatibility_schedule_ledger.rs:117-134 | an open reservation is charged its whole caps, a settled one the observed attempts, tokens and cost and the least number of seconds that covers the elapsed milliseconds |
| `LedgerSettlement.DecisionsAreAnswered` | bin/a2a-bridge/src/compatibility_schedule_ledger.rs:1274-1372 | the whole answer to a decision: absent, invalid exactly when it predates the reservation or reports a terminal usage beyond the caps in any dimension, or already settled differently; otherwise the value stored has the decision's evidence, time, prompt flag and reason, and charges nothing, the observed usage or the whole caps |
| `LedgerSettlement.SettlementMoves` | bin/a2a-bridge/src/compatibility_schedule_ledger.rs:1274-1372 | the first settlement moves every sum the reservation belongs to from its whole caps to nothing, to the observed usage, or not at all, as the decision says, and no other sum |
| `LedgerGrowth.GrantsAreHeld` | bin/a2a-bridge/src/compatibility_schedule_ledger.rs:1218-1272 | the whole answer to a request: the refusal of admission, or what is recorded already, or a new record, held exactly if the directory took it; a contradiction is never found in a well-formed ledger |
| `LedgerGrowth.GrantAdds` | bin/a2a-bridge/src/compatibility_schedule_ledger.rs:1218-1272 | a granted reservation adds its whole caps to every sum it belongs to and to no other, once however often it is asked for |
| `LedgerGrowth.ImportsAreAnswered` | bin/a2a-bridge/src/compatibility_schedule_ledger.rs:1375-1392 | the whole answer to an import: invalid exactly if it is not in order; one known by its id is the same import, so none is ever bound to another; a new one is held exactly if the directory took it; reservations stay as they are |
| `LedgerGrowth.ImportAdds` | bin/a2a-bridge/src/compatibility_schedule_ledger.rs:1375-1392 | an accepted import adds its charge to every sum it belongs to and to no other, once however often it is made |
| `LedgerGrowth.StableIdExactly` | bin/a2a-bridge/src/compatibility_schedule_ledger.rs:231-245 | stable ids are exactly the words of at most 128 letters, digits and separators that do not begin with a separator, so none holds a slash or is a dot name |
| `LedgerReading.ReservationsReadExactly` | bin/a2a-bridge/src/compatibility_schedule_ledger.rs:635-685 | a reservation is accepted on reading exactly when some request could have been recorded so, up to the digest of its policy |
| `LedgerReading.ReconciliationsReadExactly` | bin/a2a-bridge/src/compatibility_schedule_ledger.rs:735-774 | a reconciliation is accepted on reading exactly when some decision that is not refused could have been stored so |
| `LedgerScenarios.HeadroomUnderLoad` | bin/a2a-bridge/src/compatibility_schedule_ledger.rs:1086-1216 | under a known load of the day and of the 24 hours before, a request that fits its pool is admitted exactly when the day and the rolling window have room, and otherwise refused for the first of the two that has not |
| `LedgerScenarios.RunsCanReserve` | bin/a2a-bridge/src/compatibility_schedule_ledger.rs:1218-1272 | on every day of the calendar and for every class, an empty ledger admits an effect that fits its pool, so the theorems about runs speak of real reservations |
| `LedgerHistory.OneReservationPerAttempt` | bin/a2a-bridge/src/compatibility_schedule_ledger.rs:631-633 | no reachable ledger holds two reservations for one attempt key |
| `LedgerHistory.ChargeMovesAtMostOnce` | bin/a2a-bridge/src/compatibility_schedule_ledger.rs:1274-1373 | over every run a reservation keeps its record, its charge never rises in any dimension, and once it has moved it never moves again |
| `LedgerHistory.SuccessorPermissionIsFinal` | bin/a2a-bridge/src/compatibility_schedule_ledger.rs:1394-1399 | once a reconciliation is committed the permission for a regenerated successor never flips, and where it is given nothing is charged |
| `LedgerHistory.ValidityIsTimeless` | bin/a2a-bridge/src/compatibility_schedule_ledger.rs:1041-1074 | a request that forms a valid record at one time forms one at every time of the calendar |
| `LedgerHistory.ReplayIsIdempotent` | bin/a2a-bridge/src/compatibility_schedule_ledger.rs:1218-1272 | replaying an admitted request, after any further events, with the clock set back, without headroom and with any disk, returns the stored record and changes nothing |
| `LedgerDurable.ReopeningRebuilds` | bin/a2a-bridge/src/compatibility_schedule_ledger.rs:890-999 | after any run of completed steps within the file bound the directory opens, and to exactly the maps in memory |
| `LedgerDurable.NothingAcknowledgedIsLost` | bin/a2a-bridge/src/compatibility_schedule_ledger.rs:605-629 | whatever the disk answered on the way, and with every file that was written still there, a directory that opens gives back every reservation, reconciliation and import that was acknowledged, unchanged; `LedgerCrash` says which of them a machine crash can take |
| `LedgerDurable.TornRecordHolds` | bin/a2a-bridge/src/compatibility_schedule_ledger.rs:581-603 | once a record is torn no continuation of the run that loses no file makes the directory open again |
| `LedgerDurable.LostReconciliationsOnlyCharge` | bin/a2a-bridge/src/compatibility_schedule_ledger.rs:1001-1039 | losing any set of reconciliation records leaves a directory that opens and in which no total of any scope is lower |
| `LedgerReopening.CourseKeepsRecords` | bin/a2a-bridge/src/compatibility_schedule_ledger.rs:1-5 | over every course of events and reopenings, with any answers of the disk but no lost files, no record that memory ever held is lost or changed |
| `LedgerReopening.AdmittedStaysWithin` | bin/a2a-bridge/src/compatibility_schedule_ledger.rs:1086-1216 | over every course of one policy, with any disk and reopened at any time, the charges of all reservations that passed the checks stay within the policy in every scope |
| `LedgerDirectory.StaysUnreadable` | bin/a2a-bridge/src/compatibility_schedule_ledger.rs:581-603 | a directory that does not open never opens again, whatever the process does |
| `LedgerDirectory.CarefulStaysWithin` | bin/a2a-bridge/src/compatibility_schedule_ledger.rs:605-629 | the directory itself stays within the policy, for as long as it opens, in every course in which nothing is written for a reservation while another one is written but unacknowledged and not reopened |
| `LedgerDirectory.ReopeningIsCareful` | bin/a2a-bridge/src/compatibility_schedule_transaction.rs:1458-1466 | a ledger that is reopened for every reservation is always careful in that sense |
| `LedgerLapse.UnsyncedRunExceeds` | bin/a2a-bridge/src/compatibility_schedule_ledger.rs:620-627 | the shortest failing run: a reservation is written but not acknowledged, a second one for the same pool is admitted, the directory exceeds the pool, and once reopened the replay of the first is acknowledged too |
| `LedgerLapse.LapseExceeds` | bin/a2a-bridge/src/compatibility_schedule_ledger.rs:605-629 | every sequence of action kinds that is not careful has a course whose directory opens and exceeds the policy |
| `LedgerLapse.KeepsWithinExactly` | bin/a2a-bridge/src/compatibility_schedule_ledger.rs:1-5 | actions of given kinds keep the directory within every policy, whatever is requested, exactly when they are careful |
| `LedgerCrash.StepAnswers` | bin/a2a-bridge/src/compatibility_schedule_ledger.rs:605-629 | whatever is acknowledged is in the directory, and unless a sync failed nothing readable is new in it but what was answered as created |
| `LedgerCrash.CreatedIsForever` | bin/a2a-bridge/src/compatibility_schedule_ledger.rs:623-628 | a record once answered as created is on disk, unchanged, in every possible future, through every crash |
| `LedgerCrash.SurvivesExactly` | bin/a2a-bridge/src/compatibility_schedule_ledger.rs:611-628 | after every history of events, reopenings and crashes, a record is sure to survive exactly when it was answered as created; all acknowledged records survive exactly when none was acknowledged only as found there |
| `LedgerCrash.SyncedSurvives` | bin/a2a-bridge/src/compatibility_schedule_ledger.rs:623-628 | in every history without failed syncs, with torn and refused writes, crashes and reopenings, all that was acknowledged survives |
| `LedgerCrash.AcknowledgedAndLost` | bin/a2a-bridge/src/compatibility_schedule_ledger.rs:611-617 | a reservation that was created but not synced, asked for again and acknowledged, does not survive, whatever the disk answers the second time |
| `Ledger.FileCompatibilityLedger.constructor` | bin/a2a-bridge/src/compatibility_schedule_ledger.rs:993-998 | the object holds exactly the given directory and maps |
| `Ledger.FileCompatibilityLedger.CurrentUsage` | bin/a2a-bridge/src/compatibility_schedule_ledger.rs:1008-1039 | the loop of checked additions returns the exact mathematical total, and fails exactly when that total does not fit 64 bits, in whatever order the records are visited |
| `Ledger.AddShares` | bin/a2a-bridge/src/compatibility_schedule_ledger.rs:136-155 | a running total extended by all shares, one checked addition at a time, fails exactly when the final total overflows |
| `Ledger.FileCompatibilityLedger.LatestTime` | bin/a2a-bridge/src/compatibility_schedule_ledger.rs:1103-1121 | the latest recorded time detects exactly the clock rollbacks |
| `Ledger.FileCompatibilityLedger.CheckBudget` | bin/a2a-bridge/src/compatibility_schedule_ledger.rs:1128-1141 | one budget refuses on overflow, or on excess with its own refusal, and otherwise admits |
| `Ledger.FileCompatibilityLedger.CheckHeadroom` | bin/a2a-bridge/src/compatibility_schedule_ledger.rs:1086-1216 | the sequence of early exits answers what the specification of admission says: replay first, then rollback, then the first budget that refuses; `LedgerDecision` says over the records what that answer is |
| `Ledger.FileCompatibilityLedger.AppendRecord` | bin/a2a-bridge/src/compatibility_schedule_ledger.rs:605-629 | creates a record under a new name, recognises the identical one, refuses a different one, and leaves a torn file where the disk does |
| `Ledger.FileCompatibilityLedger.PrepareReservation` | bin/a2a-bridge/src/compatibility_schedule_ledger.rs:1227-1239 | the record to commit, or the stored one for a replay, without touching the ledger |
| `Ledger.FileCompatibilityLedger.CommitPreparedReservation` | bin/a2a-bridge/src/compatibility_schedule_ledger.rs:1241-1272 | the whole new state and answer: the record enters the map only after it is on disk |
| `Ledger.FileCompatibilityLedger.Reserve` | bin/a2a-bridge/src/compatibility_schedule_ledger.rs:1218-1226 | preparing and committing, as one transition of the specification that the theorems about runs speak of |
| `Ledger.FileCompatibilityLedger.Reconcile` | bin/a2a-bridge/src/compatibility_schedule_ledger.rs:1274-1373 | the whole new state and answer for every decision, including replays, contradictions and charges outside the caps; `LedgerSettlement` says what that answer charges |
| `Ledger.FileCompatibilityLedger.ImportLegacy` | bin/a2a-bridge/src/compatibility_schedule_ledger.rs:1375-1392 | the whole new state and answer of an import |
| `Ledger.ReadFiles` | bin/a2a-bridge/src/compatibility_schedule_ledger.rs:890-977 | reading in any order succeeds exactly when every file is what its name says, and then the maps hold exactly the files |
| `Ledger.AttachReconciliations` | bin/a2a-bridge/src/compatibility_schedule_ledger.rs:984-992 | succeeds exactly when every reconciliation belongs to a reservation and is valid for it; every reservation then carries exactly its own |
| `Ledger.Scan` | bin/a2a-bridge/src/compatibility_schedule_ledger.rs:890-999 | rebuilding succeeds exactly on the readable directories and yields what they record |
| `Ledger.Open` | bin/a2a-bridge/src/compatibility_schedule_ledger.rs:890-999 | opens exactly the readable directories, as a fresh ledger holding what they record |
| `DriftScan.DriftFreeEvidenceIdentifies` | bin/a2a-bridge/src/compatibility.rs:3190-3299 | one artifact is without drift for two cases of an agent only if they agree in request, execution mode, authentication, pins and resolution, so evidence of one case cannot pass for another |
| `DriftScan.DriftHasNoRepeats` | bin/a2a-bridge/src/compatibility.rs:3190-3299 | with distinct component names no dimension of a case's drift is listed twice, the dimensions of floating cases included |
| `DriftScan.CollectDrift` | bin/a2a-bridge/src/compatibility.rs:3190-3299 | the list that a completed row gets holds the dimensions in the order they are looked at, and none twice when component names are distinct |
| `DriftScan.PushComponentDrift` | bin/a2a-bridge/src/compatibility.rs:3270-3274 | the loop appends one dimension per pinned component whose provenance differs |
| `DriftMeaning.DriftListsExactly` | bin/a2a-bridge/src/compatibility.rs:3190-3299 | each of the dimensions of drift is listed exactly when the evidence, read as JSON, differs from its case in that dimension |
| `DriftMeaning.PackageExactly` | bin/a2a-bridge/src/compatibility.rs:3136-3147 | a package is accepted exactly when one word of the component's detail, and no other, states its name, one its version, and together they are the expected text |
| `DriftMeaning.VerdictsExactly` | bin/a2a-bridge/src/compatibility.rs:3678-3765 | a floating candidate passes exactly when its evidence differs in no dimension, violates no budget and shows one prompt answered exactly and put away cleanly under a catalog that offers the model; it fails exactly on a clean failure of its own; everything else is unknown |
| `EvidenceMeaning.ShapeExactly` | bin/a2a-bridge/src/compatibility.rs:2868-2879 | the shape demanded of an artifact, as what is found at which path of the JSON |
| `EvidenceMeaning.SuccessContractExactly` | bin/a2a-bridge/src/compatibility.rs:3056-3071 | the contract of a success, as what is found at which path |
| `EvidenceMeaning.FailureContractExactly` | bin/a2a-bridge/src/compatibility.rs:3073-3102 | the contract of a failure, as what is found at which path, beside the catalog |
| `EvidenceMeaning.CatalogOffers` | bin/a2a-bridge/src/compatibility.rs:2975-3045 | a catalog accepted for a request is available, lists its current model, runs the requested model plainly or with the effort in its id, and has the requested mode in force; every value is acceptable and bounded |
| `EvidenceMeaning.CatalogFitsExactly` | bin/a2a-bridge/src/compatibility.rs:2881-2898 | the running byte count accepts exactly the lists whose values are each acceptable and of bounded size and whose lengths together stay within the total |
| `EvidenceMeaning.ModelIdRoundTrip` | bin/a2a-bridge/src/compatibility.rs:2916-2945 | a model id made of a base and an effort level, in brackets or after a slash, is read back as these two |
| `EvidenceMeaning.ModelIdMeans` | bin/a2a-bridge/src/compatibility.rs:2916-2945 | what is read from a model id was in it, in one of the two notations |
| `EvidenceMeaning.ProvenanceExactly` | bin/a2a-bridge/src/compatibility.rs:3113-3125 | a component has a detail exactly when one row of the provenance, and no other, is its check, is in order and states it |
| `EvidenceMeaning.DetailFieldExactly` | bin/a2a-bridge/src/compatibility.rs:3127-3134 | a field has a value exactly when one word of the detail, and no other, states the field |
| `EvidenceMeaning.WordsExactly` | bin/a2a-bridge/src/compatibility.rs:3128 | words are the runs between spaces: a space ends one and begins none |
| `EvidenceMeaning.TokensExactly` | bin/a2a-bridge/src/compatibility.rs:3301-3306 | tokens are what the terminal event reports and, only without that, the running count |
| `EvidenceMeaning.CostExactly` | bin/a2a-bridge/src/compatibility.rs:3314-3336 | a cost counts exactly if it was not rejected and is a non-negative amount of dollars; it is missing exactly if neither it nor a rejection is there |
| `Runner.SettleArtifact` | bin/a2a-bridge/src/compatibility.rs:3635-3788 | judging an artifact, with one early exit per rejection and the drift collected by pushes, is the specified transition of budget, rows and embedded bytes |
| `Runner.Conclude` | bin/a2a-bridge/src/compatibility.rs:3615-3634 | an invocation that was not run, failed or left an artifact leads to exactly the specified state |
| `Runner.BuildAggregate` | bin/a2a-bridge/src/compatibility.rs:3521-3853 | the loop over the selected cases with its sticky flags computes the aggregate that the safety and agreement theorems speak of, whose success, reasons and rows `RunnerVerdict` and `RunnerReasons` give over row fields |
| `Runner.FloatingSummaryOf` | bin/a2a-bridge/src/compatibility.rs:1853-1878 | the counters are the numbers of rows with each verdict, and the summary is absent exactly when there are none |
| `RunnerSafety.RunCaseFacts` | bin/a2a-bridge/src/compatibility.rs:3542-3788 | whatever is observed, one case appends exactly one row of its own and keeps the earlier ones, is not run after a failure, keeps failure and exhaustion sticky, and either stops without an invocation or is invoked once and accounted for |
| `RunnerSafety.RunIsDisciplined` | bin/a2a-bridge/src/compatibility.rs:3542-3634 | in every prefix of every run there is one row per selected case in order, each case is invoked at most once, a runner failure is unique and nothing is invoked after it, and a child is spawned only if the flag was down at admission |
| `RunnerSafety.NoSpawnAfterCancellation` | bin/a2a-bridge/src/compatibility.rs:1922-1938 | with a flag that only rises, once it is seen, at the head of a case or between its admission and its spawn, no child is spawned for that case or a later one |
| `RunnerSafety.RunIsFrugal` | bin/a2a-bridge/src/compatibility.rs:3561-3751 | before every invocation the observed tokens and cost plus the case's caps fit the totals; a budget violation stops all later invocations; if every completed case kept to its own token cap the token total is within budget, and if every one that reports a cost kept to its own cost cap so is the cost total; embedded evidence sums to at most the fixed bound |
| `RunnerSafety.AggregateIsSafe` | bin/a2a-bridge/src/compatibility.rs:3790-3853 | the published rows are one per selected case in order with at most one runner failure and one budget violation, each followed by no completion; success implies tokens and cost within their totals |
| `RunnerReasons.RunIsExplained` | bin/a2a-bridge/src/compatibility.rs:3542-3788 | in every prefix of every run, what has been spent is the sum of what the rows report, rows without a report are counted, and each case was turned away, failed or run for the first reason that applied to it, with exactly its violations and exactly the effect on the budget |
| `RunnerVerdict.RowsAreHonest` | bin/a2a-bridge/src/compatibility.rs:3635-3788 | in every prefix of every run, a completed row has the status its evidence states, meets its expectation exactly when status, drift and violations say so, and a row without evidence claims nothing |
| `RunnerVerdict.CancellationRewrites` | bin/a2a-bridge/src/compatibility.rs:3794-3815 | a cancellation rewrites exactly the last completed row, and only if it floats: it becomes unknown, unmet and marked, and keeps the rest |
| `RunnerVerdict.SucceedsExactly` | bin/a2a-bridge/src/compatibility.rs:3818-3847 | a run succeeds exactly when no row is a runner failure, every pinned case of the supported kind completed with the expected status, without drift or violation, every floating case passed, no budget was exhausted, not even by the final time, and nothing was cancelled |
| `RunnerVerdict.SummaryCounts` | bin/a2a-bridge/src/compatibility.rs:1853-1878 | the summary is there exactly when some row has a verdict, and its counters are the numbers of positions with each |
| `Checker.NoDriftMeans` | bin/a2a-bridge/src/compatibility.rs:4569-4631 | evidence without drift states the request of its case, and a successful one its resolution: what the checker later looks for |
| `Checker.CompletedRowAgrees` | bin/a2a-bridge/src/compatibility.rs:3752-3788 | the verdict written into a completed floating row is the one recomputed from its recorded evidence, for every smoke artifact |
| `Checker.RunRowsAgree` | bin/a2a-bridge/src/compatibility.rs:4569-4631 | in every prefix of every run, every floating row carries its recomputed verdict and no row lists a dimension of drift twice |
| `Checker.ProducerAndCheckerAgree` | bin/a2a-bridge/src/compatibility.rs:4569-4631 | for every validated manifest and everything the world may answer, every floating row of the aggregate, the one rewritten on cancellation included, carries the recomputed verdict, and no row lists a dimension of drift twice |
| `Checker.SameSuccess` | bin/a2a-bridge/src/compatibility.rs:4690-4704 | over rows that agree with their evidence, the runner's success flag and the checker's equation for it coincide |
| `Checker.FloatingRunIsAccepted` | bin/a2a-bridge/src/compatibility.rs:4633-4704 | the checker accepts an all-floating run of a resolved manifest exactly when the artifact's header and the manifest's bindings are well formed; rows, verdicts, summary, distinct ids and success always pass |
| `CheckerMeaning.RecomputedExactly` | bin/a2a-bridge/src/compatibility.rs:4569-4631 | the verdict recomputed of any row, wherever it comes from: a pass or a failure exactly when the row is undisputed, says so, and its evidence shows it, of the resolved candidate and under a catalog that offers the request |
| `CheckerMeaning.AcceptedExactly` | bin/a2a-bridge/src/compatibility.rs:4633-4704 | any artifact is accepted exactly when it is identified, every row is truthful, every case and baseline case occurs once, the summary counts what the evidence shows, and success is claimed exactly when all evidence shows a pass within budget and without cancellation |
| `CheckerMeaning.VerdictsAreDetermined` | bin/a2a-bridge/src/compatibility.rs:4633-4704 | accepted artifacts with the same evidence, budget and cancellation are equal: no verdict, summary or success flag can be changed without being refused |
| `CheckerMeaning.ValidateFloatingAggregate` | bin/a2a-bridge/src/compatibility.rs:4633-4704 | the one pass over the rows with the ids seen so far accepts exactly the valid artifacts |
| `Comparison.ProjectionIsIdempotent` | bin/a2a-bridge/src/compatibility.rs:3916-3928 | projecting diagnostics twice is projecting once, at every depth |
| `Comparison.ProjectionForgetsExactlyTimes` | bin/a2a-bridge/src/compatibility.rs:3916-3928 | two diagnostics have one projection exactly when they differ in nothing but event times, at any depth |
| `Comparison.DiagnosticChangesExactly` | bin/a2a-bridge/src/compatibility.rs:3930-3997 | the diagnostic dimension is reported exactly when lifecycle or failure differ in more than event times, or dropped events or error text differ |
| `Comparison.IndexCases` | bin/a2a-bridge/src/compatibility.rs:4367-4376 | indexing a baseline succeeds exactly when its ids are distinct, and yields the map of its cases |
| `Comparison.IndexPinned` | bin/a2a-bridge/src/compatibility.rs:4377-4393 | the same for the pinned rows of a run |
| `Comparison.CompareCases` | bin/a2a-bridge/src/compatibility.rs:4394-4448 | one change per id that differs, in text order of the ids, with exactly its differing dimensions, and none for the others |
| `Comparison.CompareArtifacts` | bin/a2a-bridge/src/compatibility.rs:4313-4454 | refuses exactly malformed or duplicated inputs; reports equal exactly when manifest identity, aggregate projection and the map of projected pinned cases coincide; lists exactly the differences |
| `Comparison.ComparisonReadsExactly` | bin/a2a-bridge/src/compatibility.rs:3930-3997 | two rows of one case have one projection exactly when they agree in outcome, drift, violations and the listed parts of their evidence, diagnostics up to event times; usage and everything else is not read |
| `Comparison.RerunsCompareExactly` | bin/a2a-bridge/src/compatibility.rs:3930-4007 | two runs of one manifest are comparable, and their case projections coincide exactly when their pinned rows agree in what is read; a run compares equal to its own projection |
| `Comparison.EventTimesDoNotShow` | bin/a2a-bridge/src/compatibility.rs:3916-3997 | rows whose evidence differs only in the event times of its diagnostics are read alike |
| `ComparisonMeaning.ChangesExactly` | bin/a2a-bridge/src/compatibility.rs:4394-4448 | what is listed for a case id is exactly what changed: added when only the run has it, missing when only the baseline has it, and otherwise the dimensions in which a baseline case and a pinned row of that id differ |
| `ComparisonMeaning.DimensionsExactly` | bin/a2a-bridge/src/compatibility.rs:4414-4440 | each dimension of a case is listed exactly when its own part differs |
| `ComparisonMeaning.ProjectionMeans` | bin/a2a-bridge/src/compatibility.rs:3930-3997 | each part of the baseline made of a row is about the evidence its name says: two rows agree in the part exactly when they agree in that evidence, drift and violations included |
| `ComparisonMeaning.HeaderExactly` | bin/a2a-bridge/src/compatibility.rs:4336-4366 | what is listed for the manifest and the run as a whole is exactly what changed in them |
| `ComparisonMeaning.ComparableExactly` | bin/a2a-bridge/src/compatibility.rs:4313-4393 | a run and a baseline are compared exactly when both are identified and of this version, no baseline case repeats an id and no two pinned rows do |
| `Destination.LocateIsProven` | bin/a2a-bridge/src/compatibility.rs:2028-2081 | over every tree with links and every path mixing existing names, missing names and parent steps, the proven prefix exists, is canonical, and the first name below it is missing |
| `Destination.ProbeAnswers` | bin/a2a-bridge/src/compatibility.rs:2041-2066 | what the two system calls of a step answer on the path reached so far with one name more |
| `Destination.IdentityMeansAbove` | bin/a2a-bridge/src/compatibility.rs:2083-2145 | a directory's device and inode pair occurs among the ancestors of a node exactly when the directory lies above it |
| `Destination.AncestorsKnownExactly` | bin/a2a-bridge/src/compatibility.rs:2083-2107 | what lies above a node is known exactly if every directory above it can be opened, whether or not the node itself can; only the root needs itself |
| `Destination.MissingNamesStayOutside` | bin/a2a-bridge/src/compatibility.rs:2067-2081 | names that do not exist cannot lead into a directory that does, so only the proven prefix matters |
| `Destination.ResolveAccountingDestination` | bin/a2a-bridge/src/compatibility.rs:2028-2081 | the loop reaches the proven place of the path; the flag says whether the resolved path lies inside the scratch directory, and an untraversable path is reported as unavailable only from a place disjoint from it |
| `Creation.CreationLandsWhereSought` | bin/a2a-bridge/src/compatibility.rs:2034-2035 | in every later tree without new links, if creating the path by the kernel's own traversal succeeds, it ends where following the path in the first tree leads, through links, parent steps and missing names |
| `Creation.ResolvedIsWhereCreationLands` | bin/a2a-bridge/src/compatibility.rs:2028-2081 | a destination the resolver places is created at the resolved path and nowhere else, in every later tree |
| `Creation.SoughtCanBeCreated` | bin/a2a-bridge/src/compatibility.rs:2034-2035 | wherever following a path leads can be created, once the missing directories on the way have been made |
| `Creation.NeverInsideExactly` | bin/a2a-bridge/src/compatibility.rs:2062-2075 | creation never ends inside the scratch directory exactly when the path, followed through dangling links too, does not lead there |
| `Creation.AnswersMean` | bin/a2a-bridge/src/compatibility.rs:2062-2081 | the flag of a resolved answer is exact for every later creation; an unavailable answer is safe exactly when the path does not lead into scratch through a dangling link |
| `Creation.DanglingLinkLandsInside` | bin/a2a-bridge/src/compatibility.rs:2051-2075 | a tree in which the resolver answers unavailable and creating through the dangling link ends inside the scratch directory |
| `ProcessGroup.ActionKeepsPinned` | bin/a2a-bridge/src/compatibility_process_group.rs:427-614 | every step of the handle or of the operating system keeps the anchor pinned while it is held, and a signal is sent only while the unreaped anchor pins the group, to that incarnation of it |
| `ProcessGroup.RunKeepsPinned` | bin/a2a-bridge/src/compatibility_process_group.rs:427-614 | over every interleaving with exits, reaps, forks and pid reuse, every group signal reaches the incarnation the anchor was spawned into |
| `ProcessGroup.NoSignalAfterRelease` | bin/a2a-bridge/src/compatibility_process_group.rs:555-614 | once a release has begun, completed, failed or been abandoned, no further group signal is sent; after a drop none but the one of the drop itself |
| `ProcessGroup.SignalSendsOne` | bin/a2a-bridge/src/compatibility_process_group.rs:528-553 | while the anchor is retained a signal reaches the group once, in its own kind and incarnation, and is counted |
| `ProcessGroup.DropSends` | bin/a2a-bridge/src/compatibility_process_group.rs:584-614 | dropping a retained anchor kills the group under the kill policy and sends nothing under the release policy |
| `ProcessGroup.SignalsOfRun` | bin/a2a-bridge/src/compatibility_process_group.rs:528-614 | the signals of every run are those of its signal actions before the first release or drop, in order and of their kinds, and then one kill exactly when the handle was dropped with its anchor under the kill policy |
| `ProcessGroup.ReleaseReaps` | bin/a2a-bridge/src/compatibility_process_group.rs:555-567 | whatever happens while a release waits, the child stays until the wait returns; an exited child is then reaped and its identity forgotten, a failed or abandoned wait reaps nothing |
| `ProcessGroup.UnpinnedGroupsAreRecycled` | bin/a2a-bridge/src/compatibility_process_group.rs:541-546 | the pin is needed: from every state whose group has no other member, some continuation gives the group id to strangers once the anchor is released |
| `ProcessGroup.AnchoredProcessGroup.constructor` | bin/a2a-bridge/src/compatibility_process_group.rs:496-504 | a new handle retains the observed anchor, has sent nothing and is not dropped |
| `ProcessGroup.AnchoredProcessGroup.SignalGroup` | bin/a2a-bridge/src/compatibility_process_group.rs:528-553 | one transition of the protocol; it succeeds exactly when the anchor is still retained and the system call accepts |
| `ProcessGroup.AnchoredProcessGroup.StartRelease` | bin/a2a-bridge/src/compatibility_process_group.rs:555-562 | the child is taken from the handle before it is awaited |
| `ProcessGroup.AnchoredProcessGroup.CompleteRelease` | bin/a2a-bridge/src/compatibility_process_group.rs:562-567 | the wait returns and reaps, or fails |
| `ProcessGroup.AnchoredProcessGroup.AbandonPendingRelease` | bin/a2a-bridge/src/compatibility_process_group.rs:562-564 | a release future dropped while waiting leaves the child to nobody's wait |
| `ProcessGroup.AnchoredProcessGroup.Drop` | bin/a2a-bridge/src/compatibility_process_group.rs:584-614 | the last signal, which `DropSends` names, is sent before the child is let go |
| `ProcessGroup.SpawnAnchor` | bin/a2a-bridge/src/compatibility_process_group.rs:427-505 | a handle exists exactly for a child captured in the expected group and session, and the group is then pinned; nothing is signalled |
| `ProcessGroup.AnchorExistingGroup` | bin/a2a-bridge/src/compatibility_process_group.rs:413-425 | an existing group is anchored exactly if group and session are positive and the child is captured in both |
| `Wilson.IntervalContainsRate` | evals/harness/metrics.py:91-102 | over the reals, for every count, size and non-negative quantile, the interval lies in [0, 1] and contains the observed rate |
| `WilsonScore.IntervalSolvesScore` | evals/harness/metrics.py:91-101 | the two bounds are exactly the solutions of the score equation, the rates from which the observed one lies z standard errors away; the clipping to [0, 1] never changes them |
| `Wilson.NegativeQuantileIsEmpty` | evals/harness/metrics.py:91-102 | for a negative quantile the bounds cross, so the sign condition is exact |
| `McNemar.CombIsFactorialQuotient` | evals/harness/metrics.py:285-286 | the binomial coefficients are the quotients of factorials |
| `McNemar.RowSum` | evals/harness/metrics.py:285-286 | a row of binomial coefficients sums to a power of two |
| `McNemar.TailsComplement` | evals/harness/metrics.py:288-289 | the coefficients up to k and those below n - k make the whole row |
| `McNemar.TailsAreEqual` | evals/harness/metrics.py:283-290 | the two tails the test computes are the same number |
| `McNemar.McNemarIsExact` | evals/harness/metrics.py:260-290 | for all discordant counts the result is symmetric, in (0, 1], twice the smaller tail capped at one, and one exactly when the counts differ by at most one |
| `McNemar.MoreLopsidedIsNoMoreLikely` | evals/harness/metrics.py:260-290 | moving one discordant pair from the smaller count to the larger never raises the result |
| `Judge.ObjectSpan` | evals/harness/judge.py:123-136 | the two scans find the widest braced span of a text, or there is none |
| `Judge.ValidateGrade` | evals/harness/judge.py:147-205 | accepts exactly the objects that state a grade whose ids are distinct and are the ground truth's, with a verdict that follows from the findings |
| `Judge.GradeExactly` | evals/harness/judge.py:147-205 | the grade read from an answer is exactly the one its JSON says: verdict, defects in order, false findings, and neutral matches that default to none |
| `Judge.ParseAndValidate` | evals/harness/judge.py:139-205 | accepts exactly the texts that hold such an object, whole or as their widest braced span if the whole does not read |
| `Metrics.PassRateIsWellFormed` | evals/harness/metrics.py:104-130 | scored rows and both kinds of excluded rows add up to the rows of the cell, passes do not exceed scored rows, and the interval reported contains the rate |
| `MetricsCounts.PassRateCounts` | evals/harness/metrics.py:104-130 | passes, judged rows, judge errors and call failures are the numbers of positions in the results with exactly these properties |
| `Metrics.ConfusionOf` | evals/harness/metrics.py:136-208 | the loop's counters are those whose meaning `ConfusionCounts` gives, and the four outcomes add up to the scored rows |
| `MetricsCounts.ConfusionCounts` | evals/harness/metrics.py:136-208 | the four outcomes count the positions of judged rows by whether defects were seeded and whether the review raised something; found and total count the pairs of a seeded row and a defect found, or seeded, in it |
| `MetricsCounts.RecallMeans` | evals/harness/metrics.py:183-186 | over rows the validator accepted, recall is complete exactly when every defect seeded in a judged row was found, and nothing exactly when none was |
| `Metrics.RecallIsARate` | evals/harness/report.py:133-142 | over rows the validator accepted, found defects never exceed total defects and the recall interval lies in [0, 1] and contains the recall |
| `Metrics.PairedFlips` | evals/harness/metrics.py:214-257 | each counter is the number of items whose last rows in the two cells carry that pair of real verdicts |
| `Metrics.ComparisonIsSymmetric` | evals/harness/metrics.py:214-290 | naming the cells in the other order exchanges the discordant counts and leaves the significance unchanged |
| `Sampler.Group` | evals/harness/report.py:228-230 | after the loop every cell has exactly its rows in order, and the named cells are listed once each |
| `Sampler.ShuffledDecks` | evals/harness/report.py:232-235 | one deck per named cell, in text order, holding exactly the shuffled rows of that cell |
| `Sampler.Deal` | evals/harness/report.py:237-246 | the nested loop ends, deals round by round in cell order, never exceeds the limit, and stops short of it only when every deck is used up |
| `Sampler.DealtFromDeck` | evals/harness/report.py:239-245 | what has been dealt of a cell is a prefix of its deck, one row per round while they last, for every point of every deal |
| `Sampler.DealIsFair` | evals/harness/report.py:239-245 | at every point of every deal two cells differ by at most one row unless the lesser one is fully included |
| `Sampler.SampleSpotcheck` | evals/harness/report.py:211-246 | the sample has min(limit, eligible) rows, repeats none, takes a prefix of each cell's shuffle, and is fair between any two cells |
| `Sampler.EligibleExactly` | evals/harness/report.py:223-235 | the rows that can be sampled are exactly those of a named cell on which a judge really decided, each as often as it occurs |
| `Ordering.StableSortIsStable` | bin/a2a-bridge/src/compatibility_schedule.rs:2375-2379 | sorting orders by key, keeps the multiset, and keeps elements of equal key in their order |
| `Ordering.SameSortExactly` | bin/a2a-bridge/src/compatibility_schedule.rs:2378 | two lists sort to one result exactly when each key has the same elements in the same order |
| `Ordering.SameTextsExactly` | bin/a2a-bridge/src/compatibility_schedule.rs:2375-2377 | two lists of texts sort to one result exactly when they are reorderings |
| `Requirements.CanonicalRequiredEnvironment` | bin/a2a-bridge/src/compatibility_schedule.rs:2372-2380 | the in-place inner sorts and the outer stable sort compute the canonical form |
| `Requirements.CanonicalFormsAgreeExactly` | bin/a2a-bridge/src/compatibility_schedule.rs:2372-2380 | two lists have one canonical form exactly when they say the same, in order, under every name |
| `Requirements.CanonicalIsIdempotent` | bin/a2a-bridge/src/compatibility_schedule.rs:2372-2380 | canonicalising twice changes nothing, and the canonical form says what the list says |
| `Requirements.DistinctNamesAgreeExactly` | bin/a2a-bridge/src/compatibility_schedule.rs:2372-2380 | with distinct names, two lists have one canonical form exactly when they are reorderings of each other, entries and values alike |
| `Requirements.OrderInsensitiveExactly` | bin/a2a-bridge/src/compatibility_schedule.rs:2372-2380 | the canonical form ignores every reordering exactly when no name is given two different sets of values |
| `Requirements.RepeatedNameKeepsItsOrder` | bin/a2a-bridge/src/compatibility_schedule.rs:2372-2380 | a name given twice with different values has a different canonical form in each order of its entries |
| `Requirements.ValidateRequiredEnvironment` | bin/a2a-bridge/src/compatibility_schedule.rs:1286-1328 | the loop with its set of seen names accepts exactly the lists within the bound whose entries are allowed and whose names are distinct |
| `Requirements.AcceptedIgnoresOrder` | bin/a2a-bridge/src/compatibility_schedule.rs:2372-2380 | for every accepted list, another list has its canonical form exactly when it is a reordering of it, entries and values alike |
| `Requirements.OrderMattersHere` | bin/a2a-bridge/src/compatibility_schedule.rs:2372-2380 | why the names are checked: the shortest list on which the order of entries would show, which repeats a name |

## Left out

- CurrentUsage: the order in which the maps are visited, which the result does not depend on.
- AppendRecord: how the state quota is counted, and file modes; a refusal by quota or by the byte bound is one of the disk's answers.
- Open: the checks for duplicate names and duplicate attempt keys, which cannot fire because names are unique and reservation ids derive from attempt keys.
- RunStaysWithinPolicy: runs with legacy imports, which enter without a headroom check, and runs with one-shot characterizations, for which `PoolsStayWithin` and the theorems of `LedgerPools` hold instead.
- Reserve: a transaction prepares a reservation and commits it through two openings under one admission lock; the model does both in one step.
- ReopeningRebuilds: runs with failed disk operations, for which `NothingAcknowledgedIsLost` and `TornRecordHolds` hold instead.
- ProtectedExactly: policies whose rolling budget is smaller than the day, for which `NeverInTheWayExactly` holds instead, and pools that effects cannot use up or caps of a case, provider or trigger below the day, for which only the sufficient conditions are proved.
- SurvivesExactly: that syncing the directory for one record may also make earlier unsynced records durable.
- BuildAggregate: fields that are copied from the manifest or the clock into the artifact without being looked at again.
- AggregateIsSafe: the rounding of binary floating point in cost totals.
- FloatingRunIsAccepted: the rules for stable ids and resolved bindings, which look at one value each, are parameters.
- ResolveAccountingDestination: relative paths, which its callers make absolute first; the tree does not change while the path is resolved, and `Creation` lets it grow afterwards by anything but links.
- SpawnAnchor: the readers of process identities on Linux and macOS; what they capture is part of the system's answer.
- IntervalContainsRate: the rounding of binary floating point.
- McNemarIsExact: the rounding of binary floating point.
- ParseAndValidate: reading JSON and stripping space, which are a parameter.
- SampleSpotcheck: the random generator; each cell's shuffle is an arbitrary permutation.
- Validation of manifests, policies and digests field by field: only the facts later steps rely on are part of `ValidManifest`, `ValidPolicy` and the record predicates.
- ValidateRequiredEnvironment: the rules for the name and the values of a single entry, which are a parameter.
- Drop: the kill of the anchor process itself after the group was dealt with, which is no group signal.
- The heuristics for text shaped like a secret are a parameter of the catalog rules.
- The comparison of one set of effect caps with a maximum, which is four inequalities.
- Comparison of a floating run with a pinned baseline.
- Launching, staging and cleaning up child processes, signals to the runner itself, and publishing artifacts.
- Command-line parsing, configuration files, the HTTP and protocol crates, and the evaluation runner around the statistics: wide but shallow.

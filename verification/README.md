# Pandapay API: verified models of its stateful cores

This project models the parts of the API that keep state across requests, failures and restarts, and
proves what they keep. `dafny verify dfyconfig.toml` checks all of it. One module stands for one source
file or one part of a large one.

**Card-state recording** (`Calendar`, `Cycles`, `Card*`, `FeeWaivers`). Every spend on a user card moves cap,
milestone and fee-waiver counters, each in its own calendar window, and keeps a record of what it moved.
Live apply and reverse change the counters one spend at a time; a rebuild replays the ledger in date order.
`CardLive` shows what every run of live operations keeps, `CardAgreement` and `CardMilestones` that a rebuild
makes each rebuilt counter the sum of its record entries, `CardRange` that a rebuild loads everything it
needs, `CardIdempotent` that a second rebuild writes nothing, and `CardRefinement` and `CardHistory` that live
recording and replay are one function; `CardSettled` concludes that a rebuild right after a live history has
nothing to write. `CardRuns` interleaves all of it, of any cards, with failures, edits and
rows of the v1 path, and shows that every store so reached is one these theorems are about; `CardSums` that over
such runs every counter stays the sum of its record entries. `CardPlanner` and `CardStore` hold the algorithms with their loops and their updates
in place, each proved equal to the function the other modules reason about. `CardWindows` shows that the
calendar of `Cycles` has the shape those modules ask of windows, for every statement day and anchor date.

**Account-deletion journal** (`Journal`, `JournalProtocol`, `Recovery`). A two-copy, hash-chained write-ahead log
with a separate checkpoint, the worker that writes it before a database commit, and the recovery that makes
two databases hold the same tombstones.

**Smaller cores.** `Simulation` (the monthly report's counterfactuals), `ForeignPayments` (its operations and
the ledger's trigger), `ForeignPaymentRuns` (what every run of them keeps), `ForeignPaymentStore` (the same operations
updating the tables in place) and `Money`, `Sender` (the notification worker's fence), `RateLimit`,
`Seeder` (the merchant directory), and `Csv`. `Basics` holds what several modules share.

How the source's terms appear here:

- Amounts, points and counts of card state are integers of hundredths. The stored columns have two decimals
  and the engine rounds every cap delta to two decimals and never makes it negative, so rounding a stored
  figure gives the figure.
- UUIDs are natural numbers, in the order of their canonical texts. A calendar day is its number of days since
  1970-01-01; `Calendar.DateTextOrder` says that comparing 'YYYY-MM-DD' texts compares day numbers.
- The reward engine is any deterministic function from the spend and the consumption of its caps to
  non-negative deltas, figures and an exclusion flag. `FixedUnits` and `OneExclusion`, where they are asked for,
  say that a cap has one kind and amount, and that pricing excludes only what the plan excludes; `Uniform` joins
  them to a calendar that tiles and a cap amount that can be told from the kind.
- The user's advisory lock makes one operation one step. A savepoint is a copy of the fields. A refused
  foreign-payment operation leaves the store as it was.
- A card's anchor dates, statement day and cap periods do not change during a run. A store may still hold rows of
  the v1 path or of a window that has moved: the rebuild theorems ask nothing of stored rows.
- A rebuild inside an apply excludes the transaction being applied, whose old record is then stale; so the
  agreement after a rebuild is over the transactions that are not excluded (`Kept`), and
  `CardStore.StaleApplyAgrees` gives it over all of them once the apply is done.
- SHA-256 is injective, and a file that does not authenticate is `Foreign`.

Places where the code differs from what its comments say, each stated as it is in the code:

- A v1 statement cycle can end one day before a spend in it, not three, and does exactly on the last day of a month
  too short for the statement day (`Cycles.V1SpendNearItsWindow`, `Cycles.V1CycleCanEndEarly`). The five-day
  margin is more than enough.
- A rebuild deletes a stored row of an overlapping period that it did not rebuild, while a counting spend after
  the replay window may keep its entry there. The sum invariant then fails for that period.
  `CardAgreement.OverlapAgreesIff` gives the exact condition and `CardExample.DroppedSeedExample` a real card and
  store where it happens: a statement cap beside a calendar-month cap, rebuilt as of a day in the earlier cycle.
- A stored row that shares its start with a rebuilt period but ends before the replay window is not seen by the
  rebuild, and stays when the rebuilt row is empty (`CardAgreement.CapAgreesIff`, `UnfoundAgreesIff`). A change of
  the card's terms or dates leaves such a row, and not only a change of a cap's period. In
  `CardMovedExample.UnseenRowExample` the statement day moved from the 28th to the 31st, so the cycle that starts on
  1 March 1971 ends on the 31st instead of the 28th; another cap's card year starts on 30 March, and the replay with it.
- An ignored foreign payment can be confirmed by a statement line without an edit
  (`ForeignPaymentRuns.IgnoredLeavesIff`), and `IgnoredThenConfirmed` is a run in which one is.
- A foreign payment can be linked to a transaction and not confirmed: the row is dismissed in the ledger, and the user
  restores the payment (`ForeignPaymentRuns.LinkedUnconfirmed`). Only the row confirms it again (`LinkedConfirmsIff`).
- A statement line settles a payment at its own amount, which nothing compares with the row's. Every linked payment of
  every state of a run bills its row's amount exactly when no line of the run misbills
  (`ForeignPaymentRuns.RunBillsIff`); `MisbilledThenSynced` is a run with one that does.
- A mismatch between journal and database does not fence later work when the frame ahead was never synced and a power
  loss takes it (`JournalProtocol.LostThenCommits`); from a reachable mismatch that nobody can still commit the database
  can move on exactly in that case (`JournalProtocol.FenceLostIff`).
- Stopping the notification worker does not recall a cycle that has a claim or a row ahead of it
  (`Sender.StoppedSendsIff`, and `Sender.StoppedSendsOneIff` with the code's batch size of one;
  `Sender.StoppedThenSends` is such a run).

## Model

| member | source | states |
|---|---|---|
| `Calendar.CivilRoundTrip` | api/src/cycles.js:210-214 | the UTC accessors invert `Date.UTC`, so `addDays` is plain day arithmetic across months, years and leap days |
| `Calendar.LastDayIsLength` | api/src/cycles.js:21-23 | `lastDayOfMonth` is the month's length, leap years included |
| `Calendar.DateTextOrder` | api/src/card_state_v2.js:75-81 | date texts compare as their days do |
| `Cycles.WindowIsCell` | api/src/cycles.js:258-288 | a recurring window is one cell of its family's increasing boundaries and holds the India day it was computed for |
| `Cycles.WindowsTile` | api/src/cycles.js:230-288 | every day of a window has that same window, the window of the day after starts there, and earlier days have earlier windows: statement days 1 to 31 with clamping, leap years and 29 February anniversaries |
| `Cycles.V1SpendNearItsWindow` | api/src/cycles.js:79-104 | a spend is never before its v1 window and at most one day past it, and past it exactly for a statement cycle on the last day of a month shorter than the statement day |
| `Cycles.V1CycleCanEndEarly` | api/src/cycles.js:79-104 | 28 February with statement day 31 is such a day |
| `CardWindows.InstantWindow` | api/src/cycles.js:147-166 | an instant's window depends on its India calendar day only |
| `CardWindows.RealWindowsTile` | api/src/card_state_v2.js:124-146 | whatever the card's dates and terms, its cap windows tile the days and its milestone windows never overlap unless equal |
| `CardWindows.V1RowsDated` | api/src/index.js:4404-4404 | where the v1 path's row starts with a window of its cap it ends no earlier, whatever the card's dates and terms; that is all the run theorems ask of such rows |
| `CardWindows.RealPeriodsExact` | api/src/card_state_v2.js:830-839 | over any interval of up to 28 times 4999 days the enumeration under the 5000-period limit lists exactly the windows that meet the interval |
| `CardRange.PeriodsExact` | api/src/card_state_v2.js:830-839 | for any tiling: a list that reaches the end of the interval is exactly the windows meeting it, and it reaches it when the interval has fewer days than the limit |
| `CardRange.RangeComplete` | api/src/card_state_v2.js:769-839 | every day whose cap window meets the replay window, or which lies in a rebuilt milestone window, is inside the loaded days: straddling windows, lifetime windows and the floor clip included |
| `CardRange.RangeHoldsAsOf` | api/src/card_state_v2.js:769-796 | the replay window holds the rebuild's date |
| `CardRecords.ReplaceTwice` | api/src/card_state_v2.js:974-993 | superseding a section's entries and adding the new ones again gives the same sorted section |
| `CardRecords.ToRecordCanonical` | api/src/card_state_v2.js:294-319 | a record as written is its own canonical form |
| `CardRecords.CanonicalSum` | api/src/card_state_v2.js:312-319 | canonical form changes no sum of entries |
| `CardLive.SubtractExact` | api/src/card_state_v2.js:460-482 | while rows carry what records say, reversal subtracts exactly the entries: the clamp at zero never acts, and no row appears or goes |
| `CardLive.UndoExact` | api/src/card_state_v2.js:460-499 | undoing a record takes its entries, and nothing else, off all three kinds of counters |
| `CardLive.AppliedKeeps` | api/src/card_state_v2.js:522-641 | an apply, first or repeated, changes no counter's excess over its record entries and keeps waivers settled |
| `CardLive.ReversedKeeps` | api/src/card_state_v2.js:649-666 | neither does a reversal |
| `CardLive.DeferralKeeps` | api/src/card_state_v2.js:709-737 | a deferred failure strands exactly the dropped record's entries |
| `CardLive.RunKeeps` | api/src/card_state_v2.js:693-738 | over every run: each counter is at least the sum of its entries, the excess is exactly what deferred failures stranded, and `waived_at` is set exactly when the spend reaches the threshold |
| `CardLive.RunAgrees` | api/src/card_state_v2.js:22-26 | without deferred failures every counter of every run is the sum of its entries |
| `CardLive.ApplyThenReverse` | api/src/card_state_v2.js:649-666 | apply then reverse restores every counter and leaves no record and no ledger row |
| `CardLive.ApplyTwice` | api/src/card_state_v2.js:530-535 | applying twice counts once: same record, figures and counters |
| `CardAgreement.RangeLoadsAll` | api/src/card_state_v2.js:1114-1124 | the computed range loads every spend of the card that a rebuilt period can count |
| `CardAgreement.ReplaySum` | api/src/card_state_v2.js:904-938 | every rebuilt row is the sum of what each loaded transaction contributed: seeds through stored entries, replayed spends through new ones |
| `CardAgreement.CapAgreesIff` | api/src/card_state_v2.js:858-1083 | after a rebuild, whatever rows were stored, a rebuilt cap row is the sum of the matching entries over the final records, if and only if the rebuild saw the stored row, or counted something, or the stored row was empty |
| `CardAgreement.CapAgreement` | api/src/card_state_v2.js:858-1083 | so with the card's dates and terms unchanged every rebuilt cap row is that sum, rows of the v1 path beside it or not |
| `CardAgreement.RowsBuiltIff` | api/src/card_state_v2.js:871-924 | a rebuild has a row exactly for the enumerated periods and for those a replayed spend counts into |
| `CardAgreement.OverlapAgreesIff` | api/src/card_state_v2.js:1008-1016 | a period that overlaps the replay window, and whose stored row the rebuild sees, agrees if and only if no counting spend after the window kept an entry in it while it was neither enumerated nor one a replayed spend counts into |
| `CardAgreement.UnfoundAgreesIff` | api/src/card_state_v2.js:1122-1130 | a stored row the rebuild does not see agrees exactly when a rebuilt row that counts something replaces it, or it holds what counting spends after the replay window have recorded there |
| `CardExample.DroppedSeedExample` | api/src/card_state_v2.js:1008-1016 | a real card, a well-formed store and the code's own range where that happens: the row goes, the entry stays |
| `CardMovedExample.UnseenRowExample` | api/src/card_state_v2.js:1122-1130 | a real card whose statement day moved, the code's own range and a row of the old cycle: the rebuild loads everything, rebuilds the cycle as empty and leaves the row |
| `CardExample.ExampleInRun` | api/src/card_state_v2.js:1114-1124 | that store and rebuild are among those the run theorems are about |
| `CardMilestones.RangeGoodSpans` | api/src/card_state_v2.js:798-810 | the rebuilt milestone windows are those of the rebuild's date and their spends are loaded |
| `CardMilestones.MilestoneAgreement` | api/src/card_state_v2.js:940-972 | after a rebuild every rebuilt milestone row is the sum of the matching entries over the final records |
| `CardIdempotent.SeedSorted` | api/src/card_state_v2.js:294-297 | a seed counts alike from stored and from sorted entries, row marks included |
| `CardIdempotent.OrderUnique` | api/src/card_state_v2.js:865-868 | time and id order a set of transactions in one way only |
| `CardIdempotent.RecordAgain` | api/src/card_state_v2.js:974-994 | planning the record of a transaction that carries its planned record plans it again |
| `CardIdempotent.RebuildIdempotent` | api/src/card_state_v2.js:1146-1224 | planning again on the state an applied plan left gives no row to write or delete, no record and no expected-value update |
| `CardIdempotent.RebuildTwice` | api/src/card_state_v2.js:1226-1230 | so a second rebuild leaves the store as it is |
| `CardRefinement.LiveRefinesReplay` | api/src/card_state_v2.js:522-641 | live recording in order and the replay keep equal counters and give every spend the same cap entries and figures |
| `CardRefinement.LiveRefinesMilestones` | api/src/card_state_v2.js:582-600 | and the same milestone rows and entries of the rebuilt windows |
| `CardHistory.RebuildMatchesHistory` | api/src/card_state_v2.js:858-1083 | a whole history recorded live, then a rebuild over any range: every rebuilt row has its live value and every replayed spend its live entries and figures, the other spends counting as seeds |
| `CardSettled.RebuildSettled` | api/src/card_state_v2.js:858-1083 | after a whole history recorded live a rebuild over any range plans no row to write or delete, ends, kinds and amounts included, no record and no figure, cap and milestone rows alike, if and only if it drops no later spend's seed |
| `CardSettled.RebuildAfterHistory` | api/src/card_state_v2.js:1114-1230 | so for every request over the card's own range; and a rebuild as of the last spend's day or later leaves the store as it is |
| `CardRefinement.PlanIgnoresOrder` | api/src/card_state_v2.js:865-868 | the plan does not depend on the order of the input rows |
| `CardRuns.AfterGood` | api/src/card_state_v2.js:522-738 | every action keeps the store one the rebuild theorems are about: applies with or without their own rebuild, reversals, deferred failures, edits, rows of the v1 path in all three tables, card and fee-waiver rebuilds |
| `CardRuns.RunGood` | api/src/card_state_v2.js:22-26 | so does every run of them, over any cards |
| `CardRuns.RebuildInAnyRun` | api/src/card_state_v2.js:1114-1230 | whatever happened before, a rebuild from the card's floor day leaves every cap and milestone row it rebuilt equal to the sum over all records, and made again it writes nothing |
| `CardRuns.FeeRebuildInAnyRun` | api/src/card_state_v2.js:1264-1318 | and a fee-waiver rebuild leaves each current row that sum, waived exactly at the threshold |
| `CardSums.RebuiltExcess` | api/src/card_state_v2.js:1147-1224 | a rebuild that drops no seed leaves each counter of every section as far above its sum as it was, or exactly at it |
| `CardSums.LatestDropsNothing` | api/src/card_state_v2.js:769-796 | a rebuild as of a day that no counting spend of the card comes after drops no seed |
| `CardSums.RunSums` | api/src/card_state_v2.js:22-26 | over every run with rebuilds that drop no seed, each counter is at least the sum of its entries, and exactly that sum when no failure was deferred |
| `CardSums.RunSumsFromEmpty` | api/src/card_state_v2.js:22-26 | from an empty store |
| `CardPlanner.CapPeriodsBetween` | api/src/card_state_v2.js:830-839 | the loop enumerates the specified periods |
| `CardPlanner.RebuildRange` | api/src/card_state_v2.js:769-812 | the loops compute the specified range |
| `CardPlanner.PlanReplay` | api/src/card_state_v2.js:858-1083 | sorting, replay, milestone and record loops together compute the specified plan |
| `CardPlanner.PlanFeeWaivers` | api/src/card_state_v2.js:1264-1293 | the loops compute the specified totals and record updates |
| `CardStore.Store.constructor` | api/src/card_state_v2.js:22-26 | a new store is empty |
| `CardStore.Store.ReverseRecord` | api/src/card_state_v2.js:460-499 | the three update loops leave the specified rows |
| `CardStore.Store.Record` | api/src/card_state_v2.js:547-640 | pricing, upserts, record and ledger writes leave the specified store |
| `CardStore.Store.CardFloor` | api/src/card_state_v2.js:1102-1112 | the earlier of the day the card was opened and its first transaction's |
| `CardStore.Store.ApplyTransaction` | api/src/card_state_v2.js:522-641 | clears, when a planned row has no kind rebuilds the caps as of the spend's day from the card's floor day, and records |
| `CardStore.Store.ReverseTransaction` | api/src/card_state_v2.js:649-666 | leaves the specified reversal |
| `CardStore.Store.ApplyIf` | api/src/card_state_v2.js:693-738 | each outcome: the v1 path untouched, an apply, a reversal, or the rollback with its deferral |
| `CardStore.Store.Load` | api/src/card_state_v2.js:1086-1096 | selects exactly the card's rows in range, in order |
| `CardStore.Store.Rebuild` | api/src/card_state_v2.js:1226-1230 | loads, plans and applies as specified |
| `CardStore.Store.ApplyRebuild` | api/src/card_state_v2.js:1147-1224 | the write loops leave the specified store |
| `CardStore.Store.RebuildFees` | api/src/card_state_v2.js:1369-1393 | the fee-waiver writes leave the specified store |
| `CardStore.NeverStale` | api/src/card_state_v2.js:544-551 | in a store only this recording wrote, an apply never needs the rebuild |
| `CardStore.StaleApplyAgrees` | api/src/card_state_v2.js:544-572 | an apply that met a v1 row leaves every row it rebuilt equal to the sum over all records, the new one included, under the condition of `CapAgreesIff` |
| `FeeWaivers.FeeAgreement` | api/src/card_state_v2.js:1264-1318 | after the fee-waiver rebuild each rule's current row is the sum of the matching entries over all records, and waived exactly at the threshold |
| `FeeWaivers.RealFeeWindowsNear` | api/src/card_state_v2.js:1245-1251 | v1's windows, with any statement day, meet what that needs: spends near their window, and one window per start |
| `Journal.ScanCopy` | api/src/account_lifecycle_journal.js:69-86 | the scan accepts exactly the directories holding a complete, linked, bounded chain, and returns its checkpoint, frames and size |
| `Journal.ChainPinned` | api/src/account_lifecycle_journal.js:69-103 | two accepted histories with the same id and head hold identical frames |
| `Journal.HeadWithin` | api/src/account_lifecycle_journal.js:142-151 | a history whose head stands in another is that one's beginning |
| `Journal.HeadOnlyIsScan` | api/src/account_lifecycle_journal.js:90-103 | on every accepted directory the cheap check returns what the scan returns |
| `Journal.HeadOnlyNeedsScan` | api/src/account_lifecycle_journal.js:87-103 | the cheap check alone passes a directory with a replaced earlier frame |
| `Journal.CheckpointPinsCopy` | api/src/account_lifecycle_journal.js:104-105 | a truncated or altered accepted history cannot match a scanned checkpoint |
| `Journal.FrameFits` | api/src/account_lifecycle_journal.js:129-131 | the largest permitted ciphertext makes a frame within the file limit |
| `Journal.OncePerUser` | api/src/account_lifecycle_journal.js:146-148 | recovery lists each user's intent once, and refuses exactly conflicting histories |
| `Journal.LifecycleJournal.constructor` | api/src/account_lifecycle_journal.js:44-52 | a new journal agrees at sequence zero |
| `Journal.LifecycleJournal.Pair` | api/src/account_lifecycle_journal.js:105-105 | accepts exactly when both copies scan and both and the checkpoint are one |
| `Journal.LifecycleJournal.Inspect` | api/src/account_lifecycle_journal.js:118-118 | the agreed checkpoint, remembering that a full scan passed |
| `Journal.LifecycleJournal.ReadHead` | api/src/account_lifecycle_journal.js:119-119 | on agreeing copies the scanned checkpoint; the first call accepts nothing else |
| `Journal.LifecycleJournal.Append` | api/src/account_lifecycle_journal.js:120-139 | succeeds exactly under the stated checks, and then the chain is one valid frame longer in both copies, within record and byte limits; a fault leaves the specified evidence: one copy, both copies, or both with the checkpoint in place |
| `Journal.LifecycleJournal.ReadJournal` | api/src/account_lifecycle_journal.js:142-151 | against a trusted checkpoint: all intents, and the head of every prefix |
| `JournalProtocol.VerifiedIsCurrent` | api/src/account_lifecycle_journal.js:122-124 | an append that verified its expected checkpoint verified against the database's own, with nothing pending |
| `JournalProtocol.StepKeeps` | api/src/account_lifecycle_worker.js:29-51 | every step, failure, crash and power loss keeps one history with database, checkpoint, copy B and copy A in order |
| `JournalProtocol.CrashSafe` | api/src/account_lifecycle_worker.js:29-51 | over all interleavings: copies prefix-related and at most a frame apart, checkpoint never ahead of a copy, database at the journal's sequence or one less, every committed denial in both copies |
| `JournalProtocol.AgreesUnlessAhead` | api/src/account_lifecycle_worker.js:36-36 | copies, checkpoint and database agree exactly when the journal is not ahead of the database |
| `JournalProtocol.FencedForever` | api/src/account_lifecycle_worker.js:46-49 | after a mismatch nobody can still commit, no later append or commit succeeds in any run in which no power loss takes the frame ahead |
| `JournalProtocol.SyncedStays` | api/src/account_lifecycle_worker.js:46-49 | no power loss takes a frame that is synced, so in any run at all |
| `JournalProtocol.LostFrameFences` | api/src/account_lifecycle_worker.js:46-51 | a lost session, failure or crash with a frame written is such a mismatch, from the first link on |
| `JournalProtocol.LostThenCommits` | api/src/account_lifecycle_worker.js:46-51 | when the frame was never synced a power loss can take it, and the next pass then commits a denial |
| `JournalProtocol.FenceLostIff` | api/src/account_lifecycle_worker.js:46-51 | from a reachable mismatch that nobody can still commit, some run moves the database on if and only if the frame ahead is not synced |
| `JournalProtocol.UndisturbedCommit` | api/src/account_lifecycle_worker.js:29-50 | an undisturbed pass appends to both copies, saves the checkpoint and commits the denial with the database checkpoint |
| `Recovery.ListPage` | db/supabase/migrations/20261023191847_durable_account_lifecycle.sql:193-201 | a page is the first rows past the cursor, by user |
| `Recovery.PageStep` | api/src/account_lifecycle_recovery.js:39-53 | a page moves the cursor over exactly its rows, and a short page ends the listing |
| `Recovery.Collector.Add` | api/src/account_lifecycle_replay_plan.js:10-15 | refuses exactly invalid, contradicting and excess rows |
| `Recovery.Collect` | api/src/account_lifecycle_replay_plan.js:7-28 | succeeds exactly when the three sources are valid, one to one and fit, and lists their union by user; the page limit never stops it |
| `Recovery.BothStep` | api/src/account_lifecycle_recovery.js:28-32 | one row into both databases: refused only when the sources cannot be reconciled |
| `Recovery.Reconcile` | api/src/account_lifecycle_recovery.js:21-55 | succeeds exactly when the sources reconcile and fit the limits; both databases then hold the union |
| `Recovery.MergedAgain` | api/src/account_lifecycle_recovery.js:15-20 | what a successful run leaves reconciles with the same journal within the same limits, and already holds the union |
| `Recovery.RanTwice` | api/src/account_lifecycle_recovery.js:21-55 | after a run that succeeded, any run over the same journal that meets the contract succeeds and leaves both databases as they are |
| `Recovery.ReconcileTwice` | api/src/account_lifecycle_recovery.js:15-20 | two runs, one after the other: whenever the first succeeds the second does and changes nothing |
| `Simulation.EvaluateSingleCard` | api/src/monthly_report.js:88-119 | the loop computes the specified total |
| `Simulation.EvaluateWallet` | api/src/monthly_report.js:34-76 | the loop computes the specified total and shares |
| `Simulation.ShareIsSingleCard` | api/src/monthly_report.js:34-119 | a card's share is what it alone earns on the spends assigned to it |
| `Simulation.WalletDecomposes` | api/src/monthly_report.js:34-119 | a wallet's total is the sum of those |
| `Simulation.EvaluateOptimal` | api/src/monthly_report.js:134-184 | the loops compute the specified greedy month |
| `Simulation.BestIsFirstBest` | api/src/monthly_report.js:148-165 | each choice is the first card none beats at that moment |
| `Simulation.GreedyIsWallet` | api/src/monthly_report.js:134-184 | the greedy total is the wallet total on the spends reassigned to the choices |
| `Simulation.ChoicesAreMoves` | api/src/monthly_report.js:175-180 | the listed choices are those reassignments, one for each spend |
| `Simulation.GreedyFullIff` | api/src/monthly_report.js:121-184 | the greedy month earns what uncapped cards would exactly when no choice of it is short of a cap, and no way of making the spends earns more than that |
| `Simulation.GreedyIsBest` | api/src/monthly_report.js:121-184 | then no other assignment of the same spends earns more than the greedy one |
| `Simulation.FlatGreedyIsBest` | api/src/monthly_report.js:121-184 | nor when no card's earnings depend on what was consumed before |
| `Simulation.RoomyGreedyIsBest` | api/src/monthly_report.js:121-184 | nor when each cap is at least what all the month's spends would consume of it uncapped; the greedy month then earns everything in full |
| `Simulation.TwoCardsBest` | api/src/monthly_report.js:121-133 | so with ten per cent up to 100 rupees beside nine per cent, for up to 1000 rupees of spends |
| `Simulation.GreedyCanLose` | api/src/monthly_report.js:121-133 | with 1100 rupees another assignment earns more: a small spend and then a large one |
| `Simulation.Baseline` | api/src/monthly_report.js:202-211 | the baseline is the first card that alone earns the most |
| `ForeignPaymentRuns.AttachKeeps` | api/src/foreign_payments.js:155-170 | attaching links no transaction twice and leaves confirmed payments alone, whether it confirms the payment or puts it aside |
| `ForeignPaymentRuns.PaymentStepSound` | api/src/foreign_payments.js:171-327 | an operation on payments keeps the invariant, changes no confirmed payment and no link, billed amount or confirmation of a linked one, and a new link bills its row's amount, or the statement line's |
| `ForeignPaymentRuns.LedgerKeeps` | db/supabase/migrations/20261102100000_foreign_payments.sql:86-128 | a changed row changes the payment linked to it and no other: confirmed or ignored with the row's status, its amount, category, card and time, one revision and one event |
| `ForeignPaymentRuns.DeleteKeeps` | db/supabase/migrations/20261102100000_foreign_payments.sql:89-132 | deleting a row unlinks and ignores the payment linked to it, and changes no other |
| `ForeignPaymentRuns.StepSound` | api/src/foreign_payments.js:107-327 | every operation, ledger change and deletion keeps the invariant, loses no payment, never reverts `user_modified`, and adds a revision with every change |
| `ForeignPaymentRuns.RunSound` | api/src/foreign_payments.js:107-115 | so does every run of them |
| `ForeignPaymentRuns.RunFromEmpty` | db/supabase/migrations/20261102100000_foreign_payments.sql:86-132 | from an empty store, over every run: a payment is confirmed exactly while it is linked to an active row, no row is linked twice, revisions equal events, and estimates equal the conversion |
| `ForeignPaymentRuns.ConfirmedChangesIff` | db/supabase/migrations/20261102100000_foreign_payments.sql:86-132 | a confirmed payment changes exactly when its row changes or is deleted, and then as the trigger says |
| `ForeignPaymentRuns.LinkedConfirmsIff` | api/src/foreign_payments.js:155-158 | a payment that is linked and not confirmed is confirmed exactly by its row becoming active; no message, edit, confirmation or statement line does it |
| `ForeignPaymentRuns.LinkedUnconfirmed` | api/src/foreign_payments.js:208-224 | a run that ends in such a payment |
| `ForeignPaymentRuns.BillsIff` | api/src/foreign_payments.js:292-317 | after a step a linked payment bills its row's amount exactly when the step linked it, and not as a statement line of another amount, or it did before, or the step changed its row |
| `ForeignPaymentRuns.RunBillsIff` | api/src/statement_import.js:411-420 | every linked payment bills its row's amount in every state of a run if and only if no statement line of the run settles a row at another amount |
| `ForeignPaymentRuns.MisbilledThenSynced` | api/src/statement_import.js:411-420 | a run in which a line settles an edited row at the file's amount, until the row changes again |
| `ForeignPaymentRuns.ReplayKeepsFacts` | api/src/foreign_payments.js:183-190 | a replayed message changes no payment's facts, estimate or `user_modified` once the user edited, dismissed or settled the payment or an estimate is frozen |
| `ForeignPaymentRuns.SuppressedThenReplayed` | api/src/foreign_payments.js:160-167 | after a second observation is put aside its key leads to the linked purchase, and replaying it returns that purchase and changes nothing |
| `ForeignPaymentRuns.IgnoredLeavesIff` | api/src/foreign_payments.js:299-317 | an ignored payment leaves that state exactly by a restoring edit, by a statement line that claims its key with its card, its originals and a date within a week on a row nothing is linked to, or with the row it is linked to |
| `ForeignPaymentRuns.IgnoredThenConfirmed` | api/src/foreign_payments.js:299-317 | from the empty store a purchase with a card and an amount is observed, dismissed and then confirmed by a statement line, with no edit in between |
| `ForeignPaymentStore.PaymentTables.UpdatePayment` | api/src/foreign_payments.js:107-115 | one row changes, with one more revision and one event |
| `ForeignPaymentStore.PaymentTables.AttachTransaction` | api/src/foreign_payments.js:155-170 | confirms, puts aside or refuses as specified, and answers with the payment that holds the transaction |
| `ForeignPaymentStore.PaymentTables.RefreshForeignPayment` | api/src/foreign_payments_route.js:139-158 | a pending payment is valued when a rate came and reconciled, as specified; the invariant holds |
| `ForeignPaymentStore.PaymentTables.ReconcilePayment` | api/src/foreign_payments.js:171-178 | attaches the only candidate, and with none or several changes nothing |
| `ForeignPaymentStore.PaymentTables.UpsertForeignPayment` | api/src/foreign_payments.js:179-207 | leaves the specified store, or refuses and leaves the old one; the invariant holds |
| `ForeignPaymentStore.PaymentTables.PatchForeignPayment` | api/src/foreign_payments.js:208-224 | an edit leaves the specified payment and event, or is refused and changes nothing; the invariant holds |
| `ForeignPaymentStore.PaymentTables.ConfirmForeignPayment` | api/src/foreign_payments.js:225-287 | a confirmation settles on or writes its transaction and attaches it as specified, or is refused and leaves the old store; the invariant holds |
| `ForeignPaymentStore.PaymentTables.ReconcileStatementForeignPayment` | api/src/foreign_payments.js:292-327 | a statement line attaches at its own amount, creates or ignores as specified, or is refused and leaves the old store; the invariant holds |
| `ForeignPaymentStore.PaymentTables.WriteTransaction` | db/supabase/migrations/20261102100000_foreign_payments.sql:91-128 | a row written, and the trigger's loop over the payments linked to it, leave the specified store; the invariant holds |
| `ForeignPaymentStore.PaymentTables.DeleteTransaction` | db/supabase/migrations/20261102100000_foreign_payments.sql:91-132 | a row deleted, after the trigger's loop, leaves the specified store; the invariant holds |
| `Money.CanonicalTwice` | api/src/foreign_exchange.js:17-22 | canonical form is idempotent |
| `Money.CanonicalSameValue` | api/src/foreign_exchange.js:17-22 | and keeps the value |
| `Money.CanonicalIffSameValue` | api/src/foreign_exchange.js:9-22 | two accepted texts have one canonical form exactly when they are one number |
| `Money.MinorRoundTrip` | api/src/foreign_exchange.js:41-49 | paise read back from their text |
| `Money.InrAmountTwice` | api/src/foreign_exchange.js:35-40 | an accepted rupee amount has one fixed form with the same paise |
| `Money.ConvertExact` | api/src/foreign_exchange.js:50-57 | conversion is exact half-up rounding, within half a paisa |
| `Money.ConvertMonotone` | api/src/foreign_exchange.js:50-57 | conversion is monotone in amount and rate |
| `Money.ConvertByValue` | api/src/foreign_exchange.js:50-57 | leading and trailing zeros do not change a conversion |
| `Sender.StepKeeps` | api/src/notification_outbox_worker.js:39-113 | every step of the worker and its environment keeps the fence's invariant |
| `Sender.FenceHolds` | api/src/notification_outbox_worker.js:39-98 | a send starts only with none in flight and not blocked; `finish` is issued only with none in flight |
| `Sender.OneSendAtATime` | api/src/notification_outbox_worker.js:75-113 | over all interleavings: at most one send in flight, and one send and one `finish` for each claimed row |
| `Sender.BlockedNeverSends` | api/src/notification_outbox_worker.js:64-69 | a blocked worker never sends again |
| `Sender.StoppedSendsIff` | api/src/notification_outbox_worker.js:122-132 | a stopped worker left alone sends again exactly when its cycle has a claim or a row ahead, whatever the batch size |
| `Sender.StoppedSendsOneIff` | api/src/notification_outbox_worker.js:8-132 | with the batch size of one it does exactly when a claim has been issued whose row is not being sent yet |
| `Sender.StoppedThenSends` | api/src/notification_outbox_worker.js:122-132 | a worker stopped while its first claim is out sends the row that the claim returns |
| `RateLimit.Limiter.constructor` | api/src/feedback_rate_limit.js:25-26 | a new limiter has an empty table |
| `RateLimit.Limiter.Consume` | api/src/feedback_rate_limit.js:29-58 | the pruning loop and the branches make the specified decision; a refusal names a wait that reaches the window's end |
| `RateLimit.RateBound` | api/src/feedback_rate_limit.js:11-60 | failing closed on a non-decreasing clock: at most twice the limit allowed in any window-long interval |
| `RateLimit.OpenIsUnbounded` | api/src/feedback_rate_limit.js:51-52 | failing open, with any table size, any number of calls of one identity can be allowed at once |
| `RateLimit.UnboundedIffOpen` | api/src/feedback_rate_limit.js:51-55 | a configuration lets some identity past twice its limit in one window exactly when it fails open |
| `RateLimit.LiveKept` | api/src/feedback_rate_limit.js:34-41 | no call loses the live count of any identity |
| `RateLimit.TableBounded` | api/src/feedback_rate_limit.js:51-55 | the table never exceeds its maximum |
| `Seeder.CheckAcyclic` | api/scripts/seed_merchant_directory.js:75-81 | the cycle check accepts exactly the acyclic lists |
| `Seeder.OrderParentsFirst` | api/scripts/seed_merchant_directory.js:104-116 | ends with a permutation that puts every parent before its children |
| `Seeder.DiffRows` | api/scripts/seed_merchant_directory.js:125-139 | sorts the list into inserts, updates and unchanged rows, and names the missing ones |
| `Seeder.ForeignKeyHolds` | api/scripts/seed_merchant_directory.js:173-181 | the parent reference holds after every single upsert |
| `Seeder.ApplyPlan` | api/scripts/seed_merchant_directory.js:173-193 | the loop leaves the specified table |
| `Seeder.ReplanIsEmpty` | api/scripts/seed_merchant_directory.js:149-154 | planning again finds nothing to insert or update, and no row was removed |
| `Csv.ParseCsv` | api/scripts/audit_sms_export.js:19-55 | the character loop computes the specified rows |
| `Csv.ParseField` | api/src/csv.js:25-31 | a printed field reads back as its text, quoted or not |
| `Csv.DocumentRoundTrip` | api/src/csv.js:25-48 | a printed document without its byte-order mark parses to exactly the guarded texts if and only if every row has a field and none ends in a carriage return (section 2 of RFC 4180) |
| `Csv.NoParsedFormula` | api/src/csv.js:25-31 | no field read back starts with a formula character |

## Left out

- Reward pricing, rule picking and the merchant directory lookup: one deterministic function here.
- Kept snapshots of cap values, confirmed points rows, timestamps and the values returned to callers.
- The v1 recording path and its own rebuild, which also deletes rows; what it writes appears as rows (`CardRuns.Action.V1Row`).
- Cap periods and anchors outside the database's closed lists.
- `CardRefinement.LiveRefinesReplay`: is about spends inside the replay window, from any counters of equal value; `CardHistory.RebuildMatchesHistory` has the others.
- `CardSettled.RebuildSettled`: is about cards whose caps count in one kind and native amount each; with two, live rows name the last one and rebuilt rows the first.
- `CardAgreement.CapAgreement`: is about the rows a rebuild makes; other periods of the card are those of `OverlapAgreesIff` and `UnfoundAgreesIff`.
- `CardRuns.RebuildInAnyRun`: is about rebuilds whose cap windows end by 31 December 9999, the last day the code has.
- `CardSums.RunSums`: leaves out runs with rows of the v1 path, whose amounts no record holds.
- Changing a card's dates or cap periods during a run; what such a change leaves stored is any row, for `CapAgreesIff` and `UnfoundAgreesIff`.
- `CardStore.Store.ApplyIf`: a failed call is a flag; which statement failed does not matter, because the fields are restored from the savepoint.
- `CardStore.Store.RebuildFees`: the selection of the loaded spends is the caller's, as `FeeLoads` describes it.
- Row-level security, advisory locks and connection handling; an owner's rows are the only rows.
- Encryption, HMAC, file permissions, disk statistics and the `age` process: a fault can happen where they stand.
- `Journal.LifecycleJournal.Append`: temporary files that could not be removed are not entries here; each would be one more towards the directory limit.
- `Journal.LifecycleJournal.ReadHead`: does not model the process restarting, which clears the remembered scan.
- `JournalProtocol.CrashSafe`: an operator's removal of stale lock directories and the quiesced recovery are not steps; a power loss may lose any of the locks.
- The claim's choice of a due job, leases, retries and `finish` in `account_lifecycle.*`; the worker's bound of jobs in one pass and its summary.
- `Recovery.Reconcile`: the listing is the database's own, so the ordering and page-size checks cannot fire; retained rows come as a list and not as a stream.
- `Simulation.EvaluateWallet`: values are exact reals, where the program adds floating-point numbers.
- The monthly report's top-missed list and its flooring at zero.
- `ForeignPaymentRuns.StepSound`: input checks, ownership checks and the queries for candidate transactions are parameters of an operation, and the batch of at most 20 refreshed payments is one operation for each.
- `ForeignPaymentRuns.RunFromEmpty`: a ledger change is a step between operations; one that does not wait for the profile's lock, and so falls inside an operation, is not modelled, nor are the columns set to null when a card or category is deleted.
- Exchange-rate fetching, currency precision and serialisation of payments.
- `Money.CanonicalTwice`: texts are taken as trimmed, and numbers as the text they print as.
- The notification worker's status reports and error codes; `claim`, `allowed` and `finish` in `notification_delivery.*` return anything.
- The shared-store rate limiter.
- `Seeder.ApplyPlan`: its table, like the databases of `Recovery`, is a value the loop reassigns; the platform half, which has no parent references, and the slug and text checks of the parse.
- `Csv.ParseCsv`: the rest of the audit script.
- IMAP, nearby discovery, catalogue, authentication, network plumbing, text classifiers, importers and administration: input and output with local rules.

# Borrow-checker: a verified model of the ledger's budget, balance, account and asset logic

Borrow-checker keeps a double-entry personal-finance ledger. Its core answers most questions with one pass or one
batch of queries where an obvious definition would take many. This project models those algorithms and proves, for all
inputs and all runs, that they compute what the obvious definitions say.

* **Budget status.** A budget's dated revisions resolve into periods (`Calendar`, `Timeline`, `Carry`). A status plans at
  most two ledger loads per revision, drops each loaded posting into a bucket by binary search (`LoadPlan`,
  `WindowBuckets`), values every bucket under one commodity decision (`Valuation`, `WindowValues`), pro-rates targets by
  day count and rounds them to cents (`Proration`), and folds a surplus forward through each period's rollover policy
  (`RolloverFold`, `Status`, `StatusLaws`, `ActualsLaws`). The service that edits revisions is a state machine over two
  tables and a log (`BudgetModel`, `BudgetService`).
* **Balances.** From the stream of resolved legs (`Ledger`): one-pass totals beside their per-account forms (`Totals`,
  `TotalsPass`), subtree roll-ups by pushing upward (`Parents`, `Rollup`), running balances by sort and fold
  (`ScopeLedger`), flows and period statistics (`Flows`), and period buckets (`Buckets`).
* **Accounts.** The account table is a forest with creation, archiving, closing, reopening and opening dates, each with an
  event beside it (`AccountModel`, `AccountOutcomes`, `AccountLog`, `AccountHistory`, `Descendants`, `AccountService`), and
  batch creation by path against a snapshot (`Paths`, `PathRules`, `CreatePaths`, `CreateBatch`).
* **Scopes and assets.** The containment order of budget scopes with minimal owners and an envelope forest (`Partition`),
  and depreciation as a clamped accumulation (`Depreciation`).

`Prelude`, `Ids`, `Postings`, `Sums`, `Seqs` and `Balances` hold shared vocabulary and small laws.
`dafny verify dfyconfig.toml` checks everything.

Amounts are exact decimals, dates are day numbers, and a database transaction changes every table it touches or none.
A calendar is a parameter: a grid period partitions the days into half-open ranges and steps forward, a custom period
starts wherever it is asked and steps forward. A rate service is any partial function from an amount and a commodity to
a value. The leg stream is taken as given: transactions in ascending id, each with legs of account, commodity, value and
source. Loops and in-place updates of the source are methods and classes here, each proved against a specification
function whose meaning the lemmas state.

## Where the code and its documentation differ

* `prorated_target` says the shares of adjacent windows sum exactly to the share of their union
  (crates/bc-core/src/budget.rs:1681-1682). They do for every choice of targets if and only if the windows meet between
  two periods (`Proration.ExactIffBetweenPeriods`); anywhere else they differ by at most a cent
  (`Proration.SplitMovesAtMostACent`), as one cent over two days shows (`Proration.OneCentOverTwoDays`).
* `revise` is documented to add or amend a revision of the given budget. Its upsert is by revision id alone and never
  moves a row between budgets, so with an id of another budget it succeeds, leaves the given budget as it was and
  rewrites the other one (`BudgetModel.ReviseCanRewriteAnotherBudget`). It stores the revision in the given budget if and
  only if the id is new or already that budget's (`BudgetModel.ReviseStoresIffOwnOrNew`). The logged event names the
  given budget, so a log replays to the tables throughout a run if and only if no such call succeeds in it
  (`BudgetModel.ReplayRebuilds`, `BudgetModel.ReplayMisplacesABorrowedRevision`).
* `bucket_ranges` promises contiguous ranges. They are if and only if the period is on a grid, there is one bucket, or
  every custom step asked for lasts one day (`Buckets.ContiguousIff`); two weekly custom buckets overlap on six days
  (`Buckets.CustomBucketsOverlap`). Buckets still conserve flows, because a transaction lands in the first range only.

A tag chain built by the service ends in the filter's own tag (crates/bc-core/src/budget_tree.rs:411-423), so
`envelope_parents` keeps its promise of the innermost container on every list the service builds
(`Partition.ParentIsInnermostForRealTags`). The function itself also takes an empty chain; exactly when that breaks the
promise is `Partition.ParentIsInnermost`.

## Model

| member | source | states |
|---|---|---|
| Timeline.WindowShape | crates/bc-models/src/budget_timeline.rs:125-174 | the periods of a window are non-empty, meet end to start, overlap it and cover it from the first governed day to its end; each lies in its own revision's reign and ends one calendar step after its start, or at the reign's end if that comes first, and is a stub just then |
| Timeline.OnlyShape | crates/bc-models/src/budget_timeline.rs:125-174 | from the first revision on, a list of periods has that shape if and only if it is the one resolved |
| Timeline.EachGovernedDayOnce | crates/bc-models/src/budget_timeline.rs:125-174 | a day of the window is covered exactly when some revision governs it, by exactly one period, under the governing revision |
| Timeline.NarrowerWindow | crates/bc-models/src/budget_timeline.rs:125-174 | a narrower window resolves to exactly those periods of the wider one that overlap it, with their true starts |
| Carry.ChainStep | crates/bc-models/src/budget_timeline.rs:196-215 | a boundary that carries extends the chain by the period before it; any other boundary empties it |
| Carry.ChainStartIsChain | crates/bc-models/src/budget_timeline.rs:196-215 | the backward walk finds the start of the unbroken run of carrying periods in the budget's whole period list, or nothing when there is none |
| Carry.ChainPeriodsAreChain | crates/bc-core/src/budget.rs:1038-1044 | resolving from the chain's start up to a period gives exactly the chain of that period |
| LoadPlan.PlanLoads | crates/bc-core/src/budget.rs:806-841 | the loads are, reign by reign, each span clipped to the reign, empty ones dropped |
| LoadPlan.AtMostTwoLoadsPerReign | crates/bc-core/src/budget.rs:784-791 | at most two loads per reign, and one unless a query splits a chain from the window |
| LoadPlan.SegmentIndexFinds | crates/bc-core/src/budget.rs:852-859 | the binary search returns an index exactly when that segment holds the date; dates in gaps have none |
| LoadPlan.FillBuckets | crates/bc-core/src/budget.rs:1046-1073 | each bucket holds, load by load and in order, the loaded postings its segment's dates hold; the rest are dropped |
| LoadPlan.PlanRefinesNaive | crates/bc-core/src/budget.rs:777-841 | however loads merge and clip, a chain segment gets exactly its own postings under its own revision's tag filter and no query, a window segment exactly its own with the query |
| WindowBuckets.WindowFitsChain | crates/bc-core/src/budget.rs:1038-1047 | a window's periods with their carry chain give sorted, disjoint, reign-respecting segments, the chain ending by the window's start |
| WindowBuckets.LoadBuckets | crates/bc-core/src/budget.rs:1046-1073 | planning, loading and bucketing give every chain period its whole postings and every window period its clipped postings, as if each had been loaded alone |
| Valuation.CommodityGroups | crates/bc-core/src/budget.rs:968-982 | the groups are the per-commodity sums of exactly the commodities present |
| Valuation.DominantCommodity | crates/bc-core/src/budget.rs:984-1001 | the code with the largest absolute total, the highest code among equals, and none only for no groups |
| Valuation.FoldActuals | crates/bc-core/src/budget.rs:1525-1564 | the total of every amount that can be valued, in the target's or the dominant commodity, and the native amounts that cannot, though tracking-only leftovers are reported group by group |
| Valuation.NativeIsValuedPlusUnvalued | crates/bc-core/src/budget.rs:1507-1518 | per commodity, native amounts are those valued plus those reported unvalued |
| Valuation.TrackingLeftovers | crates/bc-core/src/budget.rs:1512-1514 | tracking only, every group but the dominant one is left over whole |
| Valuation.TrackingTotal | crates/bc-core/src/budget.rs:1582-1596 | tracking only, the total is the native sum of the amounts in the one commodity |
| Valuation.TargetTotal | crates/bc-core/src/budget.rs:1582-1596 | under a target, the total is what the rates into its commodity make of the amounts they reach |
| Valuation.TargetTotalOfOwnCommodity | crates/bc-core/src/budget.rs:1582-1596 | amounts all in the target's commodity total to their native sum, where a commodity is worth itself |
| Valuation.TargetLeftovers | crates/bc-core/src/budget.rs:1541-1553 | under a target, what is left over in a commodity is its native amount that no rate reaches |
| WindowValues.ValueWindow | crates/bc-core/src/budget.rs:1266-1301 | every bucketed posting valued under its own period's revision and one window commodity, leftovers summed by commodity |
| WindowValues.EachPostingOnce | crates/bc-core/src/budget.rs:1266-1301 | valuing returns each bucketed posting exactly once, in order |
| WindowValues.NativeIsConserved | crates/bc-core/src/budget.rs:740-745 | per commodity, the listed native amounts are those with a value plus the unvalued balance |
| WindowValues.OnePeriodAgreesWithFold | crates/bc-core/src/budget.rs:1254-1301 | a window of one period values as that period folds: same total, commodity and leftovers |
| Proration.RoundsHalfToEven | crates/bc-core/src/budget.rs:1670-1675 | rounding gives an integer if and only if it is less than a half away, or just a half away and even |
| Proration.RoundingGapIsACent | crates/bc-core/src/budget.rs:1670-1675 | rounding two parts and rounding their sum differ by at most a cent |
| Proration.WholePeriod | crates/bc-core/src/budget.rs:1638-1703 | the share of a whole period that is no stub is its target rounded to cents, and nothing without a target |
| Proration.SplitLeavesTheCutGap | crates/bc-core/src/budget.rs:1688-1703 | the shares of two adjacent windows and of their union differ by the rounding of the one period the split cuts |
| Proration.SplitMovesAtMostACent | crates/bc-core/src/budget.rs:1678-1703 | a split anywhere moves at most a cent; a split between two periods moves nothing |
| Proration.ExactIffBetweenPeriods | crates/bc-core/src/budget.rs:1678-1703 | a split is exact for every choice of targets on the schedule if and only if it falls between two periods |
| Proration.OneCentOverTwoDays | crates/bc-core/src/budget.rs:1681-1682 | a budget on which two adjacent one-day shares are nothing and the share of their union is a cent |
| RolloverFold.PolicyMeaning | crates/bc-core/src/budget.rs:890-911 | resetting carries nothing, carrying forward the surplus; capping carries the surplus kept between zero and a target that is not negative, and a negative target itself whatever the surplus |
| RolloverFold.CappedCarryIsWithinTarget | crates/bc-core/src/budget.rs:890-911 | a capped carry lies between zero and the target for every surplus if and only if the target is not negative |
| RolloverFold.FoldRollover | crates/bc-core/src/budget.rs:1614-1634 | the carry is each period's share plus what it received less what it spent, passed through the next period's policy, and every chain leftover is reported |
| RolloverFold.CarryIgnoresLater | crates/bc-core/src/budget.rs:1614-1634 | the carry out of a prefix of the chain does not depend on what follows |
| Status.WindowPostings | crates/bc-core/src/budget.rs:1211-1252 | a backward window is refused; any other gives every due posting valued, with no chain loaded |
| Status.StatusForWindow | crates/bc-core/src/budget.rs:1024-1113 | a backward window is refused; any other gives the status defined period by period with no load plan and no shared buckets |
| StatusLaws.ListedValuesAreTheActuals | crates/bc-core/src/budget.rs:1185-1193 | for any window and query the listed values sum to the status's actuals, in the same commodity |
| StatusLaws.EachMatchListedOnce | crates/bc-core/src/budget.rs:1185-1193 | a posting is listed as often as the ledger holds it when it is dated in the window on a governed day, inside that day's tag filter and in the query, and never otherwise |
| StatusLaws.StatusOfPeriod | crates/bc-core/src/budget.rs:1024-1113 | a whole period's allocation is its share, its actuals what it spends, its rollover what its chain carries in |
| StatusLaws.RolloverIgnoresTheView | crates/bc-core/src/budget.rs:784-791 | a status over any window and under any query has the rollover of its first period taken whole and unfiltered |
| StatusLaws.FirstRolloverIsZero | crates/bc-models/src/budget_timeline.rs:191-193 | a budget's first period receives nothing |
| StatusLaws.RolloverRecurrence | crates/bc-core/src/budget.rs:1598-1634 | the next period receives nothing when either period resets or it is custom; otherwise this period's available amount, whole when carrying forward; capping, kept between zero and a target that is not negative, or a negative target itself |
| StatusLaws.UnvaluedRecurrence | crates/bc-core/src/budget.rs:1085-1113 | a period reports its own leftovers and, across a boundary that carries, everything the period before it reports |
| StatusLaws.ChainStartsFresh | crates/bc-models/src/budget_timeline.rs:196-215 | the period where a chain starts has no chain of its own |
| StatusLaws.AvailableTelescopes | crates/bc-core/src/budget.rs:1085-1100 | where everything is carried forward, the available amount is all that was allocated since the chain's start less all that was spent |
| StatusLaws.CappedRolloverIsWithinTarget | crates/bc-core/src/budget.rs:890-911 | a capped period with a non-negative target never receives less than zero or more than its target |
| ActualsLaws.ActualsAreDueWorth | crates/bc-core/src/budget.rs:1024-1113 | over the whole ledger, a window's actuals are the sum of what each due posting is worth under the revision governing its date, and the leftovers the native amounts of the due postings worth nothing |
| ActualsLaws.TrackingActuals | crates/bc-core/src/budget.rs:1582-1596 | with no target in the window, its actuals are the native total of the due postings in its one commodity |
| ActualsLaws.WindowHasOneCommodity | crates/bc-core/src/budget.rs:1266-1279 | a window's commodity is its first target's; with no target, the one with the largest absolute native total over the due postings, the highest code among equals, and none if and only if nothing is due |
| BudgetModel.StepKeepsSound | crates/bc-core/src/budget.rs:253-661 | every call keeps at least one revision per budget, distinct dates and a target wherever a policy caps; a refused call changes neither table nor log |
| BudgetModel.RunsStaySound | crates/bc-core/src/budget.rs:253-661 | so does any run of create, archive, revise and remove calls |
| BudgetModel.ListingsAreValid | crates/bc-core/src/budget.rs:891-901 | the revisions the engine reads after any run are never empty, strictly date-ordered and have a target wherever they cap, so the engine's missing-target case cannot arise |
| BudgetModel.CreateOutcome | crates/bc-core/src/budget.rs:176-365 | a budget is created if and only if its target resolves and, capping, exists; the one revision stored has the expression's value in the commodity asked for |
| BudgetModel.ReviseOutcome | crates/bc-core/src/budget.rs:523-624 | exactly when a revise gives each error, in order, and the one row and event it leaves otherwise, the row under the budget that already had the id |
| BudgetModel.ArchiveOutcome | crates/bc-core/src/budget.rs:447-484 | archiving marks exactly the active budget asked for, or finds none and changes nothing |
| BudgetModel.ReviseStoresIffOwnOrNew | crates/bc-core/src/budget.rs:506-624 | a successful revise stores the revision in the budget asked for if and only if its id is new or that budget's; otherwise that budget is untouched |
| BudgetModel.ReviseCanRewriteAnotherBudget | crates/bc-core/src/budget.rs:583-595 | two budgets on which a call on one succeeds and rewrites the other |
| BudgetModel.OwnOrNewNeverClashes | crates/bc-core/src/budget.rs:557-566 | for an id that is new or the budget's own, the table's uniqueness rule never refuses what the check let through |
| BudgetModel.RemoveOutcome | crates/bc-core/src/budget.rs:634-661 | a revision is removed if and only if it is the budget's and not its only one; every other row stays, one event is logged, and a refusal changes nothing |
| BudgetModel.ReplayRebuilds | crates/bc-core/src/budget.rs:567-595 | from any tables, replaying the events rebuilds the tables after every prefix of a run if and only if no revise that succeeds borrows another budget's revision id |
| BudgetModel.StepIsItsEvent | crates/bc-core/src/budget.rs:567-595 | a call that fails changes and logs nothing; one that succeeds logs one event, which does to the tables what the call did if and only if it is no revise borrowing another budget's id |
| BudgetModel.ReplayMisplacesABorrowedRevision | crates/bc-core/src/budget.rs:567-595 | a one-call run whose event places in budget 1 the revision the table keeps in budget 2 |
| BudgetService.BudgetService.Create | crates/bc-core/src/budget.rs:268-365 | the new tables and event are those of the creation step under new ids, or the step's error and no change |
| BudgetService.BudgetService.Revisions | crates/bc-core/src/budget.rs:486-503 | exactly the budget's revisions, each once, ascending by date |
| BudgetService.BudgetService.Revise | crates/bc-core/src/budget.rs:523-624 | the answer, tables and event of the revision step, its conflict found by scanning the listing |
| BudgetService.BudgetService.RemoveRevision | crates/bc-core/src/budget.rs:634-661 | the answer, tables and event of the removal step |
| BudgetService.BudgetService.Archive | crates/bc-core/src/budget.rs:449-476 | the answer, tables and event of the archive step |
| Ledger.ScopeKeepsItsLegs | crates/bc-core/src/legs.rs:452-487 | restricting the stream to a scope keeps exactly the legs on it |
| Ledger.BalanceFor | crates/bc-core/src/balance.rs:611-626 | the running total over an account's stream is what its legs in the commodity sum to |
| Totals.TotalsSlot.Add | crates/bc-core/src/balance.rs:222-248 | a slot tallies, per commodity, the sum and the concrete-leg count of the legs it was given, and the first residual commodity |
| Totals.TotalsSlot.Finish | crates/bc-core/src/balance.rs:255-270 | the finished totals are those of the slot's legs |
| TotalsPass.FoldLedger | crates/bc-core/src/balance.rs:1200-1268 | one pass over all legs gives every account's slot exactly that account's legs |
| TotalsPass.ComputeTotals | crates/bc-core/src/balance.rs:1200-1268 | every account's own totals match its legs |
| TotalsPass.OnePassBalance | crates/bc-core/src/balance.rs:611-626 | the one-pass balance of any account in any commodity is the balance its own stream gives |
| TotalsPass.DefaultCommodityFor | crates/bc-core/src/balance.rs:1138-1183 | the first configured commodity, else the most used with ties to the lowest code, else the first residual met |
| TotalsPass.OnePassDefault | crates/bc-core/src/balance.rs:289-301 | the one-pass default commodity obeys the same rules, given positions numbered from zero |
| TotalsPass.DefaultsAgreeWithPerAccountForms | crates/bc-core/src/balance.rs:313-326 | the default balances are, for every active account, the per-account balance in the commodity the per-account form chooses |
| Rollup.PushOne | crates/bc-core/src/balance.rs:363-413 | for any parent links, cycles included, the walk ends and adds to each active account on the chain once |
| Rollup.Rollups | crates/bc-core/src/balance.rs:363-413 | the roll-ups hold what every start has pushed to itself and every active account above it |
| Rollup.RollupMeaning | crates/bc-core/src/balance.rs:348-413 | an active account's roll-up is, per commodity, the sum of own totals of every active account whose chain reaches it, through archived ones that get no entry |
| Rollup.SubtotalRecurrence | crates/bc-core/src/balance.rs:348-413 | without cycles the roll-up is the account's own totals plus its children's subtotals |
| ScopeLedger.ScopeLedger | crates/bc-core/src/balance.rs:643-691 | the maps hold the fold of the scope's legs in chronological order, though each leg overwrites its transaction's entry |
| ScopeLedger.RunningBalance | crates/bc-core/src/balance.rs:643-691 | after a transaction the balance is all the scope moved in the transactions at or before it, and its delta what it moved itself |
| ScopeLedger.RunningBalanceByDate | crates/bc-core/src/balance.rs:667-691 | the balance after a transaction is all the scope moved on earlier days and, on the same day, in the transactions with ids no lower than its own |
| ScopeLedger.UnknownIsZero | crates/bc-core/src/balance.rs:145-170 | a transaction with no entry in the scope has zero balance, zero delta and no focal commodity |
| ScopeLedger.RunningBalanceStep | crates/bc-core/src/balance.rs:643-691 | each running balance is its predecessor's plus the transaction's own delta |
| ScopeLedger.RunningBalanceEnds | crates/bc-core/src/balance.rs:643-691 | the first balance is its own delta, the last the scope's whole balance |
| ScopeLedger.FocalIsTheOnlyCommodity | crates/bc-core/src/balance.rs:162-170 | the focal commodity is the one commodity the transaction's legs are in, when there is just one |
| ScopeLedger.ScopeBalanceIsSum | crates/bc-core/src/balance.rs:611-691 | a scope's balance is the sum of its accounts' single-account balances |
| Flows.FlowTotals.AddTransaction | crates/bc-core/src/balance.rs:100-122 | a transaction's net goes to inflow or outflow, what moved between its legs to internal |
| Flows.FlowIdentities | crates/bc-core/src/balance.rs:79-122 | flows are non-negative, each net flow plus internal is the gross movement on its side, and net in less net out is the sum of the legs |
| Flows.AccountPeriodStats | crates/bc-core/src/balance.rs:947-988 | one pass split at the window's start gives the statistics of the window |
| Flows.PostingFlows | crates/bc-core/src/balance.rs:866-894 | the sums of positive and of negative legs dated in the window |
| Flows.PostingFlowsAreNetPlusInternal | crates/bc-core/src/balance.rs:866-988 | gross postings over a window are its net flows plus what moved inside the scope |
| Flows.StatsAreBalances | crates/bc-core/src/balance.rs:947-988 | opening, net and closing are the balances before, in and up to the end of the window |
| Flows.StatsCount | crates/bc-core/src/balance.rs:947-988 | the count is the number of the scope's transactions dated in the window, up to the largest 32-bit one |
| Flows.StatsSplit | crates/bc-core/src/balance.rs:947-988 | for any split date net, flows and the transaction count add, the count up to its 32-bit cap, and the right half opens where the left closes |
| Flows.FullSpanClosesAtBalance | crates/bc-core/src/balance.rs:947-988 | a window spanning everything opens at zero and closes at the scope's balance |
| Buckets.BucketRanges | crates/bc-core/src/balance.rs:518-535 | exactly the requested number of ranges, oldest first, each the one before the next |
| Buckets.RangesCover | crates/bc-core/src/balance.rs:496-535 | the last range holds the date asked for and no day between the first start and the last end is left out |
| Buckets.ContiguousIff | crates/bc-core/src/balance.rs:496-535 | ranges are contiguous if and only if the period is on a grid, there is one bucket, or the custom steps asked for last one day |
| Buckets.HeldOnceIffContiguous | crates/bc-core/src/balance.rs:496-535 | every covered date lies in exactly one range if and only if the period is on a grid, there is one bucket, or the custom steps asked for last one day |
| Buckets.CustomBucketsOverlap | crates/bc-core/src/balance.rs:518-535 | two weekly custom ranges that overlap |
| Buckets.PostingBuckets | crates/bc-core/src/balance.rs:1039-1084 | each bucket holds the flows of the windowed transactions landing in it first |
| Buckets.BucketsConserve | crates/bc-core/src/balance.rs:1039-1084 | every windowed transaction lands in exactly one bucket and the buckets' flows sum to the window's |
| Descendants.DescendantsOf | crates/bc-core/src/account.rs:360-376 | the recursive query ends on a forest and lists exactly the accounts below, each once |
| AccountModel.CreateKeepsForest | crates/bc-core/src/account.rs:1383-1501 | a new account keeps the tree acyclic, sibling names distinct, and types, closed and archived states inherited downward |
| AccountModel.CreateEachKeepsForest | crates/bc-core/src/account.rs:1207-1288 | so do any rows inserted in turn under new ids, open and active |
| AccountModel.CloseKeepsForest | crates/bc-core/src/account.rs:593-686 | closing with either cascade keeps the forest |
| AccountModel.ArchiveKeepsForest | crates/bc-core/src/account.rs:488-558 | archiving with either cascade keeps the forest |
| AccountModel.ReopenKeepsForest | crates/bc-core/src/account.rs:704-743 | reopening keeps the forest |
| AccountModel.SetOpenedOnKeepsForest | crates/bc-core/src/account.rs:768-822 | changing an opening date keeps the forest, opening dates never after closing dates |
| AccountModel.SubtreesFollow | crates/bc-core/src/account.rs:1409-1444 | no closed account has an open descendant, no archived one an active descendant, and every type is the root's |
| AccountOutcomes.CreateOutcome | crates/bc-core/src/account.rs:1383-1501 | exactly when creating succeeds or gives each error, over the row and the table, and that success adds that row and its event alone |
| AccountOutcomes.ArchiveOutcome | crates/bc-core/src/account.rs:457-558 | exactly when archiving succeeds or gives each error, and that success archives the whole subtree and nothing else |
| AccountOutcomes.CloseOutcome | crates/bc-core/src/account.rs:560-686 | exactly when closing succeeds or gives each error, and that success stamps every open account of the subtree and nothing else |
| AccountOutcomes.ReopenOutcome | crates/bc-core/src/account.rs:688-743 | reopening succeeds if and only if the account is closed and its parent open, and clears that one date |
| AccountOutcomes.SetOpenedOnOutcome | crates/bc-core/src/account.rs:745-822 | a date is refused if and only if it falls after the closing date, and an event is logged if and only if the table changes |
| AccountOutcomes.ReopenUndoesClose | crates/bc-core/src/account.rs:593-743 | reopening undoes a close that touched one account |
| AccountOutcomes.OpenedOnIsReversible | crates/bc-core/src/account.rs:752-754 | the event names the true previous date, which is always accepted back and restores the table |
| AccountLog.ClosedEventsTell | crates/bc-core/src/account.rs:661-681 | a cascade's events replay to the closed table, each a true change |
| AccountLog.CreateEachTells | crates/bc-core/src/account.rs:1207-1288 | rows inserted in turn log exactly themselves, each entry a true change; one refusal leaves table and log as they were |
| AccountLog.CloseTells | crates/bc-core/src/account.rs:593-686 | closing logs exactly its changes; a refused call changes nothing |
| AccountLog.ArchiveTells | crates/bc-core/src/account.rs:488-558 | archiving logs exactly its changes; a refused call changes nothing |
| AccountLog.TrueEntriesChange | crates/bc-core/src/account.rs:797-801 | every true entry changes what the log says, so an undo walk meets none that changes nothing |
| AccountLog.ReplayConcat | crates/bc-core/src/account.rs:803-811 | logs compose: replaying two in turn replays their concatenation, and truth carries over |
| AccountHistory.RunsStaySound | crates/bc-core/src/account.rs:360-1310 | through any run of create, archive, close, reopen, set-opened-on and create-paths calls the table stays a forest with acquisition and depreciation fields on manual assets only, and the log replays to it, every entry a true change |
| AccountHistory.BatchIsARunOfCreates | crates/bc-core/src/account.rs:1157-1310 | inserting a batch of rows has the table and the log of creating them one call at a time |
| AccountHistory.EmptyIsSound | crates/bc-core/src/account.rs:387-392 | a new store is a forest its log tells |
| Paths.AtGrows | crates/bc-core/src/account.rs:1199-1300 | a path keeps naming its account when others are added |
| Paths.OnePath | crates/bc-core/src/account.rs:1199-1300 | an account has one path |
| CreatePaths.FindIsChild | crates/bc-core/src/account.rs:1203-1206 | looking a segment up in the snapshot finds exactly the table's child of that name |
| CreatePaths.EnsureSegment | crates/bc-core/src/account.rs:1199-1299 | a segment is reused or created exactly when it is accepted, with the row asked for, the snapshot equal to the table again; otherwise the error says why |
| CreatePaths.EnsurePath | crates/bc-core/src/account.rs:1166-1304 | a path is materialised if and only if its type settles, its existing leaf agrees or its new leaf can be stored, and nothing new hangs under an archived or closed account; each new segment has the row asked for, and a refusal names the first fault |
| CreateBatch.CreatedIffNew | crates/bc-core/src/account.rs:1293-1294 | a path is created if and only if it names an account now and named none before |
| CreateBatch.MaterialisedIsSound | crates/bc-core/src/account.rs:1157-1310 | a materialised batch keeps the forest, and its log replays to the new table, each entry a true change |
| CreateBatch.CreateAll | crates/bc-core/src/account.rs:1157-1310 | each path's leaf, exactly the missing prefixes created, each with the row the first path through it asks for, only their accounts added; failure only at a path the table by then refuses, and nothing kept of it; nothing made when every path can be reused |
| AccountService.AccountService.Create | crates/bc-core/src/account.rs:423-455 | a new open, active account under a new id with its event, or the creation error and no change |
| AccountService.AccountService.Archive | crates/bc-core/src/account.rs:488-558 | the answer, table and events of the archive step over the listed descendants, the invariant kept |
| AccountService.AccountService.Close | crates/bc-core/src/account.rs:593-686 | the answer, table and events of the close step over the listed descendants, the invariant kept |
| AccountService.AccountService.Reopen | crates/bc-core/src/account.rs:704-743 | the answer, table and event of the reopen step, the invariant kept |
| AccountService.AccountService.SetOpenedOn | crates/bc-core/src/account.rs:768-822 | the answer, table and event of the opening-date step, the invariant kept |
| AccountService.AccountService.CreatePaths | crates/bc-core/src/account.rs:1157-1310 | a batch is materialised whole or not at all, the invariant kept; it fails only at a path refused by the table the paths before it leave |
| AccountService.AccountService.CreatePathsTwice | crates/bc-core/src/account.rs:1128-1133 | an identical batch straight after a successful one succeeds, finds the same leaves and makes nothing |
| Partition.ContainsIsMatchInclusion | crates/bc-core/src/budget_partition.rs:21-31 | containment is exactly inclusion of the sets of postings two scopes match |
| Partition.ContainsIsPartialOrder | crates/bc-core/src/budget_partition.rs:21-31 | containment is reflexive, antisymmetric and transitive |
| Partition.MoreSpecificIsStrictOrder | crates/bc-core/src/budget_partition.rs:33-36 | being more specific is a strict order |
| Partition.RootIffUncontained | crates/bc-core/src/budget_partition.rs:38-62 | a scope has no parent if and only if no listed scope strictly contains it |
| Partition.ClimbingStrictlyWidens | crates/bc-core/src/budget_partition.rs:38-62 | following parents strictly widens the scope, so the links are acyclic |
| Partition.ParentIsInnermost | crates/bc-core/src/budget_partition.rs:38-62 | nothing lies strictly between a scope and its parent, unless, on the deepest account with containers of the scope, none filters on a tag, the first has no filter and another has an empty chain; then something does |
| Partition.ParentIsInnermostForRealTags | crates/bc-core/src/budget_partition.rs:38-62 | with non-empty tag chains every parent is innermost |
| Partition.EmptyTagChainMisleadsTheChoice | crates/bc-core/src/budget_partition.rs:52-58 | a list on which the chosen parent is not innermost |
| Partition.OwnersAreTheMinimalMatches | crates/bc-core/src/budget_partition.rs:73-103 | a matched posting has an owner, the owners are the minimal matches and pairwise incomparable, and every match is an owner or strictly contains one |
| Partition.OwnerIgnoresOrderAndRepeats | crates/bc-core/src/budget_partition.rs:93-94 | the owner depends on which budgets matched, not on list order or repeats |
| Depreciation.RunTiles | crates/bc-core/src/asset.rs:470-563 | recorded periods tile the calendar from acquisition to the last date, amounts never negative and never past the cost |
| Depreciation.EachDayOnce | crates/bc-core/src/asset.rs:470-563 | every day from acquisition to the last date lies in exactly one recorded period |
| Depreciation.BookValueBounds | crates/bc-core/src/asset.rs:332-381 | the book value stays between zero and the cost if and only if the cost is not negative |
| Depreciation.StraightLineTotal | crates/bc-core/src/asset.rs:525-563 | however a run is split, straight-line depreciation totals the daily amount times the days, capped at the cost |
| Depreciation.StraightLineInFigures | crates/bc-core/src/asset.rs:525-563 | a straight-line run totals the cost times the annual rate times the days over 365.25, at least nothing and at most the cost |
| Depreciation.DecliningInFigures | crates/bc-core/src/asset.rs:525-563 | a declining-balance call leaves the book value less the annual rate's share over its days, nothing past a whole share, a debt as it was |
| Depreciation.StraightLineIgnoresTheSplit | crates/bc-core/src/asset.rs:525-563 | two straight-line runs to the same date depreciate the same |
| Depreciation.SplittingNeverLowers | crates/bc-core/src/asset.rs:525-563 | splitting a declining-balance period never leaves a lower book value |
| Depreciation.OneCallIsLowest | crates/bc-core/src/asset.rs:525-563 | one call to the last date never leaves a higher book value than the whole run |
| Depreciation.AssetService.BookValue | crates/bc-core/src/asset.rs:332-381 | cost less recorded depreciation, or why there is none |
| Depreciation.AssetService.RecordDepreciation | crates/bc-core/src/asset.rs:415-668 | records one more period of the run with its two postings, or refuses and changes nothing |

## Left out

- SQL, connection pools, row conversion, serialisation, timestamps, logging and foreign keys between tables: a table is a map, a transaction an atomic update; archive timestamps are flags.
- Decimal overflow and the 28-digit limit of decimal division: amounts are exact, so the overflow errors never arise; the 32-bit cap of the transaction count is kept, the one of the day count is not.
- The real calendars behind a period: a grid is any partition of the days into forward steps.
- Foreign-exchange rates: any partial conversion.
- How residual legs arise and how the leg stream is queried: `crates/bc-core/src/legs.rs` and `residual.rs` beyond the stream they promise, so nothing is claimed about all commodities summing to zero.
- Which postings a tag subtree or a search query admits: a posting carries the tags whose subtrees hold it, a query is the set of posting keys it admits.
- `status_for`'s choice of window, `status_all`, `subtree_postings` and the listing calls around them: thin wrappers.
- Sign-flip warnings, names, intents and the stored text of target expressions in `BudgetService`; an expression is only what evaluating it gives.
- Sorting and joining the `created` list of a batch: paths stay segment lists, in creation order, proved distinct; rendering joins segments that cannot hold the separator.
- Two calls running at once: each call is one atomic step, so the race the source leaves to a unique index does not arise.
- `record_valuation`, `latest_valuation` and the counterpart transactions: one delta posting.
- `net_worth`: ordering and display over the totals proved here.
- `set_commodities` and the account queries that only read.
- Loans, imports, exports, reports, backups, locking, settings, commodities, the command line and the user interfaces.

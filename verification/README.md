# A model of the AlphaMintX control plane

Dafny models of the parts of the trading control plane that keep money, kills and
deliveries right, with proofs about every input, every run or every reachable state.
The SQLite store has one connection, so each store method is one atomic step. Where the
source updates state, a class does the same on its fields and is proved against a
function on the state; the laws are about that function.

- `PaperGate`, `PaperGateExact`, `PaperGateSpans`, `PaperGateFigures`: the paper-gate book
  walk. Signed average-cost books, closed trades, equity, drawdown, and the plain cash
  ledger they must agree with.
- `SafetyTables`, `SafetyRuns`, `SafetyLifecycle`, `SafetyDriver`, `SafetyAnswers`: kills,
  clears, served markers and lifecycle rows. One epoch counter, three scopes, watermarks in
  place of history, and what each operation answers over a history.
- `PaperWindow` (with `TimeOrder`): the start of the paper window by one scan over the
  audit log, against the recursive definition.
- `BridgeTables`, `BridgeOrders`, `BridgeEquity`, `BridgeRuns`, `BridgeCommits`,
  `BridgeHistory`: the diff-based mirror of the in-memory OMS into the tables, with rollback
  and restart.
- `Billing`, `BillingStore`, `BillingRuns`, `BillingWindows`, `BillingAnswers`, `Reconcile`,
  `ReconcileWritten`: period closes over row-id windows, invoices, and their reconciliation
  against the gateway's records.
- `Notifier`, `NotifierRuns`: alert dispatch with a persisted watermark.
- `LiveOms`, `LiveOmsRuns`, `LiveOmsDeliveries`, `LiveOmsConvergence`, `LiveOmsAnswers`: the
  order status machine, venue fills, VWAP and claims, and when redelivered fills converge.
- `Betalog`, `BetalogWritten`: the hash-chained log and its verifier.
- `RiskGate`, `RiskGateLaws`, `RiskGateWritten`: the gate as a pure function, its relational
  laws, and its conditions over the state's own fields.
- `Watchdog`, `WatchdogRuns`, `WatchdogKills`: heartbeats, the watch set and the kill on silence.
- `Backtest`, `BacktestReplay`, `BacktestWritten`: the candle grid, the last-mark cache and
  the replay loop.
- `TokenBuckets`, `TokenBucketRuns`, `ThrottleRuns`, `TokenBucketLaws`: the rate limiter and
  the login throttle.
- `StampWriter`: the header stamp of a backup artifact.
- `Wrappers`, `Decimals`, `MapSums`, `Sorting`: shared types, rounding, sums over maps,
  listings in a total order.

Money is `real`; division is exact except where the code rounds to 8 decimals, and that
rounding is modelled. Timestamps are integers: the stored strings have fixed width, so
by section 5.1 of RFC 3339 their order is the order of time. Row ids are positions.
The paper OMS and the live OMS are arbitrary steps. Of the paper OMS the bridge assumes
three rules: it never drops an order or a book, an order keeps its terms, and a filled or
canceled order is final.

Some properties do not hold on every input the types allow. Each of these is stated with
its exact condition, both ways, and with an input on which it fails:

- The book identity holds at every price exactly when no clamped fill quantity is
  negative. The paper OMS refuses sizes that are not positive
  (control-plane/internal/oms/paper/orders.go:53); a venue trade is stored with the
  quantity it came with, without a sign check (control-plane/internal/oms/live/fills.go:232-236).
- The same missing check decides when redelivered venue fills converge, and when VWAP
  stays between the rounded fill prices.
- Looser limits reject no more exactly when the staleness bound in force does not fall
  (zero or less means 60 s) and a negative cap is not raised to zero.
- The loss bounds of a clipped open hold exactly when stop distance plus fee rate times
  entry price is not negative. It is not negative for every fee rate from zero up; the
  repository itself never sets a fee rate, so only a large rebate set by a new caller
  could break them.
- An accepted log append keeps the chain verifying exactly when its cleaned
  acknowledgement key is not taken, although the comment says a duplicate is never appended.
- The returned wait is truncated, so it is enough exactly when it was whole.
- A restart gives an order's terms back exactly when no price was negative.

The laws of billing over whole runs are for cost rows of known strategies, which the one
writer and the schema ensure: an envelope's strategy must be the owner of its run
(control-plane/internal/api/traces.go:43-48), and a run references its strategy. What
holds without that is stated too, in `BillingWindows`.

`dafny verify dfyconfig.toml` checks the whole project.

## Model

| member | source | states |
|---|---|---|
| PaperGate.BookFill | control-plane/internal/papergate/replay.go:55-101 | one fill on one book (clamp, average, reduce, close, flip) ends in the book, profit and closed span of the fold that the laws below are about |
| PaperGate.Walk | control-plane/internal/papergate/replay.go:41-116 | trades, final equity and drawdown of the whole loop: the fold over the fills, and the largest percentage drop over its equity curve (zero for a seed that is not positive) |
| PaperGate.EquityIsCashPlusBasis | control-plane/internal/papergate/replay.go:26-116 | for every list of fills whose clamped quantities are not negative, equity less seed equals the plain cash ledger plus the signed cost basis of the open books, within 0.000000005 per reducing fill |
| PaperGateExact.IdentityHoldsExactly | control-plane/internal/papergate/replay.go:41-116 | that identity holds after every prefix of a list for all fill prices exactly when no clamped quantity is negative |
| PaperGateExact.BalancesExactly | control-plane/internal/papergate/replay.go:55-101 | one fill balances at every price exactly when its clamped quantity is not negative |
| PaperGate.NegativeSizeBreaksTheIdentity | control-plane/internal/papergate/replay.go:56-76 | one opening fill of negative size on which it fails |
| PaperGate.EquityIsTradesPlusOpenSpans | control-plane/internal/papergate/replay.go:41-116 | after every fill list equity is exactly seed plus closed-trade profit plus open-span profit, rounding included |
| PaperGate.ReduceOnlyOnlyCloses | control-plane/internal/papergate/replay.go:56-67 | a reduce-only fill leaves a book of the same side and at most its size, or flat, exactly when its clamped quantity is not negative |
| PaperGate.BooksMatchLedger | control-plane/internal/papergate/replay.go:41-116 | each book holds exactly the net effective quantity of its symbol, and a flat book has no average |
| PaperGate.FillBalance | control-plane/internal/papergate/replay.go:68-101 | one fill whose clamped quantity is not negative: the change of cost basis, the cash paid and the booked profit balance, up to the rounding of a reducing fill |
| PaperGate.Observe | control-plane/internal/papergate/replay.go:102-110 | the running peak and drawdown follow the curve point by point |
| PaperGate.MaxDrawdownIsUnique | control-plane/internal/papergate/replay.go:102-110 | the curve alone determines its drawdown figure, so the one-pass figure is the largest drop from any running maximum |
| PaperGate.ReplayCurve | control-plane/internal/papergate/curve.go:38-77 | the arena curve has the equity of every point and the trades and drawdown of the gate, with its counts and ratios over those trades |
| PaperGate.TallyTrades | control-plane/internal/papergate/curve.go:57-67 | wins, losses, gross profit and gross loss over the closed trades |
| PaperGateSpans.ClosesAtTheCrossing | control-plane/internal/papergate/replay.go:78-101 | a fill closes a trade exactly when it takes a holding to zero or over it |
| PaperGateSpans.FillAccumulates | control-plane/internal/papergate/replay.go:78-101 | what one fill adds to the profit and closing notional of its span, and what is left after a close |
| PaperGateSpans.TradesAreCrossings | control-plane/internal/papergate/replay.go:41-116 | over every list of fills one trade closes at each zero crossing of a holding of the ledger, in order and nowhere else; its closing notional is that of its own span's reducing fills, its profit the cash of that span within their rounding |
| PaperGateSpans.CrossingsAreAll | control-plane/internal/papergate/replay.go:88-101 | the crossings are all fills that take a holding to zero or over it, in order |
| PaperGateFigures.DrawdownIsTheLargestFall | control-plane/internal/papergate/replay.go:102-110 | every fall from a running peak is within the drawdown figure, in percent of that peak, and one falls by all of it |
| PaperGateFigures.GrossIsOfItsTrades | control-plane/internal/papergate/curve.go:57-67 | gross profit is the sum of the trades with a profit, gross loss that of the others |
| PaperGateFigures.CountsAreOfTheirTrades | control-plane/internal/papergate/curve.go:57-67 | wins and losses are the numbers of trades with a profit and with a loss |
| PaperGateFigures.FeesAreTheirCash | control-plane/internal/papergate/replay.go:68-76 | without its fees a list leaves the same holdings and exactly the fees more cash |
| Decimals.Round8Monotone | control-plane/internal/papergate/replay.go:23-26 | the one rounding rule preserves order |
| Decimals.Round8FixesGrid | control-plane/internal/papergate/replay.go:23-26 | values of at most 8 decimals are not moved by rounding |
| Decimals.Round8OnGrid | control-plane/internal/papergate/replay.go:23-26 | a rounded value has at most 8 decimals |
| Decimals.TiesGoAway | control-plane/internal/papergate/replay.go:23-26 | ties round away from zero, on both sides |
| SafetyTables.SafetyStore.CreateStrategyProvisioned | control-plane/internal/store/provision.go:42-105 | initial state, cap, name and limit checks in their order with their refusals; otherwise a new strategy in draft, or in paper with a bootstrap audit row |
| SafetyTables.SafetyStore.AppendStrategyKill | control-plane/internal/store/safety.go:23-49 | a strategy kill takes the next global epoch |
| SafetyTables.SafetyStore.AppendTenantKill | control-plane/internal/store/append.go:134-152 | a tenant kill takes the next global epoch |
| SafetyTables.SafetyStore.AppendPlatformKill | control-plane/internal/store/safety.go:55-73 | a platform kill takes the next global epoch |
| SafetyTables.SafetyStore.AppendBreakerEvent | control-plane/internal/store/append.go:119-125 | a breaker row has no epoch |
| SafetyTables.SafetyStore.AppendSafetyEffectDone | control-plane/internal/store/safety.go:79-83 | a served marker is appended once |
| SafetyTables.SafetyStore.AppendKillClear | control-plane/internal/store/killclear.go:85-151 | the compare-and-swap clear: not found, no active kill, epoch conflict, or one clear row with its supersessions |
| SafetyTables.SafetyStore.SupersedeUnserved | control-plane/internal/store/killclear.go:160-203 | one marker and one alert for each covered kill without a marker, in row order |
| SafetyTables.SafetyStore.SafetyStatus | control-plane/internal/store/operatorsurface.go:73-146 | state, active-kill flag, breaker of the day, pause provenance and the joined kill view of one strategy; none for an unknown one |
| SafetyTables.SafetyStore.AppendLifecycleTransitionCAS | control-plane/internal/store/append.go:47-84 | the compare-and-swap transition, with the kill re-check for a target its caller calls live |
| SafetyTables.SafetyStore.AppendKillLifecycleLock | control-plane/internal/store/safety.go:112-141 | the kill lock moves a live strategy to killed and leaves any other alone |
| SafetyRuns.ActiveKillIsLastWord | control-plane/internal/store/killclear.go:35-58 | in every run the epoch predicate holds exactly when, in some scope binding the strategy, the last kill or clear is a kill |
| SafetyRuns.WatermarkHolds | control-plane/internal/store/killclear.go:85-151 | in every run, per scope, the clear watermark never passes the highest kill epoch and lies below it exactly while the last event is a kill |
| SafetyRuns.OperatorSeesTheKill | control-plane/internal/store/operatorsurface.go:49-65 | in every run the predicate equals "some row of the kill view has no covering clear" |
| SafetyRuns.ViewShows | control-plane/internal/store/operatorsurface.go:49-65 | the view holds each bound kill with its newest covering clear, and nothing else |
| SafetyRuns.KillViewIsNewestFirst | control-plane/internal/store/operatorsurface.go:49-65 | the view lists bound kills by falling epoch |
| SafetyRuns.EpochsRiseInRuns | control-plane/internal/store/safety.go:37-48 | kill epochs rise with the rows over all three scopes |
| SafetyLifecycle.ClearSupersedesExactly | control-plane/internal/store/killclear.go:85-203 | a clear ends its scope's kill and supersedes exactly the scope's unserved kills, one marker and one alert each |
| SafetyLifecycle.AuditIsAPath | control-plane/internal/store/append.go:47-84 | in every run a strategy's audit rows form a path from draft to its stored state |
| SafetyLifecycle.UnservedKillsStand | control-plane/internal/store/killclear.go:153-203 | in every run a kill without a served marker is still active at its own scope |
| SafetyLifecycle.LiveStrategiesOnlyHaveNewerKills | control-plane/internal/store/append.go:64-83 | in every run a kill standing on a live strategy was appended after the strategy's latest transition |
| SafetyDriver.ListIsExact | control-plane/internal/store/safety.go:143-183 | the driver reads exactly the unmarked rows, platform before tenants before strategies, in row order within each |
| SafetyDriver.DrivenKillsStand | control-plane/internal/store/safety.go:143-183 | in every run each kill handed to the driver is still active at its own scope |
| SafetyDriver.WiderScopesComeFirst | control-plane/internal/store/safety.go:143-183 | no strategy row is listed before a tenant's or the platform's, and no tenant row before the platform's |
| SafetyAnswers.EpochsCountKills | control-plane/internal/store/safety.go:37-48 | in every run the n-th kill over all scopes has epoch n, and a scope's highest epoch is the number of its last kill |
| SafetyAnswers.ClearAnswersExactly | control-plane/internal/store/killclear.go:85-151 | in every run each answer of a clear has its exact condition over the history: unknown strategy, no standing kill in the scope, another epoch than the last kill's number, a used id, or committed |
| SafetyAnswers.FreshClearCommits | control-plane/internal/store/killclear.go:85-151 | whenever a scope's last word is a kill, a clear that saw its number commits under a fresh id, and ends the kill of that scope alone |
| SafetyAnswers.ClearAppendsItsRow | control-plane/internal/store/killclear.go:91-150 | the row of a committed clear, column by column; a refused one changes nothing |
| SafetyAnswers.ClearAlertsItsKills | control-plane/internal/store/killclear.go:160-203 | one marker and one alert for each superseded kill, in row order, and no other change |
| SafetyAnswers.KillAnswersExactly | control-plane/internal/store/safety.go:23-73 | in every run a kill of a known scope under a fresh id commits as one row of its scope with the next number; an unknown strategy or a used id changes nothing |
| SafetyAnswers.BreakerAndMarkerAnswers | control-plane/internal/store/append.go:119-125 | the breaker row, and the marker that needs its event and is kept once |
| SafetyAnswers.TransitAnswersExactly | control-plane/internal/store/append.go:47-84 | in every run a transition is refused for an unknown strategy, another state than expected, or a live target exactly while a kill stands in a scope of the strategy |
| SafetyAnswers.LockAnswersExactly | control-plane/internal/store/safety.go:112-141 | the lock takes each of the three live states to killed with one audit row and leaves every other state |
| SafetyAnswers.ProvisionAnswersExactly | control-plane/internal/store/provision.go:42-105 | the refusals of provisioning in their order, each with its condition over the tables, and what a success adds |
| SafetyAnswers.TrimKeepsTheMiddle | control-plane/internal/store/provision.go:42-105 | a name is compared without the white space around it, and only that |
| SafetyAnswers.BreakerIsOfTheDay | control-plane/internal/store/operatorsurface.go:151-175 | the breaker shown is the newest breaker row of the strategy on the UTC day asked for |
| PaperWindow.PaperWindowStart | control-plane/internal/store/lifecycle.go:48-100 | the one-pass scan computes the recursive notion of a qualifying row, and fails closed exactly when none qualifies or a binding kill has none since |
| PaperWindow.WindowStartIsUnique | control-plane/internal/store/lifecycle.go:36-47 | the recursive definition leaves one answer |
| PaperWindow.StartIsNotBeforeAKill | control-plane/internal/store/lifecycle.go:36-47 | an open window never starts before a binding kill, cleared or not |
| PaperWindow.RoundTripsKeepTheWindow | control-plane/internal/store/lifecycle.go:48-100 | any number of paper-to-paused, paused-to-paper round trips without a new kill leave the window start alone |
| PaperWindow.ReentryReopensTheWindow | control-plane/internal/store/lifecycle.go:40-44 | after a kill with no qualifying row since, the first resume into paper opens the window at its own time |
| PaperWindow.NewKillClosesTheWindow | control-plane/internal/store/lifecycle.go:43-47 | a kill newer than every row closes the window |
| PaperWindow.ReplayedFillsFollowEveryKill | control-plane/internal/store/lifecycle.go:115-138 | no fill handed to the gate is older than a binding kill |
| PaperWindow.PausedProvenance | control-plane/internal/store/lifecycle.go:22-34 | the from state of the newest paused row, the later row winning a tie |
| PaperWindow.ProvenanceExactly | control-plane/internal/store/lifecycle.go:22-34 | none without a paused row; otherwise the from state of a row that no other paused row of the strategy follows in time or, at one time, in row order |
| PaperWindow.ProvenanceIsTheLastRow | control-plane/internal/store/lifecycle.go:11-17 | in every run whose clock does not step back, a paused strategy's provenance is the from state of its last audit row |
| PaperWindow.KillsBindExactly | control-plane/internal/store/lifecycle.go:48-100 | a kill binds a strategy when it is its own, its tenant's or the platform's |
| PaperWindow.ScansItsRows | control-plane/internal/store/lifecycle.go:55-70 | the scan reads each transition of the strategy into paper or paused exactly as often as it is stored, by time |
| PaperWindow.EntryOpensTheWindow | control-plane/internal/store/lifecycle.go:36-47 | an entry into paper from any state but paused opens the window at its time |
| PaperWindow.UnlockOpensTheWindow | control-plane/internal/store/lifecycle.go:36-47 | so does a resume from a pause that was entered from killed |
| PaperWindow.ReplaysItsFills | control-plane/internal/store/lifecycle.go:115-138 | the gate replays each fill of the strategy since the start exactly as often as it is stored, by time |
| TimeOrder.ComesOutOrdered | control-plane/internal/store/lifecycle.go:59-62 | ORDER BY recorded_at returns ordered rows |
| TimeOrder.SameRows | control-plane/internal/store/lifecycle.go:59-62 | and the same rows |
| TimeOrder.TiesKeepRowOrder | control-plane/internal/store/lifecycle.go:3-7 | and breaks ties by rowid |
| TimeOrder.FilterCounts | control-plane/internal/store/lifecycle.go:55-62 | a WHERE clause keeps exactly the rows it names |
| BridgeTables.NewBridge | control-plane/internal/omsbridge/bridge.go:65-93 | no bridge without a positive allocated capital; otherwise one that holds the books, open orders and kill epochs of its tables |
| BridgeTables.Bridge.constructor | control-plane/internal/omsbridge/bridge.go:76-92 | a new bridge holds the books and open orders of its tables, in the OMS and in the mirrors, and the binding kill epochs |
| BridgeTables.Bridge.HydrateEpochs | control-plane/internal/omsbridge/bridge.go:95-122 | each strategy gets its own highest binding epoch, zero without one |
| BridgeTables.Bridge.HydratePositions | control-plane/internal/omsbridge/bridge.go:124-136 | books restored from positions, row by row in any order |
| BridgeTables.Bridge.HydrateOrders | control-plane/internal/omsbridge/bridge.go:137-155 | open orders re-armed under their proposals |
| BridgeTables.Bridge.SettleOrders | control-plane/internal/omsbridge/submit.go:146-173 | the diff of known orders, failing when a row is missing |
| BridgeTables.Bridge.CreateOrders | control-plane/internal/omsbridge/submit.go:174-193 | new orders inserted under the submission's or an entry's proposal, failing without one or on a taken id |
| BridgeTables.Bridge.PersistBooks | control-plane/internal/omsbridge/persist.go:20-43 | changed books upserted, realized deltas summed per strategy |
| BridgeTables.Bridge.WriteStates | control-plane/internal/omsbridge/persist.go:44-88 | one snapshot write for each touched strategy |
| BridgeTables.Bridge.PersistLocked | control-plane/internal/omsbridge/submit.go:134-209 | one transaction; tables and mirrors both move or both stay |
| BridgeTables.Bridge.SubmitApproved | control-plane/internal/omsbridge/submit.go:47-95 | a submission persists whatever the OMS did under its proposal |
| BridgeTables.Bridge.Sweep | control-plane/internal/omsbridge/submit.go:103-124 | a sweep or cancellation persists whatever the OMS did, without a proposal of its own |
| BridgeRuns.CommitIsFaithful | control-plane/internal/omsbridge/submit.go:134-209 | after any run of OMS actions, rollbacks and restarts, a commit leaves stored positions equal to the OMS books, each order booked with exactly one fill row if filled and none otherwise, and per strategy the equity identity, peak and daily figure |
| BridgeRuns.RunsKeepInv | control-plane/internal/omsbridge/bridge.go:52-62 | the mirror and table invariant of every run, rolled-back persists and restarts included |
| BridgeRuns.EquityCommitKeeps | control-plane/internal/omsbridge/persist.go:20-88 | stored equity stays allocated capital plus the sum of stored realized PnL; without a row that sum is zero |
| BridgeEquity.AdvanceIsExplained | control-plane/internal/omsbridge/persist.go:54-88 | the snapshot is a function of its own history of timed writes: equity the running sum, peak the largest of seed and all equities written, daily the deltas back to the last write whose time lies on another UTC day |
| BridgeEquity.BookAllReaches | control-plane/internal/omsbridge/persist.go:20-43 | a full book pass brings positions to the OMS books, with deltas equal to the change of each strategy's realized sum |
| BridgeHistory.DailyFigureIsTheDaysProfit | control-plane/internal/runstate/runstate.go:163-180 | in every run whose days do not step back, the daily figure as it is read on a day is what the strategy realized in the transactions of that UTC day, from the steps and their times alone |
| BridgeHistory.CommitStamps | control-plane/internal/omsbridge/submit.go:146-194 | what a commit stamps on each order and fill: quantity, price, fee and the commit's own time, exactly on the orders that filled since they were mirrored |
| BridgeHistory.FillsAreAppendedInOrder | control-plane/internal/omsbridge/submit.go:146-194 | a commit appends the fills of mirrored orders and then those of new ones, each in order of id |
| BridgeHistory.WritesExactly | control-plane/internal/omsbridge/persist.go:44-56 | a commit writes one snapshot for a strategy exactly when one of its orders filled or one of its books realized something, at the commit's time |
| BridgeHistory.StoredDayIsACommits | control-plane/internal/omsbridge/persist.go:66-77 | a stored day is the UTC day of some transaction |
| BridgeCommits.CommitsWhenBacked | control-plane/internal/omsbridge/submit.go:174-184 | a transaction commits exactly when every new order has a free id and a proposal, its own or that of an entry of its book filled in the same diff |
| BridgeCommits.NewOrderHasItsOrigin | control-plane/internal/omsbridge/submit.go:146-194 | each new order is stored under the submission's proposal, or under that of an entry of its strategy and symbol filled in the same diff |
| BridgeCommits.RestartIsLossless | control-plane/internal/omsbridge/bridge.go:124-206 | a restart after a commit restores the same books, the same open orders and their proposals; the terms come back exactly when no price was negative |
| BridgeCommits.TermsRoundTrip | control-plane/internal/omsbridge/persist.go:104-128 | an order row gives the order's terms back exactly when no price was negative |
| BridgeCommits.ReopenedOrderBooksTwice | control-plane/internal/omsbridge/submit.go:152-173 | the writer has no guard of its own: a filled order that the OMS reopened and filled again gets two fill rows |
| Billing.BuildInvoice | control-plane/internal/store/billing.go:303-370 | sums per line key, lines in order, total along the lines |
| Billing.InvoiceTotalIsExact | control-plane/internal/store/billing.go:295-302 | an invoice total is exactly the sum of its rows' costs |
| Billing.LineSumsItsGroup | control-plane/internal/store/billing.go:303-333 | a line exists exactly when some row belongs on it, and holds exactly the sums of those rows |
| Billing.InvoiceIgnoresOrder | control-plane/internal/store/billing.go:295-302 | an invoice depends only on the multiset of its rows |
| BillingAnswers.InvoiceIsExact | control-plane/internal/store/billing.go:303-370 | the lines stated over the rows alone: usage of the period itself, or carry-over under its own month; each line sums the rows that count on it, in dictionary order, usage first |
| BillingAnswers.LexIsDictionary | control-plane/internal/store/billing.go:334-350 | texts are ordered by the first character in which they differ |
| BillingAnswers.ValidIsAMonth | control-plane/internal/store/billing.go:85-100 | a period is four digits, a dash and the two digits of a month |
| BillingStore.Store.Close | control-plane/internal/store/billing.go:228-293 | invalid period, unknown tenant, already closed, or one period row and one invoice over the window above the tenant's last watermark |
| BillingAnswers.CloseAnswersExactly | control-plane/internal/store/billing.go:228-293 | in every run the three refusals have their exact condition over the steps and tables, and otherwise one period at the last row and its invoice are added |
| BillingRuns.InvoicesMatchTheirWindows | control-plane/internal/store/billing.go:182-293 | in every interleaving of cost rows and closes each stored invoice is the invoice of its own window read back from the tables, one per tenant and period |
| BillingRuns.EachRowIsBilledOnce | control-plane/internal/store/billing.go:178-206 | in every run a tenant's row is billed by exactly one close if it is at or below the tenant's last watermark, and by none above it |
| BillingRuns.WindowsAreConsecutive | control-plane/internal/store/billing.go:247-263 | a tenant's windows follow each other without gap or overlap, in close order |
| BillingRuns.InvoicesAddUp | control-plane/internal/store/billing.go:221-293 | a tenant's invoices add up to the cost of all its rows up to its last watermark |
| BillingWindows.WindowReadsBackExactly | control-plane/internal/store/billing.go:182-206 | in every run at all, a close keeps the invoice of the rows it saw, and its window reads the same rows back exactly when no row in its range had its strategy added to that tenant after the close |
| BillingWindows.EveryPeriodHasItsClose | control-plane/internal/store/billing.go:228-293 | every stored period comes from one billed close |
| BillingRuns.LateStrategyIsNotBilled | control-plane/internal/store/billing.go:182-191 | the join is on the strategies of the time of reading: a row inserted before its strategy would be in no invoice |
| Reconcile.ClassifyRow | control-plane/internal/store/reconcile.go:194-281 | the normative precedence for one row and the discrepancies it raises |
| Reconcile.ClassifyClientSet | control-plane/internal/store/reconcile.go:184-283 | four sums, matched ids, flags and aggregates, each stated over the rows; discrepancies in row order |
| Reconcile.AggregateOk | control-plane/internal/store/reconcile.go:159-166 | true exactly when every pair balances |
| Reconcile.GatewayOrphans | control-plane/internal/store/reconcile.go:289-319 | the tenant's gateway records of the period that no row matched, in row order |
| Reconcile.Run | control-plane/internal/store/reconcile.go:67-143 | the error cases, and otherwise the report over the rows of the close's own window against its stored invoice |
| Reconcile.ClosedHasItsInvoice | control-plane/internal/store/reconcile.go:95-105 | in every run a closed period has its invoice, so that error does not occur |
| Reconcile.InvoiceIsWithItsPeriod | control-plane/internal/store/reconcile.go:87-105 | the invoice found for a tenant and period is the one of the period row found |
| Reconcile.ClassesPartition | control-plane/internal/store/reconcile.go:181-183 | the four classes partition every set of rows |
| Reconcile.PassesWhenNothingDisagrees | control-plane/internal/store/reconcile.go:60-66 | over its own rows a run passes exactly when no row's gateway record disagrees on strategy or tokens; the identity and aggregate checks never decide |
| Reconcile.ReconcilesItsClose | control-plane/internal/store/reconcile.go:87-123 | in every run the window read back is the close's, the four sums reproduce the invoice total, and the pass flag says exactly that nothing disagrees |
| ReconcileWritten.ClassExactly | control-plane/internal/store/reconcile.go:194-243 | the class of a row over the gateway's records: unattributed, estimated, matched by its own strategy's record, or orphan |
| ReconcileWritten.AllFoundExactly | control-plane/internal/store/reconcile.go:194-283 | a run lists a discrepancy exactly when some row calls for it, under that row's call and strategy |
| ReconcileWritten.OrphansExactly | control-plane/internal/store/reconcile.go:289-319 | a gateway orphan is listed exactly for each record of the tenant's month that no row of the close answers for |
| ReconcileWritten.SumsAreOfTheirRows | control-plane/internal/store/reconcile.go:184-283 | each class sum is the cost of exactly the rows of the class |
| ReconcileWritten.PassesExactly | control-plane/internal/store/reconcile.go:107-143 | in every run a report passes exactly when no gateway record contradicts a row of the close |
| Notifier.Engine.Seed | control-plane/internal/notifier/notifier.go:171-207 | a missing watermark starts at the last row, one above it is clamped, any other stays |
| Notifier.Engine.TryRow | control-plane/internal/notifier/notifier.go:281-325 | one attempt: the watermark, the refusal count and whether the pass goes on |
| Notifier.Engine.DispatchSource | control-plane/internal/notifier/notifier.go:250-327 | one source's slice of a pass over a materialized batch; the other sources are untouched |
| NotifierRuns.NoRowIsLost | control-plane/internal/notifier/notifier.go:171-327 | in every run each row between seed and watermark was acknowledged at least once or refused at least twelve times without a transient failure between |
| NotifierRuns.AttemptsNeverGoBack | control-plane/internal/notifier/notifier.go:250-327 | in every run each attempt is for the row just above the watermark of its time, and row ids never fall from attempt to attempt |
| NotifierRuns.WatermarkOnlyRises | control-plane/internal/notifier/notifier.go:183-194 | the watermark only rises over passes and restarts; in such runs the clamp never acts |
| NotifierRuns.PoisonRowIsPassed | control-plane/internal/notifier/notifier.go:302-319 | a row that is always refused is passed at the twelfth refusal and not before |
| NotifierRuns.SeedsAtFirstStart | control-plane/internal/store/alertdispatch.go:115-131 | in every run the seed is the number of rows the source had at its first start |
| NotifierRuns.OnlyNewRowsAndAllOfThem | control-plane/internal/notifier/notifier.go:171-327 | in every run no row that existed at the first start is attempted, and every row inserted since, up to the watermark, was acknowledged or refused twelve times |
| NotifierRuns.AttemptMovesExactly | control-plane/internal/notifier/notifier.go:281-325 | what one attempt does to watermark and refusal count, for each answer of the sink |
| NotifierRuns.CleanPassDelivers | control-plane/internal/notifier/notifier.go:250-300 | a pass whose sink takes everything moves the watermark to the last row or by the whole batch |
| LiveOms.LiveStore.RecordOrderStatus | control-plane/internal/store/liveoms.go:284-317 | unknown status, unknown order, no-op at equal or lower rank, or the new status |
| LiveOms.LiveStore.RecordVenueFill | control-plane/internal/store/liveoms.go:563-610 | replay, error or one booked fill with the order's new status, VWAP and fill time |
| LiveOms.LiveStore.FillVwap | control-plane/internal/store/liveoms.go:614-644 | the rounded notional over quantity of the order's fills, none over a non-positive quantity |
| LiveOms.LiveStore.RecordIntentClaim | control-plane/internal/store/liveoms.go:202-225 | a claim wins exactly on an unclaimed, unrevoked attempt |
| LiveOms.LiveStore.RecordIntentClaimRevoked | control-plane/internal/store/liveoms.go:231-237 | a revocation is recorded once |
| LiveOmsConvergence.ConvergesExactly | control-plane/internal/store/liveoms.go:551-644 | for trades of any quantities, every two deliveries of the same trades, in any order and with any repeats, leave an order the same fills, status and rounded VWAP exactly when the stored quantity carries all bookable trades without a positive quantity at once |
| LiveOmsConvergence.ReplaysConverge | control-plane/internal/store/liveoms.go:551-610 | the convergence itself, order by order |
| LiveOmsConvergence.UnsteadyDiverges | control-plane/internal/store/liveoms.go:640-643 | otherwise two explicit deliveries of the same trades book different fills |
| LiveOmsConvergence.SteadyForSizes | control-plane/internal/store/liveoms.go:640-643 | for sizes the condition reads: no empty trade, or a stored positive quantity, or only empty trades |
| LiveOmsDeliveries.RunKeepsSound | control-plane/internal/store/liveoms.go:563-644 | every delivery leaves trade keys distinct and each order with fills a positive quantity |
| LiveOmsDeliveries.RunKeepsExactly | control-plane/internal/store/liveoms.go:563-644 | under that condition a run books exactly those of its trades that some order of delivery books |
| LiveOmsConvergence.OrdersFollowTrades | control-plane/internal/store/liveoms.go:563-610 | an order's status and price as its set of new trades determines them |
| LiveOmsConvergence.EmptyTradeDependsOnOrder | control-plane/internal/store/liveoms.go:640-643 | on an order without fills an empty trade is booked after a trade with quantity, and refused before it |
| LiveOmsRuns.StatusOnlyRises | control-plane/internal/store/liveoms.go:273-317 | in every run status rank never falls and a terminal status never changes |
| LiveOmsRuns.VwapIsBetweenPrices | control-plane/internal/store/liveoms.go:614-644 | with quantities not negative the rounded VWAP lies between the least and the greatest fill price, rounded |
| LiveOmsRuns.VwapIsBetweenGridPrices | control-plane/internal/store/liveoms.go:614-644 | and between the prices themselves when they have at most 8 decimals |
| LiveOmsRuns.VwapBoundsHoldExactly | control-plane/internal/store/liveoms.go:614-644 | for a positive total quantity it lies there for all prices exactly when no quantity is negative |
| LiveOmsRuns.VwapLeavesPricesOffGrid | control-plane/internal/store/liveoms.go:643-643 | a price of more decimals can itself be rounded away |
| LiveOmsRuns.ClaimIsWonOnce | control-plane/internal/store/liveoms.go:198-225 | in every run each attempt is won at most once |
| LiveOmsRuns.RevokedIsNeverWon | control-plane/internal/store/liveoms.go:227-237 | a revoked attempt stays revoked and is never won |
| LiveOmsAnswers.AdvancesExactly | control-plane/internal/store/liveoms.go:273-317 | which status may replace which: later ones only, none after a terminal one |
| LiveOmsAnswers.StatusAnswersExactly | control-plane/internal/store/liveoms.go:284-317 | both refusals of a status write, or the later status with price and fill time left alone |
| LiveOmsAnswers.FillAnswersExactly | control-plane/internal/store/liveoms.go:563-644 | the five answers of a venue fill in their order, and the order a booked one leaves: its status, the rounded notional over quantity of its fills, the fill's time |
| LiveOmsAnswers.ClaimAnswersExactly | control-plane/internal/store/liveoms.go:198-225 | after every run a claim wins exactly when the attempt was stored free and no operation has been on it |
| LiveOmsAnswers.RevokeAnswersExactly | control-plane/internal/store/liveoms.go:227-237 | a revocation keeps its first time, and the claim |
| Betalog.VerifyChain | control-plane/cmd/betalog/main.go:223-263 | the verifier accepts exactly the logs whose every line parses, is numbered in sequence, chains to the line before and repeats no acknowledgement, and counts their lines |
| Betalog.Log.Append | control-plane/cmd/betalog/main.go:121-177 | the three refusals leave the file alone; otherwise one line is added and its hash returned |
| Betalog.AppendVerifiesIff | control-plane/cmd/betalog/main.go:121-177 | appending to a verifying log keeps the old bytes as a prefix and adds one line; the result verifies exactly when the line is no acknowledgement or its cleaned key is not taken |
| Betalog.CleanAppendVerifies | control-plane/cmd/betalog/main.go:147-165 | for valid, NUL-free references every accepted append keeps the log verifying |
| Betalog.UncleanAckBreaksTheLog | control-plane/cmd/betalog/main.go:147-165 | an acknowledgement whose reference is not valid UTF-8 is accepted twice, and then the log no longer verifies |
| Betalog.VerifyingLogAccepts | control-plane/cmd/betalog/main.go:135-165 | a verifying log is only ever refused for a repeated acknowledgement |
| Betalog.LineFixesThePast | control-plane/cmd/betalog/main.go:219-263 | without a hash collision between them, two verifying logs that agree on a line agree on every earlier line |
| BetalogWritten.LinesAreTheBytes | control-plane/cmd/betalog/main.go:223-240 | the lines of a terminated log are its bytes between newlines, none lost and none invented |
| BetalogWritten.ParsesExactly | control-plane/cmd/betalog/main.go:267-310 | which lines are entries |
| BetalogWritten.VerifiesExactly | control-plane/cmd/betalog/main.go:223-263 | a log verifies exactly when it is terminated and each line is an entry with the next number, the hash of the line before, and an acknowledgement no earlier line has |
| BetalogWritten.RefusesExactly | control-plane/cmd/betalog/main.go:121-165 | an append is refused exactly for an unterminated log, a tail that is no entry, or an acknowledgement of a source and incident already on record |
| BetalogWritten.AppendsExactly | control-plane/cmd/betalog/main.go:121-177 | the entry an accepted append writes: the next number, the hash of the last line, its own fields |
| RiskGate.RejectsExactlyOutside | control-plane/internal/riskgate/evaluate.go:20-153 | the chain of early returns rejects exactly outside one conjunction of conditions; closes meet no opening limit |
| RiskGateLaws.LooseningIsSafeExactly | control-plane/internal/riskgate/evaluate.go:20-153 | looser limits never turn an admission into a rejection, for any proposal, state and time, exactly when the staleness bound in force does not fall and, if some open is admitted at all, a negative cap is not raised to zero |
| RiskGateLaws.LooserNeverRejects | control-plane/internal/riskgate/evaluate.go:20-153 | the same law for one proposal, state and time |
| RiskGateLaws.LooserNeverShrinks | control-plane/internal/riskgate/evaluate.go:119-152 | nor lower the size of an open that executes under both |
| RiskGateLaws.ExecutesAtTheCap | control-plane/internal/riskgate/evaluate.go:119-152 | an executed open goes through at the smaller of its size and the cap, clipped exactly when it was larger, inside the envelope |
| RiskGateLaws.LossBoundsHoldExactly | control-plane/internal/riskgate/checks.go:27-95 | for an open and a state, the per-trade bound, and likewise the daily one, holds at the executed size under all limits and times exactly when stop distance plus fee rate times entry price is not negative or the gate can never execute the open |
| RiskGateLaws.ExecutedOpenIsBounded | control-plane/internal/riskgate/checks.go:27-95 | at its executed size an open is at most the cap and, if that figure is not negative, loses at most max_loss_at_stop and stays under the daily limit; it is not negative for any fee rate that is not |
| RiskGateLaws.ExecutedOpenIsPlaced | control-plane/internal/contract/validate.go:147-173 | an executed open has its stop on the losing and its target on the winning side of the entry |
| RiskGateLaws.RequireStopIsRedundant | control-plane/internal/riskgate/checks.go:66-75 | the required-stop switch changes no verdict |
| RiskGateLaws.VerdictShape | control-plane/internal/riskgate/checks.go:121-140 | which decisions carry a size and which reasons |
| RiskGateLaws.WorstCaseGrows | control-plane/internal/riskgate/gate.go:102-107 | the worst case grows with the size unless that figure is negative |
| RiskGateLaws.ZeroStalenessLoosensIntoRejection | control-plane/internal/riskgate/evaluate.go:45-57 | a zero staleness bound means the default, so raising it to one second tightens it |
| RiskGateLaws.NegativeCapLoosensIntoRejection | control-plane/internal/riskgate/evaluate.go:119-136 | a negative cap clips where a zero cap rejects |
| RiskGateLaws.LargeRebateBreaksTheDay | control-plane/internal/riskgate/gate.go:102-107 | a rebate larger than the stop distance breaks the daily limit for a clipped open under ordinary limits |
| RiskGate.ValidIsSound | control-plane/internal/contract/validate.go:14-141 | what a valid proposal guarantees the gate |
| RiskGateWritten.ValidExactly | control-plane/internal/contract/validate.go:14-173 | which proposals are valid, over their own fields |
| RiskGateWritten.AdmitsExactly | control-plane/internal/riskgate/evaluate.go:20-153 | the gate admits exactly a valid, fresh proposal without a kill, inside the order rate and, for an open, with room: the day, its reserve and the worst case under the limit, drawdown, whitelist, placement, stop distance, loss per trade and slots, all over the state's own fields |
| RiskGateWritten.RejectsWithTheFirstCode | control-plane/internal/riskgate/evaluate.go:20-153 | a valid rejected proposal carries exactly the code of the first check it fails, in the order of the code |
| RiskGateWritten.RejectsMalformed | control-plane/internal/riskgate/evaluate.go:20-44 | a malformed one is rejected without a size, for its version alone if that is unknown |
| RiskGateWritten.AdmittedVerdict | control-plane/internal/riskgate/evaluate.go:119-152 | an admitted one is clipped exactly above the cap, and escalated exactly beyond the second level's envelope at its capped size |
| RiskGateWritten.ExecutedLosesWithin | control-plane/internal/riskgate/checks.go:27-95 | both loss bounds at the executed size over the state's own fields, reserved exposure included |
| Watchdog.Monitor.Beat | control-plane/internal/safety/monitor.go:222-228 | an out-of-order receipt never regresses the last beat |
| Watchdog.Monitor.PruneWatchSet | control-plane/internal/safety/watchdog.go:45-54 | leaving the watch set deletes both entries |
| Watchdog.Monitor.Observe | control-plane/internal/safety/watchdog.go:97-107 | entering it stamps the entry and drops an older beat |
| Watchdog.Monitor.WatchStrategy | control-plane/internal/safety/watchdog.go:63-90 | skip under a standing kill, quiet below 90 s, kill above 600 s or above 90 s with reconciled unprotected exposure |
| Watchdog.Monitor.WatchdogPass | control-plane/internal/safety/watchdog.go:23-40 | prune, then judge every live strategy |
| WatchdogRuns.WatchdogKillIsOldSilence | control-plane/internal/safety/watchdog.go:23-125 | in every run each row a pass appends is a kill of a strategy live at every pass since an entry more than 90 s (600 s) earlier, with no beat since then inside that span, and no uncleared kill binding it |
| WatchdogRuns.LongSilenceIsKilled | control-plane/internal/safety/watchdog.go:63-90 | given an answering store and a fresh id, a row is appended exactly for a long enough silence without a standing kill |
| WatchdogRuns.PassMemory | control-plane/internal/safety/watchdog.go:42-107 | after a pass exactly the live strategies are watched: those kept, and those just stamped |
| WatchdogRuns.RunIsExplained | control-plane/internal/safety/watchdog.go:92-107 | every watch-set entry traces back to the pass that made it, with every later beat on record |
| WatchdogKills.PassKillsExactly | control-plane/internal/safety/watchdog.go:23-90 | a pass appends one kill row for a live strategy exactly when no kill binds it and it was silent for more than 90 s with unprotected exposure, 600 s without |
| WatchdogKills.PassSparesTheRest | control-plane/internal/safety/watchdog.go:23-40 | and none for any other strategy |
| WatchdogKills.SilenceIsKilledExactly | control-plane/internal/safety/watchdog.go:23-125 | in every run a pass kills a live strategy exactly when it entered the watch set more than the span ago, has not beaten inside it since, and no kill binds it |
| Backtest.Dataset.AppendValidated | control-plane/internal/backtest/dataset.go:99-135 | a line is accepted exactly when the whole series stays well formed: one canonical symbol, one legal interval, strict decimals, strictly ascending open times on the grid of the first |
| Backtest.ReadDataset | control-plane/internal/backtest/dataset.go:62-96 | a file is accepted exactly when it has a line and all its lines together are well formed |
| Backtest.SlotsSpanTicks | control-plane/internal/backtest/dataset.go:50-60 | every candle has its own slot between zero and the last tick |
| Backtest.SubTicks | control-plane/internal/backtest/feed.go:30-64 | four ordered marks, open first, close last at the close time, the adverse extreme placed by direction; refused exactly on an OHLC violation |
| Backtest.MarkStore.Put | control-plane/internal/marketdata/store.go:34-38 | the latest tick replaces the one before |
| Backtest.MarkStore.Mark | control-plane/internal/marketdata/store.go:40-58 | a mark is usable exactly inside the freshness window, both bounds included; an unusable price is zero |
| BacktestReplay.Replay.PumpCandle | control-plane/internal/backtest/replay.go:122-151 | four mark writes and sweeps, each sweep with its own sub-tick, ending with the close in the cache |
| BacktestReplay.ReadProposals | control-plane/internal/backtest/service.go:91-157 | accepted exactly with one line per tick, in order, of the run's strategy and symbol, created at the tick's decision time |
| BacktestReplay.Replay.Run | control-plane/internal/backtest/replay.go:77-120 | a replay succeeds exactly when every candle, sweep and evaluation does; then each candle is pumped exactly once at its own tick; every decision reached sees no mark later than its close, and a usable one exactly when its slot has a candle, whose close it is |
| BacktestReplay.Replayed | control-plane/internal/backtest/service.go:53-89 | a run is refused exactly for another symbol or interval or for lines that are not aligned; otherwise it keeps the laws of the replay, and decides on each line at the time it was created |
| BacktestReplay.DecisionIsRight | control-plane/internal/backtest/backtest.go:127-133 | with the freshness bound between one second and the interval a decision sees its slot's close, and a gap leaves the mark too old |
| BacktestWritten.StrictExactly | control-plane/internal/contract/decimal.go:17-42 | which texts are decimals: digits without a leading zero, then at most a point and digits, 34 in all |
| BacktestWritten.ValueIsItsDigits | control-plane/internal/contract/decimal.go:33-42 | a decimal without its point is its value times the power of ten of its decimals |
| BacktestWritten.CanonicalExactly | control-plane/internal/backtest/backtest.go:58-62 | which texts are canonical symbols |
| BacktestWritten.DatasetExactly | control-plane/internal/backtest/dataset.go:99-135 | which datasets are well formed, over the texts and times of their lines |
| BacktestWritten.AlignedExactly | control-plane/internal/backtest/service.go:91-157 | which proposal lines are aligned, over their fields and the open times |
| BacktestWritten.IntervalsAreTheirNames | control-plane/internal/backtest/backtest.go:42-50 | each interval is as long as its name says |
| BacktestWritten.DecidesASecondLater | control-plane/internal/backtest/replay.go:77-120 | a decision is made one second after its slot closes |
| BacktestWritten.UsableExactly | control-plane/internal/marketdata/store.go:40-58 | a mark is usable from five seconds before its time to the freshness bound after it |
| BacktestWritten.SpecExactly | control-plane/internal/backtest/backtest.go:107-134 | a run specification needs a canonical symbol, a legal interval and a freshness bound between one second and the interval |
| BacktestWritten.OhlcExactly | control-plane/internal/backtest/feed.go:30-64 | which candles have sub-ticks, over their texts |
| BacktestWritten.MarkExactly | control-plane/internal/backtest/replay.go:107-118 | a tick is decided on the close of the candle that opened at its grid time, and on no mark without one |
| BacktestWritten.CompletesExactly | control-plane/internal/backtest/replay.go:82-151 | a replay completes exactly when every candle is consistent, its four sweeps in their order and with their marks and times succeed, and every tick's evaluation does, a second after its close and on its own mark |
| TokenBuckets.RateLimiter.Allow | control-plane/internal/api/auth.go:289-308 | one call on one key |
| TokenBuckets.LoginThrottle.Exhausted | control-plane/internal/api/websessions.go:69-89 | the uncharged check after pruning |
| TokenBuckets.LoginThrottle.Fail | control-plane/internal/api/websessions.go:91-111 | the charge, evicting at the cap |
| TokenBuckets.LoginThrottle.Prune | control-plane/internal/api/websessions.go:120-127 | exactly the full buckets go |
| TokenBuckets.LoginThrottle.Evict | control-plane/internal/api/websessions.go:129-141 | one bucket nearest to full goes |
| TokenBuckets.LoginThrottle.Reset | control-plane/internal/api/websessions.go:113-118 | a successful login deletes the bucket |
| TokenBucketRuns.WindowIsBounded | control-plane/internal/api/auth.go:292-308 | with a clock that does not step back any window of length T admits at most burst + rate*T calls of a key |
| TokenBucketRuns.ReturnedWaitAdmits | control-plane/internal/api/auth.go:303-305 | waiting the returned time admits the next call exactly when the wait was a whole number of nanoseconds; one nanosecond more always does |
| TokenBucketRuns.WaitingIsEnough | control-plane/internal/api/auth.go:289-308 | with a whole burst and a whole refill time, in every run waiting exactly the returned time is enough |
| ThrottleRuns.NeverOverCap | control-plane/internal/api/websessions.go:38-45 | in every run the throttle holds at most its cap of buckets |
| ThrottleRuns.PruningIsInvisible | control-plane/internal/api/websessions.go:38-45 | below the cap the throttle answers every check as one that never prunes |
| TokenBucketLaws.CallTakesOneToken | control-plane/internal/api/auth.go:292-308 | a call is admitted exactly with a whole token after the refill, and takes it |
| TokenBucketLaws.BurstIsAdmitted | control-plane/internal/api/auth.go:292-308 | of any number of calls at once exactly the first burst are admitted |
| TokenBucketLaws.SpacedCallsAreAdmitted | control-plane/internal/api/auth.go:292-308 | a caller that waits out the refill time between calls is never refused |
| TokenBucketLaws.PrunesExactly | control-plane/internal/api/websessions.go:120-127 | pruning drops exactly the buckets that are full again |
| TokenBucketLaws.ChecksExactly | control-plane/internal/api/websessions.go:74-89 | an email is used up exactly below one attempt, with the time until one is back |
| TokenBucketLaws.ChargesExactly | control-plane/internal/api/websessions.go:93-141 | a failure takes one attempt from its own bucket and leaves all others, but for one victim at 4096 |
| TokenBucketLaws.FiveFailuresClose | control-plane/internal/api/websessions.go:38-111 | from a fresh email the fifth failure closes it and no earlier one, for 30 seconds |
| TokenBucketLaws.GuardedFailureIsACall | control-plane/internal/api/websessions.go:74-111 | a check and the charge after it are one call on a bucket of five |
| TokenBucketLaws.RemembersFewEmails | control-plane/internal/api/websessions.go:38-45 | in every run at most 4096 emails are remembered |
| StampWriter.Writer.Write | control-plane/internal/store/backup.go:236-250 | one write appends the stamp of what the sink takes, at the artifact offset, without touching the caller's buffer |
| StampWriter.CopyContext | control-plane/internal/store/backup.go:373-397 | however the source is cut, what is out is the stamp of a prefix of it, and of all of it when every write is complete and nothing cancels |
| StampWriter.StampJoins | control-plane/internal/store/backup.go:228-250 | stamping part by part is stamping the whole |
| StampWriter.StampsTheNumberOne | control-plane/internal/store/backup.go:228-250 | bytes 60 to 63 become the big-endian number one, and no other byte changes |

## Left out

- SQLite itself: write-ahead logging, fsync, migrations and crash durability; a committed transaction is atomic and row ids of append-only tables increase.
- HTTP handlers, permissions, sessions, secrets, JSON decoding and the `web/` tree.
- Runs of the safety tables pass each transition the live flag that its only caller computes from the target state (control-plane/internal/api/lifecycle.go:218); `AppendLifecycleTransitionCAS` itself takes any flag.
- The strategy state machine's table of legal transitions: any compare-and-swap is allowed, which only makes the run laws stronger.
- Exchange and market-data network clients.
- Decimal division to 16 digits before rounding: division is exact in the model, so a double rounding in VWAP or a quotient rounded in the average price does not appear.
- Floating point in the token buckets: tokens are exact, so the accumulation of rounding errors over many calls does not appear.
- Random identifiers (event, fill, verdict and discrepancy ids), log lines, alert texts beyond the references they carry, and details_json.
- The fills' own primary key and the foreign keys of orders and positions: a violation rolls a transaction back, and the laws are about commits.
- LiveOmsConvergence.ReplaysConverge: `filled_at` is the time of the last delivery booked, so it depends on the order of delivery and is not compared.
- Order quantities at a bridge restart: the quantity comes back as it was stored at insertion, and the OMS may have changed it since.
- BridgeRuns.CommitIsFaithful: allocated capital is the same at every restart; a changed configuration would seed new strategies differently.
- BridgeTables.Bridge.PersistLocked: the strategy_id foreign key and read errors of strategy_state are not modelled; they roll back.
- BridgeTables.Bridge.SubmitApproved: the payload and verdict reads, the size taken from the verdict and the OMS's own error are one arbitrary OMS step; the step's error is returned after its effects are persisted.
- The kill epoch that a submission stamps on its entry is part of that step; only its restore at hydration is modelled.
- The page loop of strategy listing at hydration; rows are restored in any order.
- Listing order of `ListStrategies` in a watchdog pass: live strategies are judged in the order of their ids.
- Watchdog alerts, the alert back-fill and the entry-cancel sweep of the first rung; they write no kill. The breaker evaluation of the same tick.
- The exposure test of the watchdog (positions, venue minimums, protective orders) is an arbitrary answer per strategy and pass.
- The notifier's degradation counters, heartbeat envelope and fixed order of sources: each source is independent of the others.
- Betalog: JSON, UTF-8 cleaning, timestamps and SHA-256 are parameters with stated laws; warnings about a clock that steps back, file locking and the required-reference flags are not modelled.
- The gate's limits snapshot, verdict ids and messages, and the service around it; an escalated verdict carries no size, so the size laws are for approvals and clips.
- The remaining schema rules of a proposal (ids, symbol shape, lengths, summaries, costs) are one count of faults.
- The backtest's meta line, hashes and run row; lenient parsing of prices that are not in the strict form, which a dataset never holds.
- The backtest's strategy state, gate service and record writer; the OMS sweep and the evaluation are arbitrary functions of the tick and of the marks they are given, which may fail the run.
- Metering imports and the usage ledger; the metering records are given, with unique request ids.
- Invoice and line identifiers, which are built from tenant, period and position.
- Read errors other than the end of the source in the backup copy loop, the artifact's verification, renames and retention.
- The gate conditions over the replay (minimum trades, notional, profit factor), which compare one figure with one threshold.

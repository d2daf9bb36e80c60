# A verified model of the CryptBot core

A Dafny model of the parts of CryptBot where money can be lost through a wrong step: the event-driven
backtest with its matcher and ledger, the order-book stream with its snapshots, replays and reconnects,
the two-leg live-order protocol with its compare-and-set store and its reconciliation, position sizing
and the circuit breaker, depth walks, funding-carry economics and the ingestion rate limiter.

Every stateful object of the source is a class whose methods are proved against functions on values;
the laws are then proved about those functions for all inputs, all runs or all reachable states.
Amounts are exact reals, timestamps and exchange sequences are integers, raised errors are values.

## Layout

| files | content |
|---|---|
| `Common.dfy` | options, results, a few facts about products |
| `Execution.dfy`, `Portfolio.dfy`, `PortfolioFlows.dfy`, `PortfolioLedger.dfy` | instrument rules, orders, fills; positions and the ledger, which way money moves in it, and the ledger object |
| `Events.dfy`, `Backtest.dfy`, `BacktestEngine.dfy` | the event queue, the backtest as a function, and the engine, matcher and queue objects |
| `BacktestCausality.dfy`, `BacktestSafety.dfy`, `BacktestTermination.dfy`, `BacktestReturns.dfy`, `BacktestMatching.dfy`, `BacktestTrading.dfy`, `BacktestOrders.dfy` | the laws of the backtest: causality, safety, termination, matching, what trades and what becomes of orders |
| `OrderBook.dfy`, `OrderBookProtocol.dfy`, `OrderBookStream.dfy` | books and replays, the message loop as a state machine, and the stream object |
| `PreflightBindings.dfy`, `Reconciliation.dfy`, `Gateway.dfy`, `GatewayOutcomes.dfy`, `LiveGateway.dfy` | the two binding stores and their interleavings, reconciliation verdicts, the order protocol, what each answer makes of a binding, and the gateway object |
| `Depth.dfy`, `FundingCarry.dfy`, `TokenBucket.dfy` | depth walks, funding carry, the rate limiter |
| `Sizing.dfy`, `SizingBudget.dfy`, `CircuitBreaker.dfy`, `RiskManager.dfy` | sizing and the budget it fills, the breaker with the history it stands for, entry decisions |

## Where the code does less than its documentation suggests

- After a stream snapshot has replayed buffered deltas, the message loop sets the previous sequence back to the
  snapshot's own (`src/app/adapters/exchanges/websocket.py`, line 310). A delta continuing the replayed book is then refused,
  and one continuing the snapshot is accepted. `BrokenChain` gives a run. `ChainIsUnbrokenExactly` says over every run when
  the chain behind a synchronized book is gap-free: if and only if no live delta has come yet or the last accepted snapshot
  of the connection found nothing ahead of it.
- An accepted first leg is forgotten when a later order of the binding, second leg or hedge, fails between reservation and
  submission: the binding is aborted and the next reservation starts blank. `FirstLegIsForgottenExactly` states the condition
  in both directions, `ForgottenFirstLeg` gives the runs.
- The loss at the stop stays within the risk per trade for every input exactly with the sizing methods that use the
  stop distance: `LossAlwaysBoundedExactly`.
- The relational store and the in-memory store differ exactly on a stored binding of version 0 with expected version 0.
  From empty stores that never arises: `StoresAgree`.
- A breaker status call with a later timestamp clears trips for earlier timestamps too. `ClearedTooEarly` gives a run, and
  `AgreesWithResetsExactly` says for every run when the status still tells of every trip since the last confirmed reset.

## Model

| member | source | states |
|---|---|---|
| Execution.RoundDownIsFloor | src/app/domain/execution/models.py:79-82 | Rounding down gives the one multiple of the unit within a unit below the value, leaves multiples alone and keeps the sign. |
| Execution.RoundUpIsCeiling | src/app/domain/execution/models.py:89-101 | Rounding up gives the one multiple of the unit within a unit above the value. |
| Execution.RoundingIsConservative | src/app/domain/execution/models.py:89-101 | Limits round in the trader's favour and fills against it, each by less than one tick: for a buy limit, price, fill in this order, for a sell the reverse. |
| Execution.QuantizeQuantityIsWhole | src/app/domain/execution/models.py:79-82 | Quantities become whole lots, are never raised, and whole lots are not shrunk. |
| Portfolio.FillConservesValue | src/app/domain/portfolio/models.py:44-75 | For opens, adds, partial and exact closes and reversals, and every valuation price: realized plus open profit changes by exactly the fill's signed quantity times the distance of its price. |
| Portfolio.PositionIsItsFills | src/app/domain/portfolio/models.py:44-75 | After any sequence of fills a position's quantity is their signed sum and its value at every price is the sum of the fills' values. |
| Portfolio.ApplyFillKeepsBalance | src/app/domain/portfolio/ledger.py:92-122 | An accepted fill keeps the books balanced: each position explained by its fills, and cash by realized profit, fees and funding. |
| Portfolio.MarkKeepsBalance | src/app/domain/portfolio/ledger.py:124-128 | Marking to market keeps the books balanced. |
| Portfolio.FundingKeepsBalance | src/app/domain/portfolio/ledger.py:130-159 | A funding payment keeps the books balanced. |
| Portfolio.CaptureKeepsBalance | src/app/domain/portfolio/ledger.py:194-207 | Taking a snapshot keeps the books balanced. |
| Portfolio.EquityIdentity | src/app/domain/portfolio/ledger.py:55-61 | In balanced books equity is initial cash plus the value of all fills at the current marks, minus fees, plus funding, summed per fill and not per position. |
| Portfolio.DecisionListsOpen | src/app/domain/portfolio/ledger.py:183-192 | A liquidation is decided if and only if something is open and equity is down to the maintenance margin; it lists exactly the open instruments, sorted by exchange and symbol. |
| PortfolioFlows.LongsPayShorts | src/app/domain/portfolio/ledger.py:130-159 | Funding moves cash by the position's worth at the mark times the rate: at a positive rate down exactly for a long and up exactly for a short; an open position gets one record that explains the payment. |
| PortfolioFlows.OnlyClosingRealizes | src/app/domain/portfolio/models.py:44-75 | A fill with the position realizes nothing; a partial close leaves the average entry alone; an exact close clears average and protection; a reversal starts at its own price. |
| PortfolioFlows.FillsAreBookedOnce | src/app/domain/portfolio/ledger.py:100-121 | A fill is appended once; from then on its id, and no id for its sake, is refused as a duplicate. |
| PortfolioFlows.ProtectionIsSet | src/app/domain/portfolio/models.py:77-92 | Protection is accepted if and only if stop and target lie on the losing and the winning side of the average entry, and then both are set as asked. |
| PortfolioFlows.FillProtects | src/app/domain/portfolio/ledger.py:112-118 | A fill that leaves a position open hands it the protection of its order; an order without protection leaves the old one. |
| PortfolioFlows.MarkValues | src/app/domain/portfolio/ledger.py:124-128 | An open position is valued at the mark price, or else the last price, or else halfway between bid and ask, and no other position moves. |
| PortfolioFlows.GrossAndNet | src/app/domain/portfolio/ledger.py:63-71 | Gross exposure is at least the net exposure in size and equal to it when all positions are on one side. |
| PortfolioFlows.MaintenanceIsItsRate | src/app/domain/portfolio/ledger.py:77-87 | With one maintenance rate for all instruments the maintenance margin is that rate of the gross exposure. |
| PortfolioFlows.SnapshotAddsUp | src/app/domain/portfolio/ledger.py:194-207 | In a snapshot equity is cash plus open profit, margin times leverage is gross exposure, and what is available is what equity leaves, if anything. |
| PortfolioFlows.ProtectionFiresExactly | src/app/domain/portfolio/models.py:94-108 | The stop fires exactly when closing now is no better than its price, and the target exactly when closing now is no worse than its price and the stop does not fire. |
| PortfolioObjects.EntryIsInvisible | src/app/domain/portfolio/ledger.py:49-53 | The empty position that a lookup creates changes no later lookup or update. |
| PortfolioObjects.PortfolioLedger.constructor | src/app/domain/portfolio/ledger.py:29-47 | A new ledger is the empty one with the given cash. |
| PortfolioObjects.PortfolioLedger.Position | src/app/domain/portfolio/ledger.py:49-53 | Returns the position and leaves at most an empty entry behind. |
| PortfolioObjects.PortfolioLedger.ApplyFill | src/app/domain/portfolio/ledger.py:92-122 | Refines the fill on values, errors included: a refused fill leaves at most an empty entry, a duplicate nothing. |
| PortfolioObjects.PortfolioLedger.Mark | src/app/domain/portfolio/ledger.py:124-128 | Refines marking on values. |
| PortfolioObjects.PortfolioLedger.ApplyFunding | src/app/domain/portfolio/ledger.py:130-159 | Refines funding on values. |
| PortfolioObjects.PortfolioLedger.Capture | src/app/domain/portfolio/ledger.py:194-207 | Refines the snapshot on values. |
| Events.PushKeepsWellFormed | src/app/services/backtest/events.py:131-136 | A push keeps the queue strictly ordered by time, priority and sequence and adds exactly the one event. |
| Events.DueAfterInsert | src/app/services/backtest/events.py:126-147 | What is due by a time after a push is what was due before, with the event at its place if it is due itself. |
| Events.DueDependsOnFilter | src/app/services/backtest/events.py:126-147 | Loading two event lists that agree up to a time gives queues that agree on what is due by it. |
| Events.TieOrder | src/app/services/backtest/events.py:105-115 | At equal times market data precedes funding, and both precede signal, creation and submission in this order. |
| EventQueues.EventQueue.Push | src/app/services/backtest/events.py:131-136 | The unordered heap contents refine the ordered queue. |
| EventQueues.EventQueue.Pop | src/app/services/backtest/events.py:138-141 | The least heap entry is the head of the ordered queue, and exactly that one is removed. |
| EventQueues.LeastIsHead | src/app/services/backtest/events.py:138-141 | An entry that no other precedes is the first of the ordered listing. |
| BacktestCausality.HandleIsCausal | src/app/services/backtest/engine.py:112-237 | Handling an event appends only log entries stamped with its time or later, and every event it pushes comes strictly after it. |
| BacktestCausality.ProcessedInOrder | src/app/services/backtest/engine.py:88-110 | Over every run events are processed in strictly increasing time, priority and sequence although handlers push on the way. |
| BacktestCausality.RunSplits | src/app/services/backtest/engine.py:88-110 | A run is the run up to any time followed by the rest. |
| BacktestCausality.RunsAgree | src/app/services/backtest/engine.py:88-110 | Runs from equal states whose queues agree up to a time reach equal states there or raise the same error. |
| BacktestCausality.NoLookAhead | src/app/services/backtest/engine.py:88-110 | No look-ahead: with the same external events up to a time, two backtests have the same orders, fills, snapshots, trace and counters up to it, whatever comes later, and later processing only appends later entries. |
| BacktestSafety.DecisionIsSound | src/app/domain/execution/simulator.py:88-153 | A decided trade is within what is left of the order and what the ledger permits, in whole lots, later than submission; otherwise the order changes in status only. |
| BacktestSafety.ReduceOnlyShrinks | src/app/domain/portfolio/ledger.py:103-110 | A reduce-only fill within the position passes the guard, shrinks the position by its quantity and never reverses it. |
| BacktestSafety.ExecuteRefusals | src/app/domain/execution/simulator.py:135-152 | Of all checks on the way of a decided trade only a non-positive price or a misplaced protection price of the order itself can fire: never the causality, quantity, duplicate or reduce-only checks. |
| BacktestSafety.ExecuteKeepsInv | src/app/domain/execution/simulator.py:135-152 | Booking a trade keeps the backtest invariant: equal fill logs, order quantity as remainder plus fills, whole lots, balanced books. |
| BacktestSafety.HandleIsSafe | src/app/services/backtest/engine.py:112-237 | Every event keeps that invariant or raises an error that input data explains. |
| BacktestSafety.RunIsSafe | src/app/services/backtest/engine.py:88-110 | Every run, from any safe state and for any events, ends safe or raises such an error or the event limit. |
| BacktestSafety.ReturnedRunReconciles | src/app/services/backtest/engine.py:88-110 | A returned backtest reports one sequence of fills, each later than its submission; orders equal remainder plus fills; positions are signed sums in whole lots that an exit does not shrink; equity is explained. |
| BacktestTermination.SettlePushesFewExits | src/app/services/backtest/engine.py:185-207 | A market event schedules at most one exit per instrument with rules. |
| BacktestTermination.HandleLosesWeight | src/app/services/backtest/engine.py:112-237 | What an event pushes weighs strictly less than the event. |
| BacktestTermination.RunTerminates | src/app/services/backtest/engine.py:88-96 | With budget for the weight of its queue a run never hits the event limit and processes at most that many events. |
| BacktestTermination.ProcessedAtMost | src/app/services/backtest/engine.py:88-96 | S signals, F fundings and M market events over K instruments take at most 3S + F + (1 + 3K)M events. |
| BacktestReturns.OnlyTheLimit | src/app/services/backtest/engine.py:88-110 | From a state of calm input, where costs leave a sale at the bid a tick and no order has a protection price, a run raises nothing but the event limit. |
| BacktestReturns.BacktestReturnsOnCalmInput | src/app/services/backtest/engine.py:88-110 | On calm input and with a limit of 3S + F + (1 + 3K)M a new backtest raises no error, empties its queue within that many events and returns. |
| BacktestMatching.CandidatesAreSorted | src/app/domain/execution/simulator.py:98-101 | Orders are matched by submission time and then id. |
| BacktestMatching.CandidatesAreComplete | src/app/domain/execution/simulator.py:98-101 | Every order is considered exactly once. |
| BacktestMatching.TradesAreConservative | src/app/domain/execution/simulator.py:155-222 | No optimistic fill: takers never beat the touch or exceed their share of depth, limits hold, makers fill at their limit only after a later trade reached it, post-only orders never take. |
| BacktestTrading.CapIsAffordable | src/app/domain/portfolio/ledger.py:161-181 | A quantity is within the ledger's cap if and only if it is within the remainder and, reduce-only, within what it closes, or else free margin pays margin and taker fee for what it opens. |
| BacktestTrading.TradeFitsMargin | src/app/domain/portfolio/ledger.py:161-181 | Every decided trade is paid for in this sense, at the touch: equity minus margin in use covers margin and taker fee of the part beyond the position it closes. |
| BacktestTrading.TradesExactly | src/app/domain/execution/simulator.py:88-197 | An order trades if and only if the snapshot may match it, it is big enough, and some price and whole-lot quantity suit order, margin, depth and time in force; it then trades the largest such quantity, a taker next to the worsened touch, a maker at its limit. |
| BacktestTrading.CostsAddUp | src/app/domain/execution/simulator.py:173-188 | Spread, slippage and impact of a taker add up to the distance of the worsened touch from the mid price, per unit. |
| BacktestTrading.ImpactOfFullDepth | src/app/domain/execution/simulator.py:217-222 | Taking the whole depth costs the coefficient up to the maximum, and an empty book the maximum. |
| BacktestTrading.ImpactScales | src/app/domain/execution/simulator.py:217-222 | Below the maximum, k times the quantity has k to the impact power times the impact. |
| BacktestTrading.FillReports | src/app/domain/execution/simulator.py:224-258 | A booked trade adds one fill with the order's side, the trade's quantity, price and costs, the snapshot's time and the fee of its liquidity role; the order is done when nothing remains or it is immediate-or-cancel. |
| BacktestTrading.KeptOrderEnds | src/app/domain/execution/simulator.py:101-134 | What becomes of an order that is not filled: expired exactly past its time, rejected exactly if too small, cancelled exactly if reduce-only with nothing to reduce, post-only and crossing, or impatient, and else unchanged. |
| BacktestOrders.SignalBecomesOrder | src/app/services/backtest/engine.py:124-161 | A new signal becomes one order with all its terms after its two delays, whatever happens between, rounded in the trader's disfavour and live exactly if the book can take it; a repeated signal becomes nothing and is recorded. |
| BacktestOrders.ProtectiveExitExactly | src/app/services/backtest/engine.py:188-192 | An exit for the whole position is scheduled exactly when its stop or target is hit at the executable side and no exit is pending. |
| BacktestOrders.MarketEventProtects | src/app/services/backtest/engine.py:163-207 | After a market event the remaining position is valued at the snapshot, and if its stop or target is hit an exit is pending, pushed now unless one was pending. |
| BacktestOrders.TradeHandsProtection | src/app/services/backtest/engine.py:172-183 | A booked trade moves its position by the traded quantity, and a position it leaves open carries the stop and the target of the order. |
| BacktestOrders.RunKeepsPending | src/app/services/backtest/engine.py:172-183 | Over every run an exit is pending only for an open position. |
| BacktestOrders.EventIsTraced | src/app/services/backtest/engine.py:90-96 | Every handled event adds one trace entry: its own time and kind. |
| BacktestOrders.TraceCountsEvents | src/app/services/backtest/engine.py:88-99 | Over every run the trace grows by exactly as many entries as events were processed. |
| BacktestObjects.ReportReconciles | src/app/services/backtest/engine.py:97-110 | The report has as many trace entries as processed events, the fills of the ledger, and a final equity equal to initial cash plus fills at the last marks minus fees plus funding. |
| BacktestMatching.ExitClosesPosition | src/app/services/backtest/engine.py:219-237 | A fully filled exit order passes the reduce-only guard and closes its position. |
| BacktestMatching.LiquidationIsComplete | src/app/services/backtest/engine.py:194-206 | At or below maintenance margin every open position gets a pending exit and no order that could add risk stays live. |
| BacktestMatching.HandleKeepsCover | src/app/services/backtest/engine.py:112-237 | Over every event an instrument marked for liquidation has a pending exit. |
| BacktestMatching.RunKeepsCover | src/app/services/backtest/engine.py:88-110 | So it has after every run. |
| BacktestObjects.ExecutionSimulator.Submit | src/app/domain/execution/simulator.py:62-82 | Refines submission on values; a duplicate id changes nothing. |
| BacktestObjects.ExecutionSimulator.CancelIncreasing | src/app/services/backtest/engine.py:200-202 | Cancels exactly the orders that are not reduce-only, in place. |
| BacktestObjects.BacktestEngine.constructor | src/app/services/backtest/engine.py:57-79 | A new engine starts from the empty core and queue. |
| BacktestObjects.BacktestEngine.AddEvents | src/app/services/backtest/engine.py:84-86 | Events enter the queue in the given order. |
| BacktestObjects.BacktestEngine.Consume | src/app/services/backtest/engine.py:172-183 | Refines the fill consumer: the ledger takes the fill, and a closed position loses its pending marks. |
| BacktestObjects.BacktestEngine.RecordFill | src/app/domain/execution/simulator.py:146-150 | Refines recording a fill in the matcher and handing it to the consumer, in this order. |
| BacktestObjects.BacktestEngine.Execute | src/app/domain/execution/simulator.py:135-152 | Refines booking a trade through fill, order, ledger and immediate-or-cancel remainder. |
| BacktestObjects.BacktestEngine.Match | src/app/domain/execution/simulator.py:88-153 | The matching loop refines matching on values, with each cap taken after the earlier fills. |
| BacktestObjects.BacktestEngine.ScheduleExit | src/app/services/backtest/engine.py:219-237 | Refines scheduling one exit signal. |
| BacktestObjects.BacktestEngine.Liquidate | src/app/services/backtest/engine.py:194-206 | Refines the liquidation step, loops included. |
| BacktestObjects.BacktestEngine.Settle | src/app/services/backtest/engine.py:188-207 | Refines what follows matching: protection exit, liquidation, snapshot. |
| BacktestObjects.BacktestEngine.OnMarket | src/app/services/backtest/engine.py:163-207 | Refines the market handler. |
| BacktestObjects.BacktestEngine.OnSignal | src/app/services/backtest/engine.py:124-136 | Refines the signal handler, duplicates included. |
| BacktestObjects.BacktestEngine.OnCreation | src/app/services/backtest/engine.py:138-161 | Refines order creation and submission. |
| BacktestObjects.BacktestEngine.Dispatch | src/app/services/backtest/engine.py:112-122 | Refines the handling of any event. |
| BacktestObjects.BacktestEngine.ProcessNext | src/app/services/backtest/engine.py:90-96 | One loop iteration is one step of the run. |
| BacktestObjects.BacktestEngine.Run | src/app/services/backtest/engine.py:88-110 | The loop returns the report of the run on values or its error, so the laws above hold of it. |
| OrderBook.LastWriteWins | src/app/adapters/exchanges/public.py:1115-1121 | After updates a price holds what was last written to it, nothing if that was zero, and its old quantity if it was never written. |
| OrderBook.BookHoldsLastWrites | src/app/adapters/exchanges/public.py:1115-1134 | A snapshot folded with deltas holds, on each side and at every price, what the snapshot and the deltas wrote there last, and nothing after a zero. |
| OrderBook.SortIsCorrect | src/app/adapters/exchanges/websocket.py:507 | Buffered deltas are replayed in ascending order and none is lost. |
| OrderBook.ReplayStreamExplains | src/app/adapters/exchanges/websocket.py:487-523 | At every point of a stream replay, also when it fails, the book is the snapshot folded with a gap-free chain of replayed deltas ending at the previous sequence. |
| OrderBook.ReplayStreamExactly | src/app/adapters/exchanges/websocket.py:507-518 | A replay of sorted deltas succeeds if and only if those still to apply form a gap-free chain; sequence 0, which counts as absent, is covered too. |
| OrderBook.StaleNeverMatters | src/app/adapters/exchanges/websocket.py:509-511 | Away from sequence 0, deltas at or below the snapshot change nothing about a replay, not even what a failed one leaves. |
| OrderBook.RecoverySucceedsExactly | src/app/adapters/exchanges/websocket.py:571-598 | REST recovery succeeds if and only if the buffered sequences above s are s+1 to s+k without gap or repeat; the book is then the snapshot folded in sequence order, standing at s+k. |
| OrderBook.ArrivalOrderIsIrrelevant | src/app/adapters/exchanges/websocket.py:571-598 | Recovery does not depend on the order of arrival. |
| OrderBookProtocol.RunKeepsInv | src/app/adapters/exchanges/websocket.py:207-341 | Over every run with any reconnects the shared book, the sequence and the buffer are explained by messages of the current connection. |
| OrderBookProtocol.EveryYieldIsExplained | src/app/adapters/exchanges/public.py:1172-1196 | Every yielded book is synchronized, has an empty buffer, and is one snapshot of the current connection folded with deltas of that connection; nothing of an earlier connection or failed replay is left. |
| OrderBookProtocol.SnapshotYieldsExactly | src/app/adapters/exchanges/websocket.py:487-523 | A snapshot is answered with a book if and only if it is accepted, has a sequence, and the newer buffered deltas, sorted and without repeats, form a gap-free chain from it; the book is the snapshot folded with exactly those. |
| OrderBookProtocol.PositiveSnapshotYieldsExactly | src/app/adapters/exchanges/websocket.py:487-523 | For an accepted snapshot with a positive sequence that chain is the whole condition. |
| OrderBookProtocol.StaleDeltasNeverMatter | src/app/adapters/exchanges/websocket.py:507-511 | Buffered deltas at or below the snapshot change neither the answer nor the book. |
| OrderBookProtocol.StepYieldsExactly | src/app/adapters/exchanges/websocket.py:271-341 | Which inputs are answered with a book: on a live connection and not seen before, such a snapshot, or a delta that continues a synchronized connection. |
| OrderBookProtocol.WaitingDeltasAreKept | src/app/adapters/exchanges/websocket.py:463-472 | While waiting, a delta with a sequence is kept in order of arrival as long as there is room, and else the connection is lost. |
| OrderBookProtocol.ConnectForgets | src/app/adapters/exchanges/websocket.py:207-234 | A new connection has no sequence, buffer or remembered payload; the shared book stays until a snapshot. |
| OrderBookProtocol.RecentPayloadsAreDropped | src/app/adapters/exchanges/websocket.py:447-455 | A payload is dropped as long as it is among the last ones kept, and the oldest goes when there is no room. |
| OrderBookProtocol.UnbrokenExactly | src/app/adapters/exchanges/websocket.py:284-310 | Replayed and live deltas form one gap-free chain if and only if one of the two is empty. |
| OrderBookProtocol.ReplaysExactlyAhead | src/app/adapters/exchanges/websocket.py:487-523 | Something is replayed if and only if a newer delta was buffered, which is also exactly when the connection no longer stands where its book stands. |
| OrderBookProtocol.ContinuationIsRefused | src/app/adapters/exchanges/websocket.py:284-310 | After a replay the delta that continues the book loses the connection. |
| OrderBookProtocol.EveryYieldIsUnbroken | src/app/adapters/exchanges/websocket.py:207-341 | Under the condition below, which looks at the current connection only, every yielded book is one snapshot of the connection and a gap-free chain of its deltas. |
| OrderBookProtocol.ChainIsUnbrokenExactly | src/app/adapters/exchanges/websocket.py:207-341 | Over every run with any reconnects, the deltas behind a synchronized book are one gap-free chain from its snapshot if and only if no live delta has come yet or the last accepted snapshot of the connection found no newer delta buffered. |
| OrderBookProtocol.BrokenChain | src/app/adapters/exchanges/websocket.py:284-310 | A run whose yielded book is no such chain, for every configuration with room for it. |
| OrderBookObjects.UpdateLevels | src/app/adapters/exchanges/public.py:1115-1121 | The update loop gives the last-write-wins map. |
| OrderBookObjects.OrderBookStream.constructor | src/app/adapters/exchanges/websocket.py:127-197 | A new session is disconnected and empty. |
| OrderBookObjects.OrderBookStream.Connect | src/app/adapters/exchanges/websocket.py:207-234 | A connection starts with no sequence, buffer or remembered payload; the shared book is kept. |
| OrderBookObjects.OrderBookStream.SeenPayload | src/app/adapters/exchanges/websocket.py:447-455 | A payload is dropped if and only if its digest is among the last ones kept; set and queue of digests stay the same set, bounded and without repetition. |
| OrderBookObjects.OrderBookStream.BufferDelta | src/app/adapters/exchanges/websocket.py:463-472 | Refines buffering, with the missing-sequence and overflow errors. |
| OrderBookObjects.OrderBookStream.LoadSnapshot | src/app/adapters/exchanges/public.py:1123-1129 | Replaces both sides by the snapshot's levels. |
| OrderBookObjects.OrderBookStream.LoadDelta | src/app/adapters/exchanges/public.py:1131-1134 | Applies a delta to both sides in place. |
| OrderBookObjects.OrderBookStream.ReplayBuffered | src/app/adapters/exchanges/websocket.py:507-518 | The replay loop refines the replay on values, up to the point where it stops. |
| OrderBookObjects.OrderBookStream.ApplyStreamSnapshot | src/app/adapters/exchanges/websocket.py:487-523 | Refines applying a stream snapshot, all errors and what they leave behind included. |
| OrderBookObjects.OrderBookStream.ApplySnapshotAndReplay | src/app/adapters/exchanges/websocket.py:571-598 | Refines REST recovery: on failure buffer and sequence are as before and the state is not synchronized. |
| OrderBookObjects.OrderBookStream.OnSnapshot | src/app/adapters/exchanges/websocket.py:284-285 | Refines the snapshot branch of the loop. |
| OrderBookObjects.OrderBookStream.OnDelta | src/app/adapters/exchanges/websocket.py:286-298 | Refines the delta branch of the loop. |
| OrderBookObjects.OrderBookStream.Receive | src/app/adapters/exchanges/websocket.py:271-341 | One message is one step of the state machine. |
| PreflightBindings.InMemoryRepository.CompareAndSet | src/app/services/live_trading/cross_venue_preflight.py:89-102 | The locked store is the abstract compare-and-set. |
| PreflightBindings.SqlRepository.CompareAndSet | src/app/infrastructure/database/preflight_bindings.py:34-60 | Insert and conditional update are the abstract compare-and-set on the stored bindings, unless version 0 is stored and expected. |
| PreflightBindings.RowRoundTrip | src/app/infrastructure/database/preflight_bindings.py:62-123 | Storing a binding in nullable columns and loading it gives it back. |
| PreflightBindings.StoresAgree | src/app/infrastructure/database/preflight_bindings.py:34-60 | From empty stores both repositories give the same answers to every sequence of attempts and store the same bindings. |
| PreflightBindings.WinsFromPredecessor | src/app/services/live_trading/gateway.py:1185-1188 | A write computed from any earlier read of its gateway wins if and only if the stored binding is the very one it was computed from. |
| PreflightBindings.ActKeepsConsistent | src/app/services/live_trading/gateway.py:1166-1188 | Any read or write of any gateway keeps each signal's history a chain with the stored binding at its end. |
| PreflightBindings.InterleavingsKeepChain | src/app/services/live_trading/gateway.py:1166-1188 | Under any interleaving of reads and of writes from any earlier read, the bindings of a signal form a chain of versions 1, 2, 3, each computed from its predecessor. |
| PreflightBindings.CreationIsConstant | src/app/services/live_trading/gateway.py:672-719 | The creation time is the same along the chain. |
| PreflightBindings.OneWinnerPerVersion | src/app/services/live_trading/gateway.py:1166-1188 | Once a write of a version has won, every rival write of that version fails for ever. |
| Reconciliation.AbsentIsSound | src/app/services/live_trading/gateway.py:1043-1052 | The absent verdict implies a recorded baseline, no position change, no matching fill or open order, and a client order that is missing, cancelled, rejected or expired. |
| Reconciliation.ExistsIsSound | src/app/services/live_trading/gateway.py:1022-1041 | The exists verdict has a non-empty external id; its fills have distinct ids, one exchange order, a total within the request and a signed total equal to the position change. |
| Reconciliation.OwnExactly | src/app/services/live_trading/gateway.py:820-843 | A listed order, fill or client order counts if and only if it is the one the request describes and lies between baseline and evidence, both included. |
| Reconciliation.DeltaIsMovement | src/app/services/live_trading/gateway.py:1089-1104 | The position change is what is reported for venue and symbol minus the baseline, and unknown when reported twice. |
| Reconciliation.VerdictExactly | src/app/services/live_trading/gateway.py:1022-1075 | Exists if and only if the evidence is coherent and shows the order; absent if and only if it is coherent, shows nothing and the position is known not to have moved; ambiguous if and only if it is not coherent. |
| Reconciliation.OpenOrderIsFound | src/app/services/live_trading/gateway.py:810-851 | An exchange that holds the order open and untouched proves it, under its id. |
| Reconciliation.NoTraceIsAbsent | src/app/services/live_trading/gateway.py:810-851 | An exchange without trace of the order and with an unmoved position proves it absent. |
| Reconciliation.VerdictIgnoresListingOrder | src/app/services/live_trading/gateway.py:968-1137 | The verdict and the external id do not depend on the order of the matching fills, orders and positions. |
| Reconciliation.CollectedVerdictIgnoresOrder | src/app/services/live_trading/gateway.py:810-851 | Nor on the order of the unfiltered listings that the exchange returns. |
| Gateway.TransitionsAreDerived | src/app/services/live_trading/gateway.py:672-787 | Every transition keeps signal and creation time and raises the version by one, as the chain of versions needs. |
| Gateway.SaveReplaces | src/app/services/live_trading/gateway.py:1185-1188 | The write of the next version succeeds and replaces exactly that binding. |
| Gateway.StepKeepsInv | src/app/services/live_trading/gateway.py:178-328 | Every operation keeps the protocol invariant: each binding's state is backed by the orders accepted so far. |
| Gateway.RunKeepsInv | src/app/services/live_trading/gateway.py:178-328 | So does every run. |
| GatewayOutcomes.AdmitsExactly | src/app/services/live_trading/gateway.py:672-726 | A binding admits an opening order when blank, the opposite leg under the same preflight after a first leg, and while hedging also hedges and a reduce-only unwind; nothing else. |
| GatewayOutcomes.ReducesExactly | src/app/services/live_trading/gateway.py:259-276 | A reduce-only order passes if and only if it brings the position its whole quantity closer to zero. |
| GatewayOutcomes.PositionIsReported | src/app/services/live_trading/gateway.py:245-258 | An order is measured against the position listed for its venue and symbol, or zero. |
| GatewayOutcomes.PlacementOutcome | src/app/services/live_trading/gateway.py:178-328 | The binding after every placement by the adapter's answers: unchanged if not admitted, aborted if it fails before sending, in doubt without an answer, and after a refusal hedging with the same first leg or aborted, after an acceptance completed or a first leg, with the ids of the answer. |
| GatewayOutcomes.AnsweredOnce | src/app/services/live_trading/gateway.py:187-196 | An answered or rejected order is replayed and never sent again; only a placement that raised may be repeated. |
| GatewayOutcomes.ReconciliationOutcome | src/app/services/live_trading/gateway.py:968-1020 | Only a binding in doubt is resolved: proof of existence counts as acceptance, proof of absence as refusal, and everything else halts. |
| GatewayOutcomes.HaltOutcome | src/app/services/live_trading/gateway.py:1139-1147 | A manual halt takes effect exactly while hedging or in doubt. |
| GatewayOutcomes.RefusalIsRecovered | src/app/services/live_trading/gateway.py:739-766 | Every run from the start with an accepted first order, a refused opposite one and then an accepted opposite order or reduce-only unwind ends completed with the first and the third id. |
| Gateway.CompletionNeedsTwoOrders | src/app/services/live_trading/gateway.py:739-766 | In every run a completed binding rests on two orders accepted or proven to exist, in order, under one preflight, the second at the other venue or a reduce-only unwind, and carries their ids. |
| Gateway.CompletionHasBothIds | src/app/services/live_trading/gateway.py:739-766 | In every run a completed binding has both external ids and neither is empty, whether its orders were acknowledged or proven to exist. |
| Gateway.ReconcileIgnoresListingOrder | src/app/services/live_trading/gateway.py:789-851 | A reconciliation leaves the same binding and outcome whatever the order of the exchange's fills, open orders and positions. |
| Gateway.OtherSignalsAreKept | src/app/services/live_trading/gateway.py:178-328 | An operation touches no binding but that of its signal. |
| Gateway.FinalStatesAreKept | src/app/services/live_trading/gateway.py:672-726 | No operation changes a completed or halted binding. |
| Gateway.FinalStatesLast | src/app/services/live_trading/gateway.py:1139-1164 | Nor does any run. |
| Gateway.FirstLegIsForgottenExactly | src/app/services/live_trading/gateway.py:672-737 | While a binding remembers an accepted first leg, before its second order or while hedging, a placement aborts it if and only if it is reserved and fails before submission; a reservation after an abort remembers no first leg. |
| Gateway.ForgottenFirstLeg | src/app/services/live_trading/gateway.py:672-737 | Runs from the start where a first order is accepted, a second fails before it is sent, and a third, on either leg, becomes the binding's first leg while the first order is still accepted. |
| GatewayObjects.LiveGateway.constructor | src/app/services/live_trading/gateway.py:78-124 | A new gateway has an empty store. |
| GatewayObjects.LiveGateway.AbortBinding | src/app/services/live_trading/gateway.py:728-737 | Refines the abort. |
| GatewayObjects.LiveGateway.SubmitOrder | src/app/services/live_trading/gateway.py:739-787 | Refines submission and acknowledgement: a failed or foreign answer leaves the binding in doubt, and neither write meets a version conflict. |
| GatewayObjects.LiveGateway.SubmitReserved | src/app/services/live_trading/gateway.py:853-870 | Refines the steps from reservation to submission, with the recorded baseline. |
| GatewayObjects.LiveGateway.PlaceOrder | src/app/services/live_trading/gateway.py:178-328 | Refines placing an order and keeps the invariant; no write of it meets a version conflict. |
| GatewayObjects.LiveGateway.ReconcileBinding | src/app/services/live_trading/gateway.py:789-808 | Refines reconciliation and keeps the invariant. |
| GatewayObjects.LiveGateway.HaltBinding | src/app/services/live_trading/gateway.py:1139-1147 | Refines halting and keeps the invariant. |
| Depth.ComputeVwap | src/app/domain/strategies/cross_venue.py:233-245 | The loop computes the volume-weighted price or its error. |
| Depth.WalkSucceedsExactly | src/app/domain/strategies/cross_venue.py:233-245 | On positive levels the walk succeeds if and only if the depth suffices, and then pays the greedy cost. |
| Depth.VwapSucceedsExactly | src/app/domain/strategies/cross_venue.py:233-245 | A price exists if and only if the depth suffices. |
| Depth.VwapOnAnyLevels | src/app/domain/strategies/cross_venue.py:233-245 | On books with bad levels a price exists if and only if the positive levels before the first bad one suffice; otherwise the error names the bad level or the missing depth. |
| Depth.VwapIsOptimal | src/app/domain/strategies/cross_venue.py:233-245 | No other allocation of the quantity buys cheaper from ascending asks or sells dearer into descending bids. |
| Depth.AskVwapNeverFalls | src/app/domain/strategies/cross_venue.py:233-245 | The ask price never falls as the quantity grows. |
| FundingCarry.SpendConserves | src/app/domain/strategies/funding_carry.py:287-316 | Notional spent plus notional left is what there was, and nothing is overspent. |
| FundingCarry.SpendsExactly | src/app/domain/strategies/funding_carry.py:287-316 | The notional is spent down to the tolerance if and only if the book is worth that much. |
| FundingCarry.SpendBounds | src/app/domain/strategies/funding_carry.py:287-316 | No unit is bought below the best ask or sold above the best bid. |
| FundingCarry.ComputePrice | src/app/domain/strategies/funding_carry.py:287-316 | The loop computes the price of a notional or its rejection. |
| FundingCarry.PriceIsNoBetterThanBest | src/app/domain/strategies/funding_carry.py:287-316 | On sorted books the price is no better than the best level. |
| FundingCarry.ChargesAreNotNegative | src/app/domain/strategies/funding_carry.py:348-392 | Neither the funding edge nor a slippage charge is negative. |
| FundingCarry.PricedExactly | src/app/domain/strategies/funding_carry.py:297-311 | A leg has a price if and only if the notional is positive and the usable levels are worth it up to the tolerance. |
| FundingCarry.PricePaysNotional | src/app/domain/strategies/funding_carry.py:303-316 | Price times quantity of a leg is the notional up to the tolerance. |
| FundingCarry.SlippageLeadsFromBest | src/app/domain/strategies/funding_carry.py:312-316 | The basis points lead from the best price to the price paid, and from the price received to the best. |
| FundingCarry.EvaluatesExactly | src/app/domain/strategies/funding_carry.py:356-365 | There are economics if and only if both legs can be priced and both fees are known. |
| FundingCarry.LegsAreBothVenues | src/app/domain/strategies/funding_carry.py:350-354 | Both venues trade, the one with the lower hourly rate long, in whichever order they are given. |
| FundingCarry.HourlyRateScales | src/app/domain/strategies/funding_carry.py:276-284 | An hourly rate is itself, and k times as much in k times the interval is the same rate. |
| FundingCarry.FeesAreBothLegsTwice | src/app/domain/strategies/funding_carry.py:373-387 | Fees are those of both venues, paid on entry and on exit, and net income is income minus all costs. |
| FundingCarry.FeesLowerIncome | src/app/domain/strategies/funding_carry.py:373-387 | Raising either venue's fee rate by d lowers net income by exactly twice d on the notional and changes nothing else. |
| FundingCarry.HorizonDoublesIncome | src/app/domain/strategies/funding_carry.py:366-372 | Twice the horizon earns twice the income at the same cost. |
| FundingCarry.RateRaisesIncome | src/app/domain/strategies/funding_carry.py:366-372 | Raising the short venue's hourly rate by d raises income by d on the notional over the horizon, at the same cost. |
| FundingCarry.CandidateExactly | src/app/domain/strategies/funding_carry.py:366-387 | A pair is a candidate if and only if the difference of its venues' hourly rates over the horizon covers both fees twice, both legs' slippage twice, the basis between their prices and the minimum edge. |
| FundingCarry.CandidateCoversItsCosts | src/app/domain/strategies/funding_carry.py:472-477 | A pair is a candidate if and only if its funding income covers fees, slippage, basis and the minimum edge. |
| TokenBucket.TokenBucketRateLimiter.constructor | src/app/services/ingestion/pipeline.py:15-20 | A new bucket is full. |
| TokenBucket.TokenBucketRateLimiter.Acquire | src/app/services/ingestion/pipeline.py:22-32 | Refines one acquisition, with or without sleeping. |
| TokenBucket.GrantCosts | src/app/services/ingestion/pipeline.py:22-32 | A grant takes one token that was earned since the last update. |
| TokenBucket.RateBound | src/app/services/ingestion/pipeline.py:14-32 | Over every run the grants from one to another are at most capacity plus rate times the time between. |
| TokenBucket.WindowBound | src/app/services/ingestion/pipeline.py:14-32 | Any window of length T of any run holds at most capacity plus rate times T grants. |
| TokenBucket.GrantedAtOnceExactly | src/app/services/ingestion/pipeline.py:22-32 | A call is granted without sleeping if and only if what was left and earned since makes a whole token, and what remains is that minus one, up to the capacity. |
| TokenBucket.SteadyCallsNeverWait | src/app/services/ingestion/pipeline.py:14-32 | Over any run a caller that keeps to the rate never waits. |
| TokenBucket.BurstNeverWaits | src/app/services/ingestion/pipeline.py:14-32 | As many calls as there are tokens never wait, however close together. |
| Sizing.SelectCandidates | src/app/domain/risk/sizing.py:129-144 | Collects the candidates that the sizing method takes the minimum of, or nothing when its input is missing. |
| Sizing.LeastOf | src/app/domain/risk/sizing.py:95-96 | The loop finds the first of the smallest candidates. |
| Sizing.ComputeSize | src/app/domain/risk/sizing.py:28-127 | Refines the sizing rule, refusals included. |
| Sizing.AcceptedFitsCaps | src/app/domain/risk/sizing.py:53-118 | With every method an accepted size leaves gross, leverage, symbol and exchange exposure within their caps. |
| Sizing.CapsHoldOverRuns | src/app/domain/risk/sizing.py:53-118 | Over any sequence of sizings at fixed equity every cap stays satisfied. |
| Sizing.LossIsBounded | src/app/domain/risk/sizing.py:53-118 | With a loss-based method the loss at the stop is within the risk amount, and that within the risk per trade. |
| Sizing.LossAlwaysBoundedExactly | src/app/domain/risk/sizing.py:129-144 | That bound holds for all inputs if and only if the method is loss-based. |
| SizingBudget.RefusedExactly | src/app/domain/risk/sizing.py:40-69 | A request is refused if and only if it lacks a price, a stop on the losing side, or sensible lots, minimum, ATR or volatility. |
| SizingBudget.InputIsNeeded | src/app/domain/risk/sizing.py:129-144 | The input of the method is missing exactly when the ATR or volatility that it is based on is not given. |
| SizingBudget.QuantityIsLargest | src/app/domain/risk/sizing.py:101-104 | Lot rounding gives the largest number of lots worth no more than the notional. |
| SizingBudget.SizeIsLargest | src/app/domain/risk/sizing.py:53-127 | An accepted size is the largest in lots that keeps stop loss, loss floor, ATR move and volatility within the budget, as far as the method asks for it, and every exposure within its cap. |
| SizingBudget.AcceptedExactly | src/app/domain/risk/sizing.py:28-127 | A request is accepted if and only if it is well formed, has its input and a budget, and some positive quantity in lots fits and is worth the minimum. |
| Breakers.RunRefines | src/app/domain/risk/manager.py:35-96 | Over every run reasons and their last texts, first trip, resume time and reset flag are those of the trips since the last clear. |
| Breakers.RunRemembersClear | src/app/domain/risk/manager.py:84-90 | Over every run the reset time is when trips were last cleared, by a reset or by a status call that found them over. |
| Breakers.LapsedExactly | src/app/domain/risk/manager.py:61-69 | The three fields the status reads decide exactly whether every such trip is over. |
| Breakers.ActiveExactly | src/app/domain/risk/manager.py:61-77 | Over every run the status is active if and only if some trip since the last clear needs a reset or has not run out. |
| Breakers.ClearedOrStanding | src/app/domain/risk/manager.py:35-96 | Over every run the trips since the last confirmed reset are those that status calls cleared followed by those that still stand. |
| Breakers.ClearedRanOut | src/app/domain/risk/manager.py:61-69 | Status calls never clear a trip that needs a reset, and with times that never fall only trips that are over for good. |
| Breakers.AgreesWithResetsExactly | src/app/domain/risk/manager.py:61-77 | Over every run and at every time the status tells of the trips since the last confirmed reset, cleared or not, if and only if it is not asked before the end of a cleared trip while nothing else halts. |
| Breakers.LazyClearingIsInvisible | src/app/domain/risk/manager.py:61-77 | With times that never fall the status is active if and only if some trip since the last confirmed reset needs a reset or has not run out. |
| Breakers.ClearedTooEarly | src/app/domain/risk/manager.py:61-77 | A run with falling times where the two differ. |
| Breakers.HaltIsKept | src/app/domain/risk/manager.py:35-69 | No run of trips and status calls lifts a halt before its time, and none a halt that needs a reset. |
| BreakerObjects.CircuitBreaker.constructor | src/app/domain/risk/manager.py:24-33 | A new breaker is idle. |
| BreakerObjects.CircuitBreaker.Trip | src/app/domain/risk/manager.py:35-59 | Refines a trip; a cooldown that is not positive is refused and changes nothing. |
| BreakerObjects.CircuitBreaker.Status | src/app/domain/risk/manager.py:61-77 | Refines the status call with its lazy clearing. |
| BreakerObjects.CircuitBreaker.ClearAt | src/app/domain/risk/manager.py:84-90 | Forgets every trip and notes the time. |
| BreakerObjects.CircuitBreaker.Reset | src/app/domain/risk/manager.py:79-82 | Clears if and only if the confirmation is exact; otherwise nothing changes. |
| RiskManagement.NothingFailedExactly | src/app/domain/risk/manager.py:139-199 | The list of refusals is empty if and only if no check fails; what that means for the account is HealthyExactly. |
| RiskManagement.CrossedExactly | src/app/domain/risk/manager.py:151-185 | A halt reason is called for if and only if its limit is crossed on the account itself, such as equity at or below (1 - maximum drawdown) of its peak. |
| RiskManagement.HealthyExactly | src/app/domain/risk/manager.py:139-199 | No check fails if and only if signal and account are healthy: loss, drawdown, streak, quality, spread, divergence, positions and exposures within their limits, in account fields. |
| RiskManagement.AllowedExactly | src/app/domain/risk/manager.py:118-252 | After any run of the breaker an entry is allowed if and only if no check fails, no trip since the last clear still holds and the sizer accepts. |
| RiskManagement.AllowedOnAccount | src/app/domain/risk/manager.py:118-252 | The same on account fields alone: healthy signal and account, no trip that holds, and an accepted size. |
| RiskManagement.ExitsAreAllowed | src/app/domain/risk/manager.py:130-137 | What reduces risk is allowed whatever the breaker and the account, and trips nothing. |
| RiskManagement.EvaluationTrips | src/app/domain/risk/manager.py:201-205 | Evaluating an entry adds exactly the reasons of the limits that are crossed and halts trading until timestamp plus cooldown; without a crossing it only asks for the status. |
| RiskManagement.CrossedLimitHalts | src/app/domain/risk/manager.py:201-216 | After any crossed limit no run without a confirmed reset allows an entry before the cooldown is over. |
| RiskManagement.AllowedEntryFitsCaps | src/app/domain/risk/manager.py:218-252 | An allowed entry carries a size within the gross, leverage, symbol and exchange caps. |
| RiskManagement.HaltedRunAllowsNoEntry | src/app/domain/risk/manager.py:201-216 | A halted breaker allows no entry in any run without a confirmed reset: before its time, or for ever if it needs one. |
| RiskManagement.DrawdownLatches | src/app/domain/risk/manager.py:163-205 | An evaluation with equity at or below (1 - maximum drawdown) of its peak refuses and leaves the breaker in need of a reset for that reason. |
| RiskManagement.LatchedUntilReset | src/app/domain/risk/manager.py:105-216 | After such a drawdown, a kill switch or a critical trip, in any state, no run allows an entry before a confirmed reset. |
| RiskManagement.ResetLifts | src/app/domain/risk/manager.py:115-116 | After a confirmed reset the next entry is decided by its own signal, account and size only. |
| RiskManagement.Strip | src/app/domain/risk/manager.py:105-107 | A kill-switch reason is blank if and only if it is white space throughout; otherwise it starts and ends with other characters. |
| RiskObjects.RiskManager.constructor | src/app/domain/risk/manager.py:100-103 | A new manager has an idle breaker with its own cooldown. |
| RiskObjects.RiskManager.ActivateKillSwitch | src/app/domain/risk/manager.py:105-113 | A blank reason is refused; any other trips the breaker for manual reset. |
| RiskObjects.RiskManager.ResetKillSwitch | src/app/domain/risk/manager.py:115-116 | Resets if and only if confirmed. |
| RiskObjects.RiskManager.TripAll | src/app/domain/risk/manager.py:201-204 | The trip loops refine the run of their trips. |
| RiskObjects.RiskManager.Evaluate | src/app/domain/risk/manager.py:118-252 | Refines the decision and what it does to the breaker. |

## Left out

- Numbers: exact reals stand for decimals and floats; 28-digit rounding, database scale, non-finite values are not modelled.
- Orders and positions are values in the sequences of the matcher and ledger objects; aliasing between holders of one order object is not captured.
- Texts: error and rejection messages are enumerations; order and fill ids are numbers in the order of their zero-padded texts.
- Constructors that raise on malformed records are types that hold only well-formed records; naive timestamps do not exist.
- BacktestObjects.BacktestEngine.Consume: after a raised error only the error is stated, not the half-updated engine, because the run ends there.
- BacktestObjects.BacktestEngine.RecordFill: after a raised error only the error is stated, not the half-updated engine, because the run ends there.
- BacktestObjects.BacktestEngine.Execute: after a raised error only the error is stated, not the half-updated engine, because the run ends there.
- BacktestObjects.BacktestEngine.Match: after a raised error only the error is stated, not the half-updated engine, because the run ends there.
- BacktestObjects.BacktestEngine.OnMarket: after a raised error only the error is stated, not the half-updated engine, because the run ends there.
- BacktestObjects.BacktestEngine.OnCreation: after a raised error only the error is stated, not the half-updated engine, because the run ends there.
- BacktestObjects.BacktestEngine.Dispatch: after a raised error only the error is stated, not the half-updated engine, because the run ends there.
- BacktestObjects.BacktestEngine.ProcessNext: after a raised error only the error is stated, not the half-updated engine, because the run ends there.
- BacktestObjects.BacktestEngine.Liquidate: exits are scheduled in the sorted order of the decision, because the source iterates a set in no fixed order.
- PreflightBindings.InMemoryRepository.CompareAndSet: the lock and database atomicity are taken as one atomic step.
- Gateway.StepKeepsInv: evidence, capability and limit checks of a request are one answer; audit log, approvals, kill switch and cancellations are not modelled; a reconciliation is given the request that was submitted.
- Gateway.TransitionsAreDerived: the failure-reason text of a binding is not modelled.
- PreflightBindings.RowRoundTrip: the failure-reason column is not modelled.
- Gateway.RunKeepsInv: one gateway on its store; several gateways are covered by the chain of versions only.
- GatewayObjects.LiveGateway.PlaceOrder: the retry after a lost compare-and-set is left out, because with one gateway every write is proved to succeed.
- GatewayObjects.LiveGateway.SubmitOrder: the refresh after a lost acknowledgement write is left out for the same reason; the log of order times is not modelled.
- BacktestReturns.BacktestReturnsOnCalmInput: the condition is sufficient; which other inputs also return depends on the prices that positions were opened at.
- TokenBucket.WindowBound: the clock does not run backwards and a sleep is not shorter than asked.
- OrderBookProtocol.EveryYieldIsExplained: decoding, heartbeats, back-off and the sorted listing of a yielded book are not modelled; payload digests are taken as injective; the digest cache holds at least one.
- OrderBookObjects.OrderBookStream.ApplySnapshotAndReplay: draining the socket queue while a REST snapshot loads is not modelled; the stream modelled in the state machine uses no REST loader.
- FundingCarry.CandidateCoversItsCosts: age, finiteness and identity checks of observations come before the modelled economics.
- RiskObjects.RiskManager.Evaluate: refusals are an enumeration; decision ids and the wording of reasons are not modelled.
- No claim that exits are eventually filled: a rejected exit order keeps its pending mark, and an immediate-or-cancel order with zero cap stays live.
- No bound on the depth that several orders take from one snapshot: each sees the full depth, as in the source.
- The leg execution machine: its transitions are unguarded.
- Strategy scoring, features, regimes, validation statistics, exchange REST parsers, persistence beyond bindings, CLI and settings: plain data, input and output, or library calls.

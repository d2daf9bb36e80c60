/**
 The event-driven backtest as a deterministic step on values: pop the next event, update the
 matcher and the ledger, push the events that follow from it.
 */
module Backtest {
  import opened Common
  import opened Execution
  import opened Portfolio
  import opened Events

  // ---------- The matcher ----------

  datatype ExecutionConfig_ = ExecutionConfig(
    participationRate: real,
    passiveFillFraction: real,
    slippageBps: real,
    impactCoefficientBps: real,
    impactPower: nat,
    maximumImpactBps: real)
  {
    predicate Valid() {
      && 0.0 < participationRate <= 1.0
      && 0.0 <= passiveFillFraction <= 1.0
      && slippageBps >= 0.0 && impactCoefficientBps >= 0.0 && maximumImpactBps >= 0.0
      && impactPower >= 1
    }
  }

  type ExecutionConfig = c: ExecutionConfig_ | c.Valid()
    witness ExecutionConfig(1.0, 0.0, 0.0, 0.0, 1, 0.0)

  /** `orders` is the insertion-ordered dictionary of submitted orders. */
  datatype Simulator = Simulator(
    rules: Rulebook,
    config: ExecutionConfig,
    orders: seq<Order>,
    fills: seq<Fill>,
    fillSequence: nat)

  function Submit(s: Simulator, order: Order): Result<Simulator, Error> {
    if exists i :: 0 <= i < |s.orders| && s.orders[i].orderId == order.orderId then Failure(DuplicateOrder)
    else
      var placed :- Normalize(s.rules, order);
      Success(s.(orders := s.orders + [placed]))
  }

  /** The order as it enters the book: quantized, or rejected. */
  function Normalize(rules: Rulebook, order: Order): Result<Order, Error> {
    if order.instrument !in rules then Success(order.Reject(InstrumentRulesUnavailable))
    else
      var r := rules[order.instrument];
      var quantity := QuantizeQuantity(r, order.quantity);
      if quantity <= 0.0 then Success(order.Reject(BelowLotSize))
      else
        var limit :- if order.limitPrice.None? then Success(None)
                     else var p :- QuantizeLimitPrice(r, order.limitPrice.value, order.side); Success(Some(p));
        var sized := order.(quantity := quantity, remaining := quantity, limitPrice := limit);
        if order.postOnly && !order.orderType.Limit? then Success(sized.Reject(PostOnlyRequiresLimit))
        else Success(sized.(status := Submitted))
  }

  predicate Earlier(a: Order, b: Order) {
    a.submittedAt < b.submittedAt || (a.submittedAt == b.submittedAt && a.orderId < b.orderId)
  }

  function InsertCandidate(orders: seq<Order>, sorted: seq<nat>, i: nat): (r: seq<nat>)
    requires i < |orders| && forall k :: 0 <= k < |sorted| ==> sorted[k] < |orders|
    ensures forall k :: 0 <= k < |r| ==> r[k] < |orders|
  {
    if sorted == [] then [i]
    else if Earlier(orders[i], orders[sorted[0]]) then [i] + sorted
    else [sorted[0]] + InsertCandidate(orders, sorted[1..], i)
  }

  /** Indices of the first `n` orders, sorted by (submitted at, order id). */
  function Candidates(orders: seq<Order>, n: nat): (r: seq<nat>)
    requires n <= |orders|
    ensures forall k :: 0 <= k < |r| ==> r[k] < |orders|
  {
    if n == 0 then [] else InsertCandidate(orders, Candidates(orders, n - 1), n - 1)
  }

  predicate IsMarketable(order: Order, snapshot: MarketSnapshot) {
    || order.orderType.Market?
    || (order.limitPrice.Some? && if order.side.Buy? then order.limitPrice.value >= snapshot.ask else order.limitPrice.value <= snapshot.bid)
  }

  predicate PassiveTradeReached(order: Order, snapshot: MarketSnapshot) {
    && order.limitPrice.Some? && snapshot.lastPrice.Some?
    && if order.side.Buy? then snapshot.lastPrice.value <= order.limitPrice.value else snapshot.lastPrice.value >= order.limitPrice.value
  }

  function Power(x: real, n: nat): (r: real)
    ensures x >= 0.0 ==> r >= 0.0
  {
    if n == 0 then 1.0 else x * Power(x, n - 1)
  }

  function ImpactBps(config: ExecutionConfig, quantity: real, depth: real): (r: real)
    ensures quantity >= 0.0 ==> 0.0 <= r <= config.maximumImpactBps
  {
    if depth <= 0.0 then config.maximumImpactBps
    else Min(config.impactCoefficientBps * Power(quantity / depth, config.impactPower), config.maximumImpactBps)
  }

  datatype Decision =
    | Keep(order: Order)
    | Trade(quantity: real, price: real, liquidity: LiquidityRole, spread: real, slippage: real, impact: real)

  /** The part of `available` that the cap admits, in whole lots. */
  function TradableLots(rules: InstrumentRules, cap: real, available: real): (q: real)
    ensures cap > 0.0 && q > 0.0 ==> q <= cap && q <= available && Whole(q, rules.lotSize)
  {
    var lots := QuantizeQuantity(rules, available);
    QuantizeQuantityIsWhole(rules, available);
    QuantizeQuantityIsWhole(rules, Min(cap, lots));
    QuantizeQuantity(rules, Min(cap, lots))
  }

  function Depth(order: Order, snapshot: MarketSnapshot): real {
    if order.side.Buy? then snapshot.askQuantity else snapshot.bidQuantity
  }

  /** The share of the displayed depth that one order may take. */
  function Participation(config: ExecutionConfig, order: Order, snapshot: MarketSnapshot): real {
    Depth(order, snapshot) * config.participationRate
  }

  /** The share of the last trade that one resting order may take. */
  function PassiveShare(config: ExecutionConfig, snapshot: MarketSnapshot): real {
    snapshot.tradeQuantity.GetOr(0.0) * config.passiveFillFraction
  }

  /** The touch moved against the trader by the cost rate. */
  function AdversePrice(top: real, side: Side, rate: real): (r: real)
    ensures top > 0.0 && rate >= 0.0 ==> if side.Buy? then r >= top else r <= top
  {
    var direction := if side.Buy? then 1.0 else -1.0;
    assert top > 0.0 && rate >= 0.0 ==> top * rate >= 0.0;
    assert top * (1.0 + direction * rate) == top + direction * (top * rate);
    top * (1.0 + direction * rate)
  }

  function CostOf(price: real, rate: real, quantity: real): (r: real)
    ensures price >= 0.0 && rate >= 0.0 && quantity >= 0.0 ==> r >= 0.0
  {
    price * rate * quantity
  }

  /** Trading `quantity` at the touch, with slippage and impact against the trader. */
  function TakerDetails(config: ExecutionConfig, order: Order, snapshot: MarketSnapshot, rules: InstrumentRules, quantity: real)
    : Result<Decision, Error>
  {
    var top := snapshot.Top(order.side);
    var slippageRate := config.slippageBps / 10000.0;
    var impactRate := ImpactBps(config, quantity, Depth(order, snapshot)) / 10000.0;
    var price :- QuantizeExecutionPrice(rules, AdversePrice(top, order.side, slippageRate + impactRate), order.side);
    if order.limitPrice.Some? && (if order.side.Buy? then price > order.limitPrice.value else price < order.limitPrice.value)
    then Success(Keep(order))
    else Success(Trade(quantity, price, Taker, CostOf(1.0, Abs(top - snapshot.Mid()), quantity),
                       CostOf(top, slippageRate, quantity), CostOf(top, impactRate, quantity)))
  }

  /** How much can trade at which price, if anything. */
  function MatchDetails(config: ExecutionConfig, order: Order, snapshot: MarketSnapshot, rules: InstrumentRules, cap: real)
    : Result<Decision, Error>
  {
    var marketable := IsMarketable(order, snapshot);
    if order.postOnly && marketable then Success(Keep(order.Cancel(PostOnlyWouldTake)))
    else if order.orderType.Market? || marketable then
      var quantity := TradableLots(rules, cap, Participation(config, order, snapshot));
      if quantity <= 0.0 then Success(Keep(order))
      else TakerDetails(config, order, snapshot, rules, quantity)
    else if !PassiveTradeReached(order, snapshot) then Success(Keep(order))
    else
      var quantity := TradableLots(rules, cap, PassiveShare(config, snapshot));
      if quantity <= 0.0 || order.limitPrice.None? then Success(Keep(order))
      else Success(Trade(quantity, order.limitPrice.value, Maker, 0.0, 0.0, 0.0))
  }

  /** What ends the matching of an order before prices are looked at. */
  function EarlyDecision(order: Order, snapshot: MarketSnapshot, rules: InstrumentRules, cap: real): Option<Order> {
    if order.status.Terminal() || order.instrument != snapshot.instrument then Some(order)
    else if snapshot.timestamp <= order.submittedAt then Some(order)
    else if order.expiresAt.Some? && snapshot.timestamp >= order.expiresAt.value then Some(order.Cancel(OrderExpired, true))
    else if cap <= 0.0 then Some(if order.reduceOnly then order.Cancel(NoLongerReduces) else order)
    else if order.FilledQuantity() == 0.0 && order.quantity * snapshot.Mid() < rules.minimumNotional
    then Some(order.Reject(BelowMinimumNotional))
    else None
  }

  /** Time in force: what is kept of an impatient order is cancelled, and fill-or-kill trades all or nothing. */
  function Conclude(order: Order, details: Decision): Decision {
    match details
    case Keep(o) => Keep(if order.timeInForce.Ioc? || order.timeInForce.Fok? then o.Cancel(TimeInForceUnsatisfied) else o)
    case Trade(quantity, _, _, _, _, _) =>
      if order.timeInForce.Fok? && quantity < order.remaining then Keep(order.Cancel(FillOrKillUnavailable)) else details
  }

  function DecideWithin(config: ExecutionConfig, order: Order, snapshot: MarketSnapshot, rules: InstrumentRules, cap: real)
    : Result<Decision, Error>
  {
    var early := EarlyDecision(order, snapshot, rules, cap);
    if early.Some? then Success(Keep(early.value))
    else
      var details :- MatchDetails(config, order, snapshot, rules, cap);
      Success(Conclude(order, details))
  }

  /** The cap on a fill: what is left of the order and what the ledger permits. */
  function FillCap(ledger: Ledger, order: Order, top: real): real {
    Min(order.remaining, Max(0.0, MaximumFillQuantity(ledger, order, top)))
  }

  /** One order against one snapshot, up to the decision to trade. */
  function Decide(ledger: Ledger, config: ExecutionConfig, order: Order, snapshot: MarketSnapshot, rules: InstrumentRules)
    : Result<Decision, Error>
  {
    DecideWithin(config, order, snapshot, rules, FillCap(ledger, order, snapshot.Top(order.side)))
  }

  function MakeFill(fillId: nat, order: Order, t: Decision, filledAt: int, rules: InstrumentRules): Fill
    requires t.Trade?
  {
    var feeRate := if t.liquidity.Maker? then rules.makerFeeRate else rules.takerFeeRate;
    Fill(fillId, order.orderId, order.signalId, order.instrument, order.side, t.quantity, t.price, t.liquidity,
         order.signalAt, order.createdAt, order.submittedAt, filledAt,
         t.quantity * t.price * feeRate, t.spread, t.slippage, t.impact)
  }

  // ---------- The engine ----------

  datatype EventKind = MarketKind | FundingKind | SignalKind | CreationKind | SubmissionKind

  function KindOf(e: Event): EventKind {
    match e
    case MarketEvent(_) => MarketKind
    case FundingEvent(_, _, _, _) => FundingKind
    case SignalEvent(_) => SignalKind
    case OrderCreationEvent(_, _) => CreationKind
    case OrderSubmissionEvent(_, _) => SubmissionKind
  }

  datatype TraceEntry = TraceEntry(timestamp: int, kind: EventKind)

  datatype RejectedSignal = RejectedSignal(signalId: string, timestamp: int)

  /** Everything but the event queue. */
  datatype Core = Core(
    simulator: Simulator,
    ledger: Ledger,
    orderSequence: nat,
    exitSequence: nat,
    seenSignals: set<string>,
    exitPending: set<Instrument>,
    liquidationPending: set<Instrument>,
    trace: seq<TraceEntry>,
    liquidations: seq<LiquidationDecision>,
    rejectedSignals: seq<RejectedSignal>)

  datatype Effect = Effect(core: Core, pushes: seq<Event>)

  function NewCore(initialCash: real, leverage: real, rules: Rulebook, config: ExecutionConfig): Core
    requires initialCash > 0.0 && leverage > 0.0
  {
    Core(Simulator(rules, config, [], [], 0), NewLedger(initialCash, leverage, rules), 0, 0, {}, {}, {}, [], [], [])
  }

  function WithOrder(c: Core, i: nat, order: Order): Core
    requires i < |c.simulator.orders|
  {
    c.(simulator := c.simulator.(orders := c.simulator.orders[i := order]))
  }

  /** The ledger takes a fill, and a position that it closes has no pending exits any more. */
  function Consume(c: Core, order: Order, fill: Fill): Result<Core, Error> {
    var ledger :- ApplyFill(c.ledger, fill, order.reduceOnly, order.stopLoss, order.takeProfit);
    var closed := if ledger.PositionOf(fill.instrument).IsOpen() then {} else {fill.instrument};
    Success(c.(ledger := ledger, exitPending := c.exitPending - closed, liquidationPending := c.liquidationPending - closed))
  }

  /** The matcher's record of a fill of order `i`. */
  function Book(s: Simulator, i: nat, filled: Order, fill: Fill): Simulator
    requires i < |s.orders|
  {
    s.(orders := s.orders[i := filled], fills := s.fills + [fill], fillSequence := s.fillSequence + 1)
  }

  /** Books a trade: the fill, the order, the ledger, and the remainder of an immediate-or-cancel order. */
  function Execute(c: Core, i: nat, t: Decision, snapshot: MarketSnapshot, rules: InstrumentRules): (r: Result<Core, Error>)
    requires i < |c.simulator.orders| && t.Trade?
    ensures r.Success? ==> |r.value.simulator.orders| == |c.simulator.orders|
  {
    var order := c.simulator.orders[i];
    var fill := MakeFill(c.simulator.fillSequence + 1, order, t, snapshot.timestamp, rules);
    if fill.ConstructionError().Some? then Failure(fill.ConstructionError().value)
    else
      var filled :- order.RecordFill(t.quantity);
      var consumed :- Consume(c.(simulator := Book(c.simulator, i, filled, fill)), order, fill);
      Success(if order.timeInForce.Ioc? && filled.remaining > 0.0
              then WithOrder(consumed, i, filled.Cancel(IocRemainder)) else consumed)
  }

  function MatchOne(c: Core, i: nat, snapshot: MarketSnapshot, rules: InstrumentRules): (r: Result<Core, Error>)
    requires i < |c.simulator.orders|
    ensures r.Success? ==> |r.value.simulator.orders| == |c.simulator.orders|
  {
    var order := c.simulator.orders[i];
    var decision :- Decide(c.ledger, c.simulator.config, order, snapshot, rules);
    match decision
    case Keep(o) => Success(WithOrder(c, i, o))
    case Trade(_, _, _, _, _, _) => Execute(c, i, decision, snapshot, rules)
  }

  function MatchAll(c: Core, candidates: seq<nat>, snapshot: MarketSnapshot, rules: InstrumentRules): Result<Core, Error>
    requires forall k :: 0 <= k < |candidates| ==> candidates[k] < |c.simulator.orders|
    decreases |candidates|
  {
    if candidates == [] then Success(c)
    else
      var c' :- MatchOne(c, candidates[0], snapshot, rules);
      MatchAll(c', candidates[1..], snapshot, rules)
  }

  function Match(c: Core, snapshot: MarketSnapshot): Result<Core, Error> {
    if snapshot.instrument !in c.simulator.rules then Success(c)
    else MatchAll(c, Candidates(c.simulator.orders, |c.simulator.orders|), snapshot, c.simulator.rules[snapshot.instrument])
  }

  function Digits(n: nat): (r: string)
    ensures r != []
  {
    var d := ['0' + (n % 10) as char];
    if n < 10 then d else Digits(n / 10) + d
  }

  function Padded(n: nat): (r: string)
    ensures r != []
  {
    var d := Digits(n);
    if |d| < 12 then seq(12 - |d|, _ => '0') + d else d
  }

  function ExitName(reason: ExitReason): string {
    match reason
    case StopLoss => "stop_loss"
    case TakeProfit => "take_profit"
    case Liquidation => "liquidation"
  }

  function ExitSignalId(reason: ExitReason, n: nat): (r: string)
    ensures r != []
  {
    ExitName(reason) + "-" + Padded(n)
  }

  function ExitSignal(p: Position, timestamp: int, reason: ExitReason, n: nat): Signal
    requires p.IsOpen()
  {
    Signal(timestamp, ExitSignalId(reason, n), p.instrument, if p.quantity > 0.0 then Sell else Buy, Abs(p.quantity),
           OrderType.Market, Gtc, None, 0, 0, false, true, None, None, None)
  }

  function ScheduleExit(c: Core, p: Position, timestamp: int, reason: ExitReason): Effect
    requires p.IsOpen()
  {
    var n := c.exitSequence + 1;
    Effect(c.(exitPending := c.exitPending + {p.instrument}, exitSequence := n),
           [SignalEvent(ExitSignal(p, timestamp, reason, n))])
  }

  /** The stop-loss or take-profit exit of the instrument that just moved. */
  function ProtectiveExit(c: Core, snapshot: MarketSnapshot): Effect {
    var p := c.ledger.PositionOf(snapshot.instrument);
    if p.IsOpen() && snapshot.instrument !in c.exitPending && p.ProtectionTrigger(snapshot).Some?
    then ScheduleExit(c, p, snapshot.timestamp, p.ProtectionTrigger(snapshot).value)
    else Effect(c, [])
  }

  /** Liquidation exits, in the order of the listed instruments. */
  function LiquidationExits(c: Core, instruments: seq<Instrument>, timestamp: int): Effect
    decreases |instruments|
  {
    if instruments == [] then Effect(c, [])
    else
      var p := c.ledger.PositionOf(instruments[0]);
      if p.IsOpen() && p.instrument !in c.exitPending then
        var first := ScheduleExit(c, p, timestamp, Liquidation);
        var rest := LiquidationExits(first.core, instruments[1..], timestamp);
        Effect(rest.core, first.pushes + rest.pushes)
      else LiquidationExits(c, instruments[1..], timestamp)
  }

  function Excluding(instruments: seq<Instrument>, pending: set<Instrument>): seq<Instrument> {
    if instruments == [] then []
    else (if instruments[0] in pending then [] else [instruments[0]]) + Excluding(instruments[1..], pending)
  }

  function CancelIncreasing(orders: seq<Order>): (r: seq<Order>)
    ensures |r| == |orders|
    ensures forall i :: 0 <= i < |orders| ==> r[i] == if orders[i].reduceOnly then orders[i] else orders[i].Cancel(PortfolioLiquidation)
  {
    seq(|orders|, i requires 0 <= i < |orders| => if orders[i].reduceOnly then orders[i] else orders[i].Cancel(PortfolioLiquidation))
  }

  function Liquidate(c: Core, timestamp: int): Effect {
    var decision := DecideLiquidation(c.ledger, timestamp);
    if decision.None? then Effect(c, [])
    else
      var newly := Excluding(decision.value.instruments, c.liquidationPending);
      var logged := if newly == [] then c else
        c.(liquidations := c.liquidations + [decision.value],
           liquidationPending := c.liquidationPending + set x | x in newly);
      var cancelled := logged.(simulator := logged.simulator.(orders := CancelIncreasing(logged.simulator.orders)));
      LiquidationExits(cancelled, newly, timestamp)
  }

  /** Fill prices are execution prices; after matching, valuation returns to the independent mark. */
  function MarkAndMatch(c: Core, snapshot: MarketSnapshot): Result<Core, Error> {
    var matched :- Match(c.(ledger := Mark(c.ledger, snapshot)), snapshot);
    Success(matched.(ledger := Mark(matched.ledger, snapshot)))
  }

  /** Protective exit, liquidation and the portfolio snapshot. */
  function Settle(c: Core, snapshot: MarketSnapshot): Effect {
    var exit := ProtectiveExit(c, snapshot);
    var liquidation := Liquidate(exit.core, snapshot.timestamp);
    Effect(liquidation.core.(ledger := Capture(liquidation.core.ledger, snapshot.timestamp)), exit.pushes + liquidation.pushes)
  }

  function OnMarket(c: Core, snapshot: MarketSnapshot): Result<Effect, Error> {
    var matched :- MarkAndMatch(c, snapshot);
    Success(Settle(matched, snapshot))
  }

  function OnFunding(c: Core, e: Event): Effect
    requires e.FundingEvent?
  {
    Effect(c.(ledger := Capture(ApplyFunding(c.ledger, e.instrument, e.at, e.rate, e.mark), e.at)), [])
  }

  function OnSignal(c: Core, signal: Signal): Effect {
    if signal.signalId in c.seenSignals then
      Effect(c.(rejectedSignals := c.rejectedSignals + [RejectedSignal(signal.signalId, signal.timestamp)]), [])
    else
      Effect(c.(seenSignals := c.seenSignals + {signal.signalId}),
             [OrderCreationEvent(signal.timestamp + signal.calculationDelay, signal)])
  }

  function OrderFor(signal: Signal, orderId: nat, createdAt: int): Order {
    Order(orderId, signal.signalId, signal.instrument, signal.side, signal.quantity, signal.orderType, signal.timeInForce,
          signal.timestamp, createdAt, createdAt + signal.submissionDelay, signal.limitPrice, signal.postOnly, signal.reduceOnly,
          signal.expiresAt, signal.stopLoss, signal.takeProfit, Created, signal.quantity, None)
  }

  function OnCreation(c: Core, createdAt: int, signal: Signal): Result<Effect, Error> {
    var order := OrderFor(signal, c.orderSequence + 1, createdAt);
    if order.ConstructionError().Some? then Failure(order.ConstructionError().value)
    else Success(Effect(c.(orderSequence := c.orderSequence + 1), [OrderSubmissionEvent(order.submittedAt, order)]))
  }

  function Handle(c: Core, e: Event): Result<Effect, Error> {
    var traced := c.(trace := c.trace + [TraceEntry(e.Timestamp(), KindOf(e))]);
    match e
    case MarketEvent(snapshot) => OnMarket(traced, snapshot)
    case FundingEvent(_, _, _, _) => Success(OnFunding(traced, e))
    case SignalEvent(signal) => Success(OnSignal(traced, signal))
    case OrderCreationEvent(at, signal) => OnCreation(traced, at, signal)
    case OrderSubmissionEvent(_, order) =>
      var s :- Submit(traced.simulator, order);
      Success(Effect(traced.(simulator := s), []))
  }

  // ---------- Runs ----------

  datatype State = State(core: Core, queue: Queue)

  function Step(s: State): Result<State, Error>
    requires s.queue.entries != []
  {
    var effect :- Handle(s.core, s.queue.entries[0].event);
    Success(State(effect.core, PushAll(Queue(s.queue.entries[1..], s.queue.sequence), effect.pushes)))
  }

  datatype Outcome = Stopped(state: State, processed: int) | Raised(error: Error)

  predicate Done(s: State, horizon: Option<int>) {
    s.queue.entries == [] || (horizon.Some? && s.queue.entries[0].event.Timestamp() > horizon.value)
  }

  /** Processes events until the queue is empty, or until the next event lies beyond the horizon. */
  function Run(s: State, processed: int, maximum: int, horizon: Option<int>): Outcome
    decreases maximum - processed
  {
    if Done(s, horizon) then Stopped(s, processed)
    else if processed >= maximum then Raised(MaximumEventsExceeded)
    else
      match Step(s)
      case Failure(error) => Raised(error)
      case Success(s') => Run(s', processed + 1, maximum, horizon)
  }

  /** The engine before the run: all external events queued in the given order. */
  function Load(core: Core, events: seq<Event>): State {
    State(core, PushAll(Queue([], 0), events))
  }
}

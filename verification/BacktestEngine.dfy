/**
 The engine, matcher and queue objects. Each method updates its objects in place and is proved
 equal to the function of the same name on values; `BacktestEngine.Run` computes `Backtest.Run`.
 */
module BacktestObjects {
  import opened Common
  import opened Execution
  import opened Portfolio
  import opened PortfolioObjects
  import opened Events
  import opened EventQueues
  import opened Backtest
  import BacktestOrders
  import BacktestSafety

  class ExecutionSimulator {
    const rules: Rulebook
    const config: ExecutionConfig
    var orders: seq<Order>
    var fills: seq<Fill>
    var fillSequence: nat

    function State(): Simulator
      reads this
    {
      Simulator(rules, config, orders, fills, fillSequence)
    }

    constructor (rules: Rulebook, config: ExecutionConfig)
      ensures State() == Simulator(rules, config, [], [], 0)
    {
      this.rules, this.config := rules, config;
      orders, fills, fillSequence := [], [], 0;
    }

    method Submit(order: Order) returns (r: Result<Order, Error>)
      modifies this
      ensures var spec := Backtest.Submit(old(State()), order);
              if spec.Success? then State() == spec.value && r == Success(orders[|orders| - 1])
              else r == Failure(spec.error) && State() == old(State())
    {
      for i := 0 to |orders|
        invariant State() == old(State())
        invariant forall k :: 0 <= k < i ==> orders[k].orderId != order.orderId
      {
        if orders[i].orderId == order.orderId {
          return Failure(DuplicateOrder);
        }
      }
      r := Normalize(rules, order);
      if r.Success? {
        orders := orders + [r.value];
      }
    }

    method Record(i: nat, filled: Order, fill: Fill)
      requires i < |orders|
      modifies this
      ensures State() == Book(old(State()), i, filled, fill)
    {
      fillSequence := fillSequence + 1;
      orders := orders[i := filled];
      fills := fills + [fill];
    }

    method CancelIncreasing()
      modifies this
      ensures State() == old(State()).(orders := Backtest.CancelIncreasing(old(orders)))
    {
      for i := 0 to |orders|
        invariant State() == old(State()).(orders := orders)
        invariant |orders| == |old(orders)|
        invariant forall k :: 0 <= k < i ==> orders[k] == if old(orders)[k].reduceOnly then old(orders)[k] else old(orders)[k].Cancel(PortfolioLiquidation)
        invariant forall k :: i <= k < |orders| ==> orders[k] == old(orders)[k]
      {
        if !orders[i].reduceOnly {
          orders := orders[i := orders[i].Cancel(PortfolioLiquidation)];
        }
      }
      assert orders == Backtest.CancelIncreasing(old(orders));
    }
  }

  lemma {:induction false} PushAllAppends(queue: Queue, a: seq<Event>, b: seq<Event>)
    ensures PushAll(queue, a + b) == PushAll(PushAll(queue, a), b)
    decreases |a|
  {
    if a == [] {
      assert a + b == b;
    } else {
      PushAllAppends(Push(queue, a[0]), a[1..], b);
      assert (a + b)[1..] == a[1..] + b;
    }
  }

  datatype BacktestResult = BacktestResult(
    processed: int,
    trace: seq<TraceEntry>,
    orders: seq<Order>,
    fills: seq<Fill>,
    snapshots: seq<PortfolioSnapshot>,
    funding: seq<FundingRecord>,
    liquidations: seq<LiquidationDecision>,
    rejectedSignals: seq<RejectedSignal>,
    finalCash: real,
    finalEquity: real)

  function Report(c: Core, processed: int): BacktestResult {
    BacktestResult(processed, c.trace, c.simulator.orders, c.simulator.fills, c.ledger.snapshots,
                   c.ledger.fundingRecords, c.liquidations, c.rejectedSignals, c.ledger.cash, c.ledger.Equity())
  }

  /** The report of a returned backtest: as many trace entries as processed events, the fills of the ledger, and a
      final equity explained by initial cash, fills at the last marks, fees and funding. */
  lemma {:induction false} ReportReconciles(core: Core, events: seq<Event>, maximum: int)
    requires BacktestSafety.Inv(core) && core.trace == []
    requires Backtest.Run(Load(core, events), 0, maximum, None).Stopped?
    ensures var r := Backtest.Run(Load(core, events), 0, maximum, None);
            var c, report := r.state.core, Report(r.state.core, r.processed);
            && |report.trace| == report.processed && report.fills == c.ledger.fills && report.finalCash == c.ledger.cash
            && report.finalEquity == c.ledger.initialCash + TradingValue(report.fills, c.ledger.positions)
                                     - Fees(report.fills) + FundingTotal(report.funding)
  {
    BacktestSafety.ReturnedRunReconciles(core, events, maximum);
    BacktestOrders.TraceCountsEvents(Load(core, events), 0, maximum, None);
  }

  class BacktestEngine {
    const queue: EventQueue
    const execution: ExecutionSimulator
    const portfolio: PortfolioLedger
    var orderSequence: nat
    var exitSequence: nat
    var seenSignals: set<string>
    var exitPending: set<Instrument>
    var liquidationPending: set<Instrument>
    var trace: seq<TraceEntry>
    var liquidations: seq<LiquidationDecision>
    var rejectedSignals: seq<RejectedSignal>

    ghost predicate Valid()
      reads this, queue, execution, portfolio
    {
      queue.Valid() && portfolio.Valid()
    }

    function Core(): Backtest.Core
      requires portfolio.Valid()
      reads this, execution, portfolio
    {
      Backtest.Core(execution.State(), portfolio.State(), orderSequence, exitSequence, seenSignals,
                    exitPending, liquidationPending, trace, liquidations, rejectedSignals)
    }

    ghost function State(): Backtest.State
      requires Valid()
      reads this, queue, execution, portfolio
    {
      Backtest.State(Core(), queue.State())
    }

    constructor (initialCash: real, rules: Rulebook, leverage: real, config: ExecutionConfig)
      requires initialCash > 0.0 && leverage > 0.0
      ensures Valid() && fresh(queue) && fresh(execution) && fresh(portfolio)
      ensures State() == Load(NewCore(initialCash, leverage, rules, config), [])
    {
      queue := new EventQueue();
      execution := new ExecutionSimulator(rules, config);
      portfolio := new PortfolioLedger(initialCash, leverage, rules);
      orderSequence, exitSequence, seenSignals, exitPending, liquidationPending := 0, 0, {}, {}, {};
      trace, liquidations, rejectedSignals := [], [], [];
    }

    method AddEvents(events: seq<Event>)
      requires Valid()
      modifies queue
      ensures Valid() && Core() == old(Core())
      ensures queue.State() == PushAll(old(queue.State()), events)
    {
      ghost var before := queue.State();
      for i := 0 to |events|
        invariant Valid() && Core() == old(Core())
        invariant queue.State() == PushAll(before, events[..i])
      {
        queue.Push(events[i]);
        PushAllAppends(before, events[..i], [events[i]]);
        assert events[..i + 1] == events[..i] + [events[i]];
      }
      assert events[..|events|] == events;
    }

    /** The fill consumer that the engine hands to the matcher. */
    method Consume(order: Order, fill: Fill) returns (error: Option<Error>)
      requires Valid()
      modifies this`exitPending, this`liquidationPending, portfolio
      ensures Valid()
      ensures var spec := Backtest.Consume(old(Core()), order, fill);
              if spec.Success? then error.None? && Core() == spec.value else error == Some(spec.error)
    {
      var realized := portfolio.ApplyFill(fill, order.reduceOnly, order.stopLoss, order.takeProfit);
      if realized.Failure? {
        return Some(realized.error);
      }
      if !Find(portfolio.positions, fill.instrument).IsOpen() {
        exitPending := exitPending - {fill.instrument};
        liquidationPending := liquidationPending - {fill.instrument};
      }
      return None;
    }

    /** Records a fill in the matcher and hands it to the consumer. */
    method RecordFill(i: nat, order: Order, filled: Order, fill: Fill) returns (error: Option<Error>)
      requires Valid() && i < |execution.orders|
      modifies this, execution, portfolio
      ensures Valid() && queue.State() == old(queue.State())
      ensures var spec := Backtest.Consume(old(Core()).(simulator := Book(old(execution.State()), i, filled, fill)), order, fill);
              if spec.Success? then error.None? && Core() == spec.value else error == Some(spec.error)
    {
      execution.Record(i, filled, fill);
      error := Consume(order, fill);
    }

    /** Books one trade through the fill, the order, the ledger and the pending exits. */
    method Execute(i: nat, t: Decision, snapshot: MarketSnapshot, rules: InstrumentRules) returns (error: Option<Error>)
      requires Valid() && i < |execution.orders| && t.Trade?
      modifies this, execution, portfolio
      ensures Valid() && queue.State() == old(queue.State())
      ensures var spec := Backtest.Execute(old(Core()), i, t, snapshot, rules);
              if spec.Success? then error.None? && Core() == spec.value else error == Some(spec.error)
    {
      var order := execution.orders[i];
      var fill := MakeFill(execution.fillSequence + 1, order, t, snapshot.timestamp, rules);
      if fill.ConstructionError().Some? {
        return fill.ConstructionError();
      }
      var filled := order.RecordFill(t.quantity);
      if filled.Failure? {
        return Some(filled.error);
      }
      error := RecordFill(i, order, filled.value, fill);
      if error.Some? {
        return;
      }
      if order.timeInForce.Ioc? && filled.value.remaining > 0.0 {
        execution.orders := execution.orders[i := filled.value.Cancel(IocRemainder)];
      }
    }

    /** The matching loop, with the cap and the fill consumer of the engine. */
    method Match(snapshot: MarketSnapshot) returns (error: Option<Error>)
      requires Valid()
      modifies this, execution, portfolio
      ensures Valid() && queue.State() == old(queue.State())
      ensures var spec := Backtest.Match(old(Core()), snapshot);
              if spec.Success? then error.None? && Core() == spec.value else error == Some(spec.error)
    {
      if snapshot.instrument !in execution.rules {
        return None;
      }
      var rules := execution.rules[snapshot.instrument];
      var candidates := Candidates(execution.orders, |execution.orders|);
      for k := 0 to |candidates|
        invariant Valid() && queue.State() == old(queue.State())
        invariant forall j :: k <= j < |candidates| ==> candidates[j] < |execution.orders|
        invariant MatchAll(Core(), candidates[k..], snapshot, rules) == Backtest.Match(old(Core()), snapshot)
      {
        var i := candidates[k];
        assert candidates[k..][0] == i && candidates[k..][1..] == candidates[k + 1..];
        var decision := Decide(portfolio.State(), execution.config, execution.orders[i], snapshot, rules);
        if decision.Failure? {
          return Some(decision.error);
        }
        if decision.value.Keep? {
          execution.orders := execution.orders[i := decision.value.order];
        } else {
          error := Execute(i, decision.value, snapshot, rules);
          if error.Some? {
            return;
          }
        }
      }
      return None;
    }

    method ScheduleExit(position: Position, timestamp: int, reason: ExitReason)
      requires Valid() && position.IsOpen()
      modifies this`exitPending, this`exitSequence, queue
      ensures var spec := Backtest.ScheduleExit(old(Core()), position, timestamp, reason);
              Valid() && Core() == spec.core && queue.State() == PushAll(old(queue.State()), spec.pushes)
    {
      ghost var pushes := Backtest.ScheduleExit(Core(), position, timestamp, reason).pushes;
      exitPending := exitPending + {position.instrument};
      exitSequence := exitSequence + 1;
      queue.Push(SignalEvent(ExitSignal(position, timestamp, reason, exitSequence)));
      assert pushes[1..] == [];
    }

    method LiquidationExits(instruments: seq<Instrument>, timestamp: int)
      requires Valid()
      modifies this`exitPending, this`exitSequence, queue
      ensures var spec := Backtest.LiquidationExits(old(Core()), instruments, timestamp);
              Valid() && Core() == spec.core && queue.State() == PushAll(old(queue.State()), spec.pushes)
    {
      ghost var spec := Backtest.LiquidationExits(Core(), instruments, timestamp);
      for k := 0 to |instruments|
        invariant Valid()
        invariant Backtest.LiquidationExits(Core(), instruments[k..], timestamp).core == spec.core
        invariant PushAll(queue.State(), Backtest.LiquidationExits(Core(), instruments[k..], timestamp).pushes)
               == PushAll(old(queue.State()), spec.pushes)
      {
        assert instruments[k..][0] == instruments[k] && instruments[k..][1..] == instruments[k + 1..];
        var position := Find(portfolio.positions, instruments[k]);
        if position.IsOpen() && instruments[k] !in exitPending {
          ghost var exit := Backtest.ScheduleExit(Core(), position, timestamp, Liquidation);
          PushAllAppends(queue.State(), exit.pushes, Backtest.LiquidationExits(exit.core, instruments[k + 1..], timestamp).pushes);
          ScheduleExit(position, timestamp, Liquidation);
        }
      }
    }

    method Liquidate(timestamp: int)
      requires Valid()
      modifies this, execution, queue
      ensures var spec := Backtest.Liquidate(old(Core()), timestamp);
              Valid() && Core() == spec.core && queue.State() == PushAll(old(queue.State()), spec.pushes)
    {
      var decision := DecideLiquidation(portfolio.State(), timestamp);
      if decision.Some? {
        var newly := Excluding(decision.value.instruments, liquidationPending);
        if newly != [] {
          liquidations := liquidations + [decision.value];
          liquidationPending := liquidationPending + set x | x in newly;
        }
        execution.CancelIncreasing();
        LiquidationExits(newly, timestamp);
      }
    }

    method Settle(snapshot: MarketSnapshot)
      requires Valid()
      modifies this, execution, portfolio, queue
      ensures var spec := Backtest.Settle(old(Core()), snapshot);
              Valid() && Core() == spec.core && queue.State() == PushAll(old(queue.State()), spec.pushes)
    {
      ghost var before, exit := queue.State(), ProtectiveExit(Core(), snapshot);
      var position := Find(portfolio.positions, snapshot.instrument);
      if position.IsOpen() && snapshot.instrument !in exitPending {
        var trigger := position.ProtectionTrigger(snapshot);
        if trigger.Some? {
          ScheduleExit(position, snapshot.timestamp, trigger.value);
        }
      }
      assert Core() == exit.core && queue.State() == PushAll(before, exit.pushes);
      PushAllAppends(before, exit.pushes, Backtest.Liquidate(exit.core, snapshot.timestamp).pushes);
      Liquidate(snapshot.timestamp);
      portfolio.Capture(snapshot.timestamp);
    }

    method OnMarket(snapshot: MarketSnapshot) returns (error: Option<Error>)
      requires Valid()
      modifies this, execution, portfolio, queue
      ensures Valid()
      ensures var spec := Backtest.OnMarket(old(Core()), snapshot);
              if spec.Success? then error.None? && Core() == spec.value.core && queue.State() == PushAll(old(queue.State()), spec.value.pushes)
              else error == Some(spec.error)
    {
      portfolio.Mark(snapshot);
      error := Match(snapshot);
      if error.Some? {
        return;
      }
      portfolio.Mark(snapshot);
      Settle(snapshot);
    }

    method Dispatch(e: Event) returns (error: Option<Error>)
      requires Valid()
      modifies this, execution, portfolio, queue
      ensures Valid()
      ensures var spec := Handle(old(Core()), e);
              if spec.Success? then error.None? && Core() == spec.value.core && queue.State() == PushAll(old(queue.State()), spec.value.pushes)
              else error == Some(spec.error)
    {
      trace := trace + [TraceEntry(e.Timestamp(), KindOf(e))];
      error := None;
      match e
      case MarketEvent(snapshot) =>
        error := OnMarket(snapshot);
      case FundingEvent(at, instrument, rate, mark) =>
        portfolio.ApplyFunding(instrument, at, rate, mark);
        portfolio.Capture(at);
      case SignalEvent(signal) =>
        OnSignal(signal);
      case OrderCreationEvent(at, signal) =>
        error := OnCreation(at, signal);
      case OrderSubmissionEvent(at, order) =>
        var submitted := execution.Submit(order);
        error := if submitted.Failure? then Some(submitted.error) else None;
    }

    method OnSignal(signal: Signal)
      requires Valid()
      modifies this, queue
      ensures var spec := Backtest.OnSignal(old(Core()), signal);
              Valid() && Core() == spec.core && queue.State() == PushAll(old(queue.State()), spec.pushes)
    {
      ghost var pushes := Backtest.OnSignal(Core(), signal).pushes;
      if signal.signalId in seenSignals {
        rejectedSignals := rejectedSignals + [RejectedSignal(signal.signalId, signal.timestamp)];
      } else {
        seenSignals := seenSignals + {signal.signalId};
        queue.Push(OrderCreationEvent(signal.timestamp + signal.calculationDelay, signal));
        assert pushes[1..] == [];
      }
    }

    method OnCreation(at: int, signal: Signal) returns (error: Option<Error>)
      requires Valid()
      modifies this, queue
      ensures Valid()
      ensures var spec := Backtest.OnCreation(old(Core()), at, signal);
              if spec.Success? then error.None? && Core() == spec.value.core && queue.State() == PushAll(old(queue.State()), spec.value.pushes)
              else error == Some(spec.error)
    {
      orderSequence := orderSequence + 1;
      var order := OrderFor(signal, orderSequence, at);
      if order.ConstructionError().Some? {
        return order.ConstructionError();
      }
      queue.Push(OrderSubmissionEvent(order.submittedAt, order));
      assert [OrderSubmissionEvent(order.submittedAt, order)][1..] == [];
      return None;
    }

    /** Pops the next event and dispatches it. */
    method ProcessNext() returns (error: Option<Error>)
      requires Valid() && !queue.IsEmpty()
      modifies this, execution, portfolio, queue
      ensures Valid() && old(queue.contents) != []
      ensures var spec := Step(old(State()));
              if spec.Success? then error.None? && State() == spec.value else error == Some(spec.error)
    {
      var event := queue.Pop();
      error := Dispatch(event);
    }

    method Run(maximumEvents: int) returns (r: Result<BacktestResult, Error>)
      requires Valid()
      modifies this, execution, portfolio, queue
      ensures Valid()
      ensures match Backtest.Run(old(State()), 0, maximumEvents, None)
              case Stopped(final, processed) => r == Success(Report(final.core, processed)) && State() == final
              case Raised(error) => r == Failure(error)
    {
      var processed := 0;
      while !queue.IsEmpty()
        invariant Valid()
        invariant Backtest.Run(State(), processed, maximumEvents, None) == Backtest.Run(old(State()), 0, maximumEvents, None)
        decreases maximumEvents - processed
      {
        if processed >= maximumEvents {
          return Failure(MaximumEventsExceeded);
        }
        processed := processed + 1;
        var error := ProcessNext();
        if error.Some? {
          return Failure(error.value);
        }
      }
      return Success(Report(Core(), processed));
    }
  }
}

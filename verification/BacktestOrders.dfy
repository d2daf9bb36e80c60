/** From signal to order to exit: what an order takes over from its signal, and when exits are scheduled. */
module BacktestOrders {
  import opened Common
  import opened Execution
  import opened Portfolio
  import opened Events
  import opened Backtest
  import PortfolioFlows

  // ---------- Signals and orders ----------

  /** An order with the terms of a signal, submitted after both of its delays. */
  predicate TermsOf(signal: Signal, o: Order) {
    && o.signalId == signal.signalId && o.instrument == signal.instrument && o.side == signal.side
    && o.orderType == signal.orderType && o.timeInForce == signal.timeInForce && o.expiresAt == signal.expiresAt
    && o.postOnly == signal.postOnly && o.reduceOnly == signal.reduceOnly
    && o.stopLoss == signal.stopLoss && o.takeProfit == signal.takeProfit
    && o.signalAt == signal.timestamp && o.createdAt == signal.timestamp + signal.calculationDelay
    && o.submittedAt == signal.timestamp + signal.calculationDelay + signal.submissionDelay
  }

  /** The book takes an order of a known instrument for at least a lot; a post-only one must have a limit. */
  predicate Placeable(rules: Rulebook, signal: Signal) {
    && signal.instrument in rules && signal.quantity >= rules[signal.instrument].lotSize
    && (signal.postOnly ==> signal.orderType.Limit?)
  }

  /** Rounded down to lots by less than one, and its limit away from the market by less than a tick. */
  ghost predicate Rounds(rules: InstrumentRules, signal: Signal, o: Order) {
    && Whole(o.quantity, rules.lotSize) && signal.quantity - rules.lotSize < o.quantity <= signal.quantity
    && o.remaining == o.quantity && (o.limitPrice.Some? <==> signal.limitPrice.Some?)
    && (signal.limitPrice.Some? ==>
          var asked, limit := signal.limitPrice.value, o.limitPrice.value;
          && Whole(limit, rules.tickSize)
          && if signal.side.Buy? then asked - rules.tickSize < limit <= asked else asked <= limit < asked + rules.tickSize)
  }

  lemma {:induction false} ALotRemains(rules: InstrumentRules, quantity: real)
    requires quantity > 0.0
    ensures QuantizeQuantity(rules, quantity) > 0.0 <==> quantity >= rules.lotSize
  {
    var lot := rules.lotSize;
    RoundDownIsFloor(quantity, lot);
    assert Units(0, lot) == 0.0;
    var k: int :| RoundDown(quantity, lot) == Units(k, lot);
    if k >= 1 {
      AUnitApart(0, k, lot);
    } else if k < 0 {
      AUnitApart(k, 0, lot);
    }
  }

  lemma {:induction false} NormalizeRounds(rules: Rulebook, signal: Signal, o: Order)
    requires TermsOf(signal, o) && o.quantity == o.remaining == signal.quantity && o.limitPrice == signal.limitPrice && o.status.Created?
    requires Normalize(rules, o).Success?
    ensures var placed := Normalize(rules, o).value;
            && TermsOf(signal, placed)
            && (placed.status.Submitted? <==> Placeable(rules, signal)) && (placed.status.Rejected? <==> !Placeable(rules, signal))
            && (Placeable(rules, signal) ==> Rounds(rules[signal.instrument], signal, placed))
  {
    if o.instrument in rules {
      var r := rules[o.instrument];
      ALotRemains(r, o.quantity);
      RoundDownIsFloor(o.quantity, r.lotSize);
      if o.limitPrice.Some? && o.limitPrice.value > 0.0 {
        RoundingIsConservative(r, o.limitPrice.value, o.side);
      }
    }
  }

  lemma {:induction false} SignalIsTaken(c: Core, signal: Signal)
    ensures var e := Handle(c, SignalEvent(signal)).value;
            if signal.signalId in c.seenSignals
            then e.pushes == [] && e.core.rejectedSignals == c.rejectedSignals + [RejectedSignal(signal.signalId, signal.timestamp)]
            else && signal.signalId in e.core.seenSignals
                 && e.pushes == [OrderCreationEvent(signal.timestamp + signal.calculationDelay, signal)]
  {
  }

  /** A creation event pushes the submission of its order. */
  lemma {:induction false} CreationSubmits(c: Core, at: int, signal: Signal)
    requires Handle(c, OrderCreationEvent(at, signal)).Success?
    ensures var order := OrderFor(signal, c.orderSequence + 1, at);
            && order.ConstructionError().None?
            && Handle(c, OrderCreationEvent(at, signal)).value.pushes == [OrderSubmissionEvent(order.submittedAt, order)]
  {
  }

  lemma {:induction false} SubmissionIsPlaced(c: Core, signal: Signal, order: Order)
    requires order == OrderFor(signal, order.orderId, signal.timestamp + signal.calculationDelay) && order.ConstructionError().None?
    ensures IsPlaced(c, OrderSubmissionEvent(order.submittedAt, order), signal)
  {
    SubmissionPlaces(c, signal, order);
  }

  /** Handled at `c3`, the submission places the order of the signal. */
  ghost predicate IsPlaced(c3: Core, submission: Event, signal: Signal) {
    Handle(c3, submission).Success? ==> Places(c3.simulator, Handle(c3, submission).value.core.simulator, signal)
  }

  /** Handled at `c2`, the creation leads to one submission, after the submission delay, that places the order. */
  ghost predicate BecomesOrder(c2: Core, c3: Core, creation: Event, signal: Signal) {
    Handle(c2, creation).Success? ==>
      var submitted := Handle(c2, creation).value;
      && |submitted.pushes| == 1
      && submitted.pushes[0].Timestamp() == signal.timestamp + signal.calculationDelay + signal.submissionDelay
      && IsPlaced(c3, submitted.pushes[0], signal)
  }

  lemma {:induction false} CreationBecomesOrder(c2: Core, c3: Core, at: int, signal: Signal)
    requires at == signal.timestamp + signal.calculationDelay
    ensures BecomesOrder(c2, c3, OrderCreationEvent(at, signal), signal)
  {
    if Handle(c2, OrderCreationEvent(at, signal)).Success? {
      CreationSubmits(c2, at, signal);
      SubmissionIsPlaced(c3, signal, OrderFor(signal, c2.orderSequence + 1, at));
    }
  }

  /**
   A new signal becomes one order with its terms, whatever else happens between its three events: created
   after the calculation delay, submitted after the submission delay, rounded in the trader's disfavour,
   and live exactly if the book can take it. A signal seen before becomes nothing and is recorded.
   */
  lemma {:induction false} SignalBecomesOrder(c1: Core, c2: Core, c3: Core, signal: Signal)
    ensures signal.signalId in c1.seenSignals ==>
              var e := Handle(c1, SignalEvent(signal)).value;
              && e.pushes == []
              && e.core.rejectedSignals == c1.rejectedSignals + [RejectedSignal(signal.signalId, signal.timestamp)]
    ensures signal.signalId !in c1.seenSignals ==>
              var created := Handle(c1, SignalEvent(signal)).value;
              && signal.signalId in created.core.seenSignals && |created.pushes| == 1
              && created.pushes[0].Timestamp() == signal.timestamp + signal.calculationDelay
              && BecomesOrder(c2, c3, created.pushes[0], signal)
  {
    SignalIsTaken(c1, signal);
    CreationBecomesOrder(c2, c3, signal.timestamp + signal.calculationDelay, signal);
  }

  ghost predicate Places(s: Simulator, s': Simulator, signal: Signal) {
    && |s'.orders| == |s.orders| + 1 && s'.orders[..|s.orders|] == s.orders
    && var placed := s'.orders[|s.orders|];
    && TermsOf(signal, placed)
    && (placed.status.Submitted? <==> Placeable(s.rules, signal)) && (placed.status.Rejected? <==> !Placeable(s.rules, signal))
    && (Placeable(s.rules, signal) ==> Rounds(s.rules[signal.instrument], signal, placed))
  }

  lemma {:induction false} SubmissionPlaces(c: Core, signal: Signal, order: Order)
    requires order == OrderFor(signal, order.orderId, signal.timestamp + signal.calculationDelay) && order.ConstructionError().None?
    ensures var r := Submit(c.simulator, order); r.Success? ==> Places(c.simulator, r.value, signal)
  {
    if Normalize(c.simulator.rules, order).Success? {
      NormalizeRounds(c.simulator.rules, signal, order);
    }
  }

  // ---------- Protective exits ----------

  /** A market order, for now, that closes the whole position and nothing else. */
  predicate Closes(e: Event, p: Position, timestamp: int) {
    && e.SignalEvent? && e.signal.timestamp == timestamp && e.signal.instrument == p.instrument
    && e.signal.reduceOnly && e.signal.orderType.Market? && e.signal.calculationDelay == e.signal.submissionDelay == 0
    && p.ReducedBy(e.signal.side) && e.signal.quantity == Abs(p.quantity)
  }

  /** The position's stop or target is hit: selling a long at the bid, or buying back a short at the ask. */
  predicate Hit(p: Position, snapshot: MarketSnapshot) {
    || (p.quantity > 0.0 && p.stopLoss.Some? && snapshot.bid <= p.stopLoss.value)
    || (p.quantity > 0.0 && p.takeProfit.Some? && snapshot.bid >= p.takeProfit.value)
    || (p.quantity < 0.0 && p.stopLoss.Some? && snapshot.ask >= p.stopLoss.value)
    || (p.quantity < 0.0 && p.takeProfit.Some? && snapshot.ask <= p.takeProfit.value)
  }

  /** A protective exit is scheduled exactly when stop or target is hit and no exit is pending. */
  lemma {:induction false} ProtectiveExitExactly(c: Core, snapshot: MarketSnapshot)
    ensures var p, e := c.ledger.PositionOf(snapshot.instrument), ProtectiveExit(c, snapshot);
            && (e.pushes != [] <==> Hit(p, snapshot) && snapshot.instrument !in c.exitPending)
            && (e.pushes != [] ==> |e.pushes| == 1 && Closes(e.pushes[0], p, snapshot.timestamp) && snapshot.instrument in e.core.exitPending)
            && (e.pushes == [] ==> e.core == c)
  {
  }

  lemma {:induction false} SettlePushes(c: Core, snapshot: MarketSnapshot)
    ensures ProtectiveExit(c, snapshot).pushes <= Settle(c, snapshot).pushes
    ensures ProtectiveExit(c, snapshot).core.exitPending <= Settle(c, snapshot).core.exitPending
  {
    ExitPendingGrows(ProtectiveExit(c, snapshot).core, snapshot.timestamp);
  }

  lemma {:induction false} ExitPendingGrows(c: Core, timestamp: int)
    ensures c.exitPending <= Liquidate(c, timestamp).core.exitPending
  {
    var decision := DecideLiquidation(c.ledger, timestamp);
    if decision.Some? {
      var newly := Excluding(decision.value.instruments, c.liquidationPending);
      var logged := if newly == [] then c else
        c.(liquidations := c.liquidations + [decision.value],
           liquidationPending := c.liquidationPending + set x | x in newly);
      var cancelled := logged.(simulator := logged.simulator.(orders := CancelIncreasing(logged.simulator.orders)));
      LiquidationExitsKeep(cancelled, newly, timestamp);
    }
  }

  lemma {:induction false} LiquidationExitsKeep(c: Core, instruments: seq<Instrument>, timestamp: int)
    ensures var e := LiquidationExits(c, instruments, timestamp);
            && c.exitPending <= e.core.exitPending && e.core.ledger == c.ledger
            && forall x :: x in e.core.exitPending ==> x in c.exitPending || c.ledger.PositionOf(x).IsOpen()
    decreases |instruments|
  {
    if instruments != [] {
      var p := c.ledger.PositionOf(instruments[0]);
      if p.IsOpen() && p.instrument !in c.exitPending {
        LiquidationExitsKeep(ScheduleExit(c, p, timestamp, Liquidation).core, instruments[1..], timestamp);
      } else {
        LiquidationExitsKeep(c, instruments[1..], timestamp);
      }
    }
  }

  /**
   After a market event the position that remains is valued at the snapshot's price, and if its stop or
   target is hit an exit for all of it is pending: scheduled now unless one was pending already.
   */
  lemma {:induction false} MarketEventProtects(c: Core, snapshot: MarketSnapshot)
    requires MarkAndMatch(c, snapshot).Success?
    ensures OnMarket(c, snapshot).Success?
    ensures var p, m, e := MarkAndMatch(c, snapshot).value.ledger.PositionOf(snapshot.instrument), MarkAndMatch(c, snapshot).value, OnMarket(c, snapshot).value;
            && (p.IsOpen() ==> p.mark == snapshot.ValuationPrice())
            && (Hit(p, snapshot) ==> snapshot.instrument in e.core.exitPending)
            && (Hit(p, snapshot) && snapshot.instrument !in m.exitPending ==> |e.pushes| > 0 && Closes(e.pushes[0], p, snapshot.timestamp))
  {
    var m := MarkAndMatch(c, snapshot).value;
    var matched := Match(c.(ledger := Mark(c.ledger, snapshot)), snapshot).value;
    assert m.ledger == Mark(matched.ledger, snapshot);
    PortfolioFlows.MarkValues(matched.ledger, snapshot, snapshot.instrument);
    ProtectiveExitExactly(m, snapshot);
    SettlePushes(m, snapshot);
  }

  // ---------- Pending exits ----------

  /** Every pending exit is for a position that is open. */
  ghost predicate PendingIsOpen(c: Core) {
    forall x :: x in c.exitPending ==> c.ledger.PositionOf(x).IsOpen()
  }

  lemma {:induction false} MarkKeepsOpen(l: Ledger, snapshot: MarketSnapshot, x: Instrument)
    ensures Mark(l, snapshot).PositionOf(x).quantity == l.PositionOf(x).quantity
  {
    PortfolioFlows.MarkValues(l, snapshot, x);
  }

  lemma {:induction false} FundingKeepsOpen(l: Ledger, instrument: Instrument, at: int, rate: real, mark: real, x: Instrument)
    requires mark > 0.0
    ensures ApplyFunding(l, instrument, at, rate, mark).PositionOf(x).quantity == l.PositionOf(x).quantity
  {
    var p := l.PositionOf(instrument);
    PutLooksUp(l.positions, p.(funding := p.funding + FundingAmount(p.quantity, rate, mark)), x);
  }

  lemma {:induction false} FillElsewhere(l: Ledger, fill: Fill, reduceOnly: bool, stopLoss: Option<real>, takeProfit: Option<real>, x: Instrument)
    requires ApplyFill(l, fill, reduceOnly, stopLoss, takeProfit).Success? && x != fill.instrument
    ensures ApplyFill(l, fill, reduceOnly, stopLoss, takeProfit).value.PositionOf(x) == l.PositionOf(x)
  {
    PutLooksUp(l.positions, Candidate(l.PositionOf(fill.instrument), fill, reduceOnly, stopLoss, takeProfit).value, x);
  }

  lemma {:induction false} ConsumeKeepsPending(c: Core, order: Order, fill: Fill)
    requires PendingIsOpen(c) && Consume(c, order, fill).Success?
    ensures PendingIsOpen(Consume(c, order, fill).value)
  {
    var c' := Consume(c, order, fill).value;
    forall x | x in c'.exitPending
      ensures c'.ledger.PositionOf(x).IsOpen()
    {
      if x != fill.instrument {
        FillElsewhere(c.ledger, fill, order.reduceOnly, order.stopLoss, order.takeProfit, x);
      }
    }
  }

  lemma {:induction false} ExecuteKeepsPending(c: Core, i: nat, t: Decision, snapshot: MarketSnapshot, rules: InstrumentRules)
    requires PendingIsOpen(c) && i < |c.simulator.orders| && t.Trade? && Execute(c, i, t, snapshot, rules).Success?
    ensures PendingIsOpen(Execute(c, i, t, snapshot, rules).value)
  {
    var order := c.simulator.orders[i];
    var fill := MakeFill(c.simulator.fillSequence + 1, order, t, snapshot.timestamp, rules);
    var booked := c.(simulator := Book(c.simulator, i, order.RecordFill(t.quantity).value, fill));
    assert PendingIsOpen(booked);
    ConsumeKeepsPending(booked, order, fill);
  }

  /** A booked trade that leaves its position open hands it the stop and the target of the order. */
  lemma {:induction false} TradeHandsProtection(c: Core, i: nat, t: Decision, snapshot: MarketSnapshot, rules: InstrumentRules)
    requires i < |c.simulator.orders| && t.Trade? && Execute(c, i, t, snapshot, rules).Success?
    ensures var order := c.simulator.orders[i];
            var p, p' := c.ledger.PositionOf(order.instrument), Execute(c, i, t, snapshot, rules).value.ledger.PositionOf(order.instrument);
            && p'.quantity == p.quantity + (if order.side == Buy then t.quantity else -t.quantity)
            && (p'.IsOpen() && (order.stopLoss.Some? || order.takeProfit.Some?) ==>
                  p'.stopLoss == order.stopLoss && p'.takeProfit == order.takeProfit)
  {
    var order := c.simulator.orders[i];
    var fill := MakeFill(c.simulator.fillSequence + 1, order, t, snapshot.timestamp, rules);
    PortfolioFlows.FillProtects(c.ledger, fill, order.reduceOnly, order.stopLoss, order.takeProfit);
  }

  lemma {:induction false} MatchAllKeepsPending(c: Core, candidates: seq<nat>, snapshot: MarketSnapshot, rules: InstrumentRules)
    requires forall k :: 0 <= k < |candidates| ==> candidates[k] < |c.simulator.orders|
    requires PendingIsOpen(c) && MatchAll(c, candidates, snapshot, rules).Success?
    ensures PendingIsOpen(MatchAll(c, candidates, snapshot, rules).value)
    decreases |candidates|
  {
    if candidates != [] {
      var i := candidates[0];
      var decision := Decide(c.ledger, c.simulator.config, c.simulator.orders[i], snapshot, rules).value;
      if decision.Trade? {
        ExecuteKeepsPending(c, i, decision, snapshot, rules);
      }
      MatchAllKeepsPending(MatchOne(c, i, snapshot, rules).value, candidates[1..], snapshot, rules);
    }
  }

  lemma {:induction false} MarkAndMatchKeepsPending(c: Core, snapshot: MarketSnapshot)
    requires PendingIsOpen(c) && MarkAndMatch(c, snapshot).Success?
    ensures PendingIsOpen(MarkAndMatch(c, snapshot).value)
  {
    var start := c.(ledger := Mark(c.ledger, snapshot));
    forall x | x in start.exitPending ensures start.ledger.PositionOf(x).IsOpen() {
      MarkKeepsOpen(c.ledger, snapshot, x);
    }
    if snapshot.instrument in c.simulator.rules {
      MatchAllKeepsPending(start, Candidates(start.simulator.orders, |start.simulator.orders|), snapshot, c.simulator.rules[snapshot.instrument]);
    }
    var matched := Match(start, snapshot).value;
    forall x | x in matched.exitPending ensures Mark(matched.ledger, snapshot).PositionOf(x).IsOpen() {
      MarkKeepsOpen(matched.ledger, snapshot, x);
    }
  }

  lemma {:induction false} SettleKeepsPending(c: Core, snapshot: MarketSnapshot)
    requires PendingIsOpen(c)
    ensures PendingIsOpen(Settle(c, snapshot).core)
  {
    var exit := ProtectiveExit(c, snapshot).core;
    assert PendingIsOpen(exit);
    LiquidateKeepsPending(exit, snapshot.timestamp);
  }

  lemma {:induction false} LiquidateKeepsPending(c: Core, timestamp: int)
    requires PendingIsOpen(c)
    ensures PendingIsOpen(Liquidate(c, timestamp).core)
  {
    var decision := DecideLiquidation(c.ledger, timestamp);
    if decision.Some? {
      var newly := Excluding(decision.value.instruments, c.liquidationPending);
      var logged := if newly == [] then c else
        c.(liquidations := c.liquidations + [decision.value],
           liquidationPending := c.liquidationPending + set x | x in newly);
      var cancelled := logged.(simulator := logged.simulator.(orders := CancelIncreasing(logged.simulator.orders)));
      LiquidationExitsKeep(cancelled, newly, timestamp);
    }
  }

  lemma {:induction false} HandleKeepsPending(c: Core, e: Event)
    requires PendingIsOpen(c) && Handle(c, e).Success?
    ensures PendingIsOpen(Handle(c, e).value.core)
  {
    var traced := c.(trace := c.trace + [TraceEntry(e.Timestamp(), KindOf(e))]);
    assert PendingIsOpen(traced);
    if e.MarketEvent? {
      MarkAndMatchKeepsPending(traced, e.snapshot);
      SettleKeepsPending(MarkAndMatch(traced, e.snapshot).value, e.snapshot);
    } else if e.FundingEvent? {
      forall x | x in c.exitPending ensures ApplyFunding(c.ledger, e.instrument, e.at, e.rate, e.mark).PositionOf(x).IsOpen() {
        FundingKeepsOpen(c.ledger, e.instrument, e.at, e.rate, e.mark, x);
      }
    }
  }

  /** Over every run: an exit is pending only for an open position, so closing it makes room for the next exit. */
  lemma {:induction false} RunKeepsPending(s: State, processed: int, maximum: int, horizon: Option<int>)
    requires PendingIsOpen(s.core) && Run(s, processed, maximum, horizon).Stopped?
    ensures PendingIsOpen(Run(s, processed, maximum, horizon).state.core)
    decreases maximum - processed
  {
    if !Done(s, horizon) {
      HandleKeepsPending(s.core, s.queue.entries[0].event);
      RunKeepsPending(Step(s).value, processed + 1, maximum, horizon);
    }
  }

  // ---------- The trace ----------

  lemma {:induction false} MatchAllKeepsTrace(c: Core, candidates: seq<nat>, snapshot: MarketSnapshot, rules: InstrumentRules)
    requires forall k :: 0 <= k < |candidates| ==> candidates[k] < |c.simulator.orders|
    requires MatchAll(c, candidates, snapshot, rules).Success?
    ensures MatchAll(c, candidates, snapshot, rules).value.trace == c.trace
    decreases |candidates|
  {
    if candidates != [] {
      MatchAllKeepsTrace(MatchOne(c, candidates[0], snapshot, rules).value, candidates[1..], snapshot, rules);
    }
  }

  lemma {:induction false} LiquidationExitsKeepTrace(c: Core, instruments: seq<Instrument>, timestamp: int)
    ensures LiquidationExits(c, instruments, timestamp).core.trace == c.trace
    decreases |instruments|
  {
    if instruments != [] {
      var p := c.ledger.PositionOf(instruments[0]);
      if p.IsOpen() && p.instrument !in c.exitPending {
        LiquidationExitsKeepTrace(ScheduleExit(c, p, timestamp, Liquidation).core, instruments[1..], timestamp);
      } else {
        LiquidationExitsKeepTrace(c, instruments[1..], timestamp);
      }
    }
  }

  lemma {:induction false} LiquidateKeepsTrace(c: Core, timestamp: int)
    ensures Liquidate(c, timestamp).core.trace == c.trace
  {
    var decision := DecideLiquidation(c.ledger, timestamp);
    if decision.Some? {
      var newly := Excluding(decision.value.instruments, c.liquidationPending);
      var logged := if newly == [] then c else
        c.(liquidations := c.liquidations + [decision.value],
           liquidationPending := c.liquidationPending + set x | x in newly);
      LiquidationExitsKeepTrace(logged.(simulator := logged.simulator.(orders := CancelIncreasing(logged.simulator.orders))), newly, timestamp);
    }
  }

  lemma {:induction false} MarketKeepsTrace(c: Core, snapshot: MarketSnapshot)
    requires OnMarket(c, snapshot).Success?
    ensures OnMarket(c, snapshot).value.core.trace == c.trace
  {
    var start := c.(ledger := Mark(c.ledger, snapshot));
    if snapshot.instrument in c.simulator.rules {
      MatchAllKeepsTrace(start, Candidates(start.simulator.orders, |start.simulator.orders|), snapshot, c.simulator.rules[snapshot.instrument]);
    }
    LiquidateKeepsTrace(ProtectiveExit(MarkAndMatch(c, snapshot).value, snapshot).core, snapshot.timestamp);
  }

  /** Every handled event adds one entry to the trace: its own time and kind. */
  lemma {:induction false} EventIsTraced(c: Core, e: Event)
    requires Handle(c, e).Success?
    ensures Handle(c, e).value.core.trace == c.trace + [TraceEntry(e.Timestamp(), KindOf(e))]
  {
    if e.MarketEvent? {
      MarketKeepsTrace(c.(trace := c.trace + [TraceEntry(e.Timestamp(), KindOf(e))]), e.snapshot);
    }
  }

  /** Over every run the trace grows by exactly the events that were processed. */
  lemma {:induction false} TraceCountsEvents(s: State, processed: int, maximum: int, horizon: Option<int>)
    requires Run(s, processed, maximum, horizon).Stopped?
    ensures var r := Run(s, processed, maximum, horizon);
            s.core.trace <= r.state.core.trace && |r.state.core.trace| - |s.core.trace| == r.processed - processed
    decreases maximum - processed
  {
    if !Done(s, horizon) {
      EventIsTraced(s.core, s.queue.entries[0].event);
      TraceCountsEvents(Step(s).value, processed + 1, maximum, horizon);
    }
  }
}

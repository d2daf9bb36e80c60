/**
 What every event keeps: matcher and ledger hold the same fills, orders and positions are what
 their fills make of them, everything trades in whole lots, reduce-only orders only reduce, and
 the internal checks of fills, orders and ledger never fire.
 */
module BacktestSafety {
  import opened Common
  import opened Execution
  import opened Portfolio
  import opened Events
  import opened Backtest

  /** Quantity filled for one order. */
  function FilledFor(fills: seq<Fill>, orderId: nat): real {
    if fills == [] then 0.0
    else
      var f := fills[|fills| - 1];
      FilledFor(fills[..|fills| - 1], orderId) + if f.orderId == orderId then f.quantity else 0.0
  }

  ghost predicate WholeLots(rules: Rulebook, instrument: Instrument, quantity: real) {
    instrument in rules && Whole(quantity, rules[instrument].lotSize)
  }

  ghost predicate FillOk(f: Fill, rules: Rulebook, fillSequence: nat) {
    f.ConstructionError().None? && WholeLots(rules, f.instrument, f.quantity) && 1 <= f.fillId <= fillSequence
  }

  ghost predicate OrderOk(o: Order, rules: Rulebook, fills: seq<Fill>) {
    && o.signalAt <= o.createdAt <= o.submittedAt
    && o.quantity == o.remaining + FilledFor(fills, o.orderId)
    && o.remaining >= 0.0
    && (!o.status.Terminal() ==> WholeLots(rules, o.instrument, o.remaining))
  }

  ghost predicate UniqueIds(orders: seq<Order>) {
    forall i, j :: 0 <= i < j < |orders| ==> orders[i].orderId != orders[j].orderId
  }

  ghost predicate Submits(orders: seq<Order>, orderId: nat) {
    exists i :: 0 <= i < |orders| && orders[i].orderId == orderId
  }

  ghost predicate OrdersOk(s: Simulator) {
    && UniqueIds(s.orders)
    && (forall i :: 0 <= i < |s.orders| ==> OrderOk(s.orders[i], s.rules, s.fills))
    && (forall i :: 0 <= i < |s.fills| ==> FillOk(s.fills[i], s.rules, s.fillSequence) && Submits(s.orders, s.fills[i].orderId))
  }

  ghost predicate PositionsOk(l: Ledger) {
    forall i :: 0 <= i < |l.positions| ==> WholeLots(l.rules, l.positions[i].instrument, l.positions[i].quantity)
  }

  ghost predicate LedgerOk(l: Ledger, s: Simulator) {
    && Balanced(l) && PositionsOk(l)
    && l.rules == s.rules && l.fills == s.fills
    && (forall id :: id in l.processed ==> id <= s.fillSequence)
  }

  /** The invariant of the backtest. */
  ghost predicate Inv(c: Core) {
    OrdersOk(c.simulator) && LedgerOk(c.ledger, c.simulator)
  }

  lemma {:induction false} InitiallyInv(initialCash: real, leverage: real, rules: Rulebook, config: ExecutionConfig)
    requires initialCash > 0.0 && leverage > 0.0
    ensures Inv(NewCore(initialCash, leverage, rules, config))
  {
  }

  // ---------- Matching decisions ----------

  /** The order changed in nothing but its status, and terminal orders not at all. */
  predicate SameButStatus(a: Order, b: Order) {
    b == a.(status := b.status, rejection := b.rejection) && (a.status.Terminal() ==> a == b)
  }

  /** What a decision to trade guarantees about the order, the snapshot and the ledger. */
  ghost predicate SoundTrade(ledger: Ledger, order: Order, snapshot: MarketSnapshot, rules: InstrumentRules, t: Decision)
    requires t.Trade?
  {
    && !order.status.Terminal() && order.instrument == snapshot.instrument
    && order.submittedAt < snapshot.timestamp
    && 0.0 < t.quantity <= order.remaining && Whole(t.quantity, rules.lotSize)
    && t.spread >= 0.0 && t.slippage >= 0.0 && t.impact >= 0.0
    && (order.reduceOnly ==>
          var p := ledger.PositionOf(order.instrument);
          p.ReducedBy(order.side) && t.quantity <= Abs(p.quantity))
  }

  ghost predicate SoundDetails(order: Order, rules: InstrumentRules, cap: real, d: Decision) {
    if d.Keep? then SameButStatus(order, d.order)
    else 0.0 < d.quantity <= cap && Whole(d.quantity, rules.lotSize) && d.spread >= 0.0 && d.slippage >= 0.0 && d.impact >= 0.0
  }

  lemma {:induction false} TakerDetailsAreSound(config: ExecutionConfig, order: Order, snapshot: MarketSnapshot, rules: InstrumentRules,
                             quantity: real, cap: real)
    requires 0.0 < quantity <= cap && Whole(quantity, rules.lotSize)
    requires TakerDetails(config, order, snapshot, rules, quantity).Success?
    ensures SoundDetails(order, rules, cap, TakerDetails(config, order, snapshot, rules, quantity).value)
  {
    var impactRate := ImpactBps(config, quantity, Depth(order, snapshot)) / 10000.0;
    assert impactRate >= 0.0;
  }

  lemma {:induction false} DetailsAreSound(config: ExecutionConfig, order: Order, snapshot: MarketSnapshot, rules: InstrumentRules, cap: real)
    requires cap > 0.0
    requires MatchDetails(config, order, snapshot, rules, cap).Success?
    ensures SoundDetails(order, rules, cap, MatchDetails(config, order, snapshot, rules, cap).value)
  {
    if order.orderType.Market? || IsMarketable(order, snapshot) {
      var quantity := TradableLots(rules, cap, Participation(config, order, snapshot));
      if !order.postOnly && quantity > 0.0 {
        TakerDetailsAreSound(config, order, snapshot, rules, quantity, cap);
      }
    }
  }

  lemma {:induction false} DecisionIsSound(ledger: Ledger, config: ExecutionConfig, order: Order, snapshot: MarketSnapshot, rules: InstrumentRules)
    requires Decide(ledger, config, order, snapshot, rules).Success?
    ensures var d := Decide(ledger, config, order, snapshot, rules).value;
            if d.Keep? then SameButStatus(order, d.order) else SoundTrade(ledger, order, snapshot, rules, d)
  {
    var cap := FillCap(ledger, order, snapshot.Top(order.side));
    if cap > 0.0 && MatchDetails(config, order, snapshot, rules, cap).Success? {
      DetailsAreSound(config, order, snapshot, rules, cap);
    }
  }

  // ---------- Booking a trade ----------

  /** A reduce-only fill that the matcher lets through shrinks the position and never reverses it. */
  lemma {:induction false} ReduceOnlyShrinks(p: Position, fill: Fill)
    requires p.ReducedBy(fill.side) && 0.0 < fill.quantity <= Abs(p.quantity)
    ensures GuardReduceOnly(p, fill).None?
    ensures var q := FillPosition(p, fill).quantity;
            Abs(q) == Abs(p.quantity) - fill.quantity && (q == 0.0 || (q > 0.0 <==> p.quantity > 0.0))
  {
    FillConservesValue(p, fill, 0.0);
  }

  lemma {:induction false} FilledForAppended(fills: seq<Fill>, fill: Fill, orderId: nat)
    ensures FilledFor(fills + [fill], orderId) == FilledFor(fills, orderId) + if fill.orderId == orderId then fill.quantity else 0.0
  {
    assert (fills + [fill])[..|fills|] == fills;
  }

  lemma {:induction false} ReplaceKeepsSubmits(orders: seq<Order>, i: nat, order: Order, orderId: nat)
    requires i < |orders| && order.orderId == orders[i].orderId && Submits(orders, orderId)
    ensures Submits(orders[i := order], orderId)
  {
    var k :| 0 <= k < |orders| && orders[k].orderId == orderId;
    assert orders[i := order][k].orderId == orderId;
  }

  /** Replacing one order by a consistent one with the same id. */
  lemma {:induction false} ReplaceKeepsOrders(s: Simulator, i: nat, order: Order)
    requires OrdersOk(s) && i < |s.orders|
    requires order.orderId == s.orders[i].orderId && OrderOk(order, s.rules, s.fills)
    ensures OrdersOk(s.(orders := s.orders[i := order]))
  {
    forall k | 0 <= k < |s.fills|
      ensures Submits(s.orders[i := order], s.fills[k].orderId)
    {
      ReplaceKeepsSubmits(s.orders, i, order, s.fills[k].orderId);
    }
  }

  /** Recording a fill of order `i`. */
  lemma {:induction false} BookKeepsOrders(s: Simulator, i: nat, order: Order, fill: Fill)
    requires OrdersOk(s) && i < |s.orders|
    requires order.orderId == s.orders[i].orderId == fill.orderId
    requires OrderOk(order, s.rules, s.fills + [fill]) && FillOk(fill, s.rules, s.fillSequence + 1)
    ensures OrdersOk(Book(s, i, order, fill))
  {
    var s' := Book(s, i, order, fill);
    forall k | 0 <= k < |s'.orders|
      ensures OrderOk(s'.orders[k], s'.rules, s'.fills)
    {
      FilledForAppended(s.fills, fill, s.orders[k].orderId);
    }
    forall k | 0 <= k < |s'.fills|
      ensures FillOk(s'.fills[k], s'.rules, s'.fillSequence) && Submits(s'.orders, s'.fills[k].orderId)
    {
      if k < |s.fills| {
        ReplaceKeepsSubmits(s.orders, i, order, s.fills[k].orderId);
      } else {
        assert s'.orders[i].orderId == fill.orderId;
      }
    }
  }

  lemma {:induction false} PutKeepsPositions(l: Ledger, p: Position, l': Ledger)
    requires Distinct(l.positions) && PositionsOk(l) && WholeLots(l.rules, p.instrument, p.quantity)
    requires l'.positions == Put(l.positions, p) && l'.rules == l.rules
    ensures PositionsOk(l')
  {
    PutKeepsDistinct(l.positions, p);
    forall i | 0 <= i < |l'.positions|
      ensures WholeLots(l'.rules, l'.positions[i].instrument, l'.positions[i].quantity)
    {
      assert l'.positions[i] in l'.positions;
      if l'.positions[i] != p {
        var k :| 0 <= k < |l.positions| && l.positions[k] == l'.positions[i];
      }
    }
  }

  lemma {:induction false} FindIsWhole(l: Ledger, instrument: Instrument)
    requires PositionsOk(l) && instrument in l.rules
    ensures WholeLots(l.rules, instrument, Find(l.positions, instrument).quantity)
  {
    assert 0.0 == Units(0, l.rules[instrument].lotSize);
  }

  lemma {:induction false} FillKeepsLedger(l: Ledger, s: Simulator, fill: Fill, reduceOnly: bool, stopLoss: Option<real>, takeProfit: Option<real>, s': Simulator)
    requires LedgerOk(l, s) && FillOk(fill, s.rules, s'.fillSequence)
    requires ApplyFill(l, fill, reduceOnly, stopLoss, takeProfit).Success?
    requires s'.rules == s.rules && s'.fills == s.fills + [fill] && s'.fillSequence == s.fillSequence + 1
    ensures LedgerOk(ApplyFill(l, fill, reduceOnly, stopLoss, takeProfit).value, s')
  {
    var l' := ApplyFill(l, fill, reduceOnly, stopLoss, takeProfit).value;
    ApplyFillKeepsBalance(l, fill, reduceOnly, stopLoss, takeProfit);
    var q := Find(l.positions, fill.instrument);
    var filled := FillPosition(q, fill);
    var p := if filled.IsOpen() && (stopLoss.Some? || takeProfit.Some?)
             then filled.(stopLoss := stopLoss, takeProfit := takeProfit) else filled;
    FindIsWhole(l, fill.instrument);
    FillConservesValue(q, fill, 0.0);
    WholeSum(q.quantity, fill.quantity, l.rules[fill.instrument].lotSize);
    PutKeepsPositions(l, p, l');
  }

  /**
   Booking a sound trade. None of the internal checks fires: the fill is strictly later than the
   submission, its quantity is within the order, its id is new and a reduce-only fill reduces. Only
   a non-positive price, or a protection price of the order on the wrong side, can be refused.
   */
  lemma {:induction false} ExecuteRefusals(c: Core, i: nat, t: Decision, snapshot: MarketSnapshot, rules: InstrumentRules)
    requires Inv(c) && i < |c.simulator.orders| && t.Trade?
    requires SoundTrade(c.ledger, c.simulator.orders[i], snapshot, rules, t)
    requires Execute(c, i, t, snapshot, rules).Failure?
    ensures var e := Execute(c, i, t, snapshot, rules).error;
            var order := c.simulator.orders[i];
            || (e.FillNotPositive? && t.price <= 0.0)
            || (e.StopLossOnWrongSide? && order.stopLoss.Some?)
            || (e.TakeProfitOnWrongSide? && order.takeProfit.Some?)
  {
    var order := c.simulator.orders[i];
    assert OrderOk(order, c.simulator.rules, c.simulator.fills);
    var fill := MakeFill(c.simulator.fillSequence + 1, order, t, snapshot.timestamp, rules);
    if order.reduceOnly {
      ReduceOnlyShrinks(c.ledger.PositionOf(order.instrument), fill);
    }
  }

  lemma {:induction false} FilledOrderIsOk(s: Simulator, i: nat, order: Order, fill: Fill)
    requires OrdersOk(s) && i < |s.orders| && !s.orders[i].status.Terminal()
    requires fill.orderId == s.orders[i].orderId && WholeLots(s.rules, s.orders[i].instrument, fill.quantity)
    requires s.orders[i].RecordFill(fill.quantity) == Success(order)
    ensures OrderOk(order, s.rules, s.fills + [fill])
  {
    FilledForAppended(s.fills, fill, order.orderId);
    WholeSum(s.orders[i].remaining, fill.quantity, s.rules[order.instrument].lotSize);
  }

  lemma {:induction false} ConsumeKeepsInv(c: Core, i: nat, filled: Order, fill: Fill, order: Order)
    requires Inv(c) && i < |c.simulator.orders|
    requires OrdersOk(Book(c.simulator, i, filled, fill)) && FillOk(fill, c.simulator.rules, c.simulator.fillSequence + 1)
    requires Consume(c.(simulator := Book(c.simulator, i, filled, fill)), order, fill).Success?
    ensures Consume(c.(simulator := Book(c.simulator, i, filled, fill)), order, fill).value.simulator == Book(c.simulator, i, filled, fill)
    ensures Inv(Consume(c.(simulator := Book(c.simulator, i, filled, fill)), order, fill).value)
  {
    FillKeepsLedger(c.ledger, c.simulator, fill, order.reduceOnly, order.stopLoss, order.takeProfit, Book(c.simulator, i, filled, fill));
  }

  lemma {:induction false} TradeFillIsOk(c: Core, i: nat, t: Decision, snapshot: MarketSnapshot, filled: Order)
    requires Inv(c) && i < |c.simulator.orders| && t.Trade? && snapshot.instrument in c.simulator.rules
    requires SoundTrade(c.ledger, c.simulator.orders[i], snapshot, c.simulator.rules[snapshot.instrument], t)
    requires c.simulator.orders[i].RecordFill(t.quantity) == Success(filled)
    ensures var rules, s := c.simulator.rules[snapshot.instrument], c.simulator;
            var fill := MakeFill(s.fillSequence + 1, s.orders[i], t, snapshot.timestamp, rules);
            fill.ConstructionError().None? ==> OrdersOk(Book(s, i, filled, fill)) && FillOk(fill, s.rules, s.fillSequence + 1)
  {
    var rules, s := c.simulator.rules[snapshot.instrument], c.simulator;
    var fill := MakeFill(s.fillSequence + 1, s.orders[i], t, snapshot.timestamp, rules);
    if fill.ConstructionError().None? {
      FilledOrderIsOk(s, i, filled, fill);
      BookKeepsOrders(s, i, filled, fill);
    }
  }

  lemma {:induction false} ExecuteKeepsInv(c: Core, i: nat, t: Decision, snapshot: MarketSnapshot)
    requires Inv(c) && i < |c.simulator.orders| && t.Trade? && snapshot.instrument in c.simulator.rules
    requires SoundTrade(c.ledger, c.simulator.orders[i], snapshot, c.simulator.rules[snapshot.instrument], t)
    requires Execute(c, i, t, snapshot, c.simulator.rules[snapshot.instrument]).Success?
    ensures Inv(Execute(c, i, t, snapshot, c.simulator.rules[snapshot.instrument]).value)
  {
    var rules, s := c.simulator.rules[snapshot.instrument], c.simulator;
    var order := s.orders[i];
    var fill := MakeFill(s.fillSequence + 1, order, t, snapshot.timestamp, rules);
    var filled := order.RecordFill(t.quantity).value;
    TradeFillIsOk(c, i, t, snapshot, filled);
    var consumed := Consume(c.(simulator := Book(s, i, filled, fill)), order, fill).value;
    assert Inv(consumed) && consumed.simulator == Book(s, i, filled, fill) by {
      ConsumeKeepsInv(c, i, filled, fill, order);
    }
    if order.timeInForce.Ioc? && filled.remaining > 0.0 {
      RemainderKeepsInv(consumed, i, filled);
    }
  }

  /** Cancelling what is left of an order changes its status only. */
  lemma {:induction false} RemainderKeepsInv(c: Core, i: nat, filled: Order)
    requires Inv(c) && i < |c.simulator.orders| && c.simulator.orders[i] == filled
    ensures Inv(WithOrder(c, i, filled.Cancel(IocRemainder)))
  {
    StatusKeepsOrder(c, i, filled.Cancel(IocRemainder));
  }

  // ---------- Every event ----------

  /** The errors that input data can provoke; all others are internal checks. */
  predicate FromInput(e: Error) {
    || e.OrderTimestampsOutOfOrder? || e.OrderPriceNotPositive? || e.OrderExpiresBeforeSubmission?
    || e.DuplicateOrder?
    || e.PriceNotPositive? || e.FillNotPositive?
    || e.StopLossOnWrongSide? || e.TakeProfitOnWrongSide?
  }

  lemma {:induction false} StatusKeepsOrder(c: Core, i: nat, order: Order)
    requires Inv(c) && i < |c.simulator.orders| && SameButStatus(c.simulator.orders[i], order)
    ensures Inv(WithOrder(c, i, order))
  {
    assert OrderOk(c.simulator.orders[i], c.simulator.rules, c.simulator.fills);
    ReplaceKeepsOrders(c.simulator, i, order);
  }

  lemma {:induction false} DecideErrors(ledger: Ledger, config: ExecutionConfig, order: Order, snapshot: MarketSnapshot, rules: InstrumentRules)
    requires Decide(ledger, config, order, snapshot, rules).Failure?
    ensures Decide(ledger, config, order, snapshot, rules).error.PriceNotPositive?
  {
  }

  lemma {:induction false} MatchOneIsSafe(c: Core, i: nat, snapshot: MarketSnapshot)
    requires Inv(c) && i < |c.simulator.orders| && snapshot.instrument in c.simulator.rules
    ensures var r := MatchOne(c, i, snapshot, c.simulator.rules[snapshot.instrument]);
            if r.Success? then Inv(r.value) && r.value.simulator.rules == c.simulator.rules else FromInput(r.error)
  {
    var order, rules := c.simulator.orders[i], c.simulator.rules[snapshot.instrument];
    var decision := Decide(c.ledger, c.simulator.config, order, snapshot, rules);
    if decision.Failure? {
      DecideErrors(c.ledger, c.simulator.config, order, snapshot, rules);
    } else {
      DecisionIsSound(c.ledger, c.simulator.config, order, snapshot, rules);
      if decision.value.Keep? {
        StatusKeepsOrder(c, i, decision.value.order);
      } else if Execute(c, i, decision.value, snapshot, rules).Success? {
        ExecuteKeepsInv(c, i, decision.value, snapshot);
      } else {
        ExecuteRefusals(c, i, decision.value, snapshot, rules);
      }
    }
  }

  lemma {:induction false} MatchAllIsSafe(c: Core, candidates: seq<nat>, snapshot: MarketSnapshot)
    requires Inv(c) && snapshot.instrument in c.simulator.rules
    requires forall k :: 0 <= k < |candidates| ==> candidates[k] < |c.simulator.orders|
    ensures var r := MatchAll(c, candidates, snapshot, c.simulator.rules[snapshot.instrument]);
            if r.Success? then Inv(r.value) && r.value.simulator.rules == c.simulator.rules else FromInput(r.error)
    decreases |candidates|
  {
    if candidates != [] {
      MatchOneIsSafe(c, candidates[0], snapshot);
      var first := MatchOne(c, candidates[0], snapshot, c.simulator.rules[snapshot.instrument]);
      if first.Success? {
        MatchAllIsSafe(first.value, candidates[1..], snapshot);
      }
    }
  }

  lemma {:induction false} MatchIsSafe(c: Core, snapshot: MarketSnapshot)
    requires Inv(c)
    ensures var r := Match(c, snapshot);
            if r.Success? then Inv(r.value) && r.value.simulator.rules == c.simulator.rules else FromInput(r.error)
  {
    if snapshot.instrument in c.simulator.rules {
      MatchAllIsSafe(c, Candidates(c.simulator.orders, |c.simulator.orders|), snapshot);
    }
  }

  lemma {:induction false} MarkKeepsLedger(l: Ledger, s: Simulator, snapshot: MarketSnapshot)
    requires LedgerOk(l, s)
    ensures LedgerOk(Mark(l, snapshot), s)
  {
    MarkKeepsBalance(l, snapshot);
    var p := Find(l.positions, snapshot.instrument);
    if p.IsOpen() {
      PutKeepsPositions(l, p.(mark := snapshot.ValuationPrice(), updatedAt := Some(snapshot.timestamp)), Mark(l, snapshot));
    }
  }

  lemma {:induction false} FundingKeepsLedger(l: Ledger, s: Simulator, instrument: Instrument, timestamp: int, rate: real, mark: real)
    requires LedgerOk(l, s) && mark > 0.0
    ensures LedgerOk(ApplyFunding(l, instrument, timestamp, rate, mark), s)
  {
    FundingKeepsBalance(l, instrument, timestamp, rate, mark);
    var q := Find(l.positions, instrument);
    if q.IsOpen() {
      PutKeepsPositions(l, q.(funding := q.funding + FundingAmount(q.quantity, rate, mark)),
                        ApplyFunding(l, instrument, timestamp, rate, mark));
    }
  }

  lemma {:induction false} CaptureKeepsLedger(l: Ledger, s: Simulator, timestamp: int)
    requires LedgerOk(l, s)
    ensures LedgerOk(Capture(l, timestamp), s)
  {
    CaptureKeepsBalance(l, timestamp);
  }

  lemma {:induction false} ExitsKeepInv(c: Core, instruments: seq<Instrument>, timestamp: int)
    requires Inv(c)
    ensures Inv(LiquidationExits(c, instruments, timestamp).core)
    decreases |instruments|
  {
    if instruments != [] {
      var p := c.ledger.PositionOf(instruments[0]);
      if p.IsOpen() && p.instrument !in c.exitPending {
        ExitsKeepInv(ScheduleExit(c, p, timestamp, Liquidation).core, instruments[1..], timestamp);
      } else {
        ExitsKeepInv(c, instruments[1..], timestamp);
      }
    }
  }

  lemma {:induction false} CancellingKeepsOrders(s: Simulator)
    requires OrdersOk(s)
    ensures OrdersOk(s.(orders := CancelIncreasing(s.orders)))
  {
    var s' := s.(orders := CancelIncreasing(s.orders));
    forall k | 0 <= k < |s'.orders|
      ensures OrderOk(s'.orders[k], s'.rules, s'.fills)
    {
      assert OrderOk(s.orders[k], s.rules, s.fills);
    }
    forall k | 0 <= k < |s'.fills|
      ensures Submits(s'.orders, s'.fills[k].orderId)
    {
      var j :| 0 <= j < |s.orders| && s.orders[j].orderId == s.fills[k].orderId;
      assert s'.orders[j].orderId == s.fills[k].orderId;
    }
  }

  lemma {:induction false} LiquidateKeepsInv(c: Core, timestamp: int)
    requires Inv(c)
    ensures Inv(Liquidate(c, timestamp).core)
  {
    var decision := DecideLiquidation(c.ledger, timestamp);
    if decision.Some? {
      var newly := Excluding(decision.value.instruments, c.liquidationPending);
      var logged := if newly == [] then c else
        c.(liquidations := c.liquidations + [decision.value],
           liquidationPending := c.liquidationPending + set x | x in newly);
      var cancelled := logged.(simulator := logged.simulator.(orders := CancelIncreasing(logged.simulator.orders)));
      CancellingKeepsOrders(c.simulator);
      assert Inv(cancelled);
      ExitsKeepInv(cancelled, newly, timestamp);
    }
  }

  lemma {:induction false} MarkKeepsInv(c: Core, snapshot: MarketSnapshot)
    requires Inv(c)
    ensures Inv(c.(ledger := Mark(c.ledger, snapshot))) && Inv(c.(ledger := Capture(c.ledger, snapshot.timestamp)))
  {
    MarkKeepsLedger(c.ledger, c.simulator, snapshot);
    CaptureKeepsLedger(c.ledger, c.simulator, snapshot.timestamp);
  }

  lemma {:induction false} MarkAndMatchIsSafe(c: Core, snapshot: MarketSnapshot)
    requires Inv(c)
    ensures var r := MarkAndMatch(c, snapshot);
            if r.Success? then Inv(r.value) && r.value.simulator.rules == c.simulator.rules else FromInput(r.error)
  {
    var start := c.(ledger := Mark(c.ledger, snapshot));
    MarkKeepsInv(c, snapshot);
    MatchIsSafe(start, snapshot);
    if Match(start, snapshot).Success? {
      MarkKeepsInv(Match(start, snapshot).value, snapshot);
    }
  }

  lemma {:induction false} SettleKeepsInv(c: Core, snapshot: MarketSnapshot)
    requires Inv(c)
    ensures Inv(Settle(c, snapshot).core)
  {
    var exit := ProtectiveExit(c, snapshot);
    LiquidateKeepsInv(exit.core, snapshot.timestamp);
    MarkKeepsInv(Liquidate(exit.core, snapshot.timestamp).core, snapshot);
  }

  lemma {:induction false} MarketIsSafe(c: Core, snapshot: MarketSnapshot)
    requires Inv(c)
    ensures var r := OnMarket(c, snapshot); if r.Success? then Inv(r.value.core) else FromInput(r.error)
  {
    MarkAndMatchIsSafe(c, snapshot);
    if MarkAndMatch(c, snapshot).Success? {
      SettleKeepsInv(MarkAndMatch(c, snapshot).value, snapshot);
    }
  }

  lemma {:induction false} UnknownOrderHasNoFills(s: Simulator, orderId: nat, n: nat)
    requires OrdersOk(s) && !Submits(s.orders, orderId) && n <= |s.fills|
    ensures FilledFor(s.fills[..n], orderId) == 0.0
  {
    if n > 0 {
      UnknownOrderHasNoFills(s, orderId, n - 1);
      assert s.fills[..n][..n - 1] == s.fills[..n - 1];
      assert Submits(s.orders, s.fills[n - 1].orderId);
    }
  }

  lemma {:induction false} NormalizedIsOk(rules: Rulebook, order: Order, fills: seq<Fill>)
    requires order.Fresh() && FilledFor(fills, order.orderId) == 0.0
    ensures Normalize(rules, order).Success?
    ensures OrderOk(Normalize(rules, order).value, rules, fills) && Normalize(rules, order).value.orderId == order.orderId
  {
    if order.instrument in rules {
      QuantizeQuantityIsWhole(rules[order.instrument], order.quantity);
    }
  }

  lemma {:induction false} SubmitIsSafe(c: Core, order: Order)
    requires Inv(c) && order.Fresh()
    ensures var r := Submit(c.simulator, order);
            if r.Success? then Inv(c.(simulator := r.value)) else r.error.DuplicateOrder?
  {
    var s := c.simulator;
    if !Submits(s.orders, order.orderId) {
      UnknownOrderHasNoFills(s, order.orderId, |s.fills|);
      assert s.fills[..|s.fills|] == s.fills;
      NormalizedIsOk(s.rules, order, s.fills);
      var s' := Submit(s, order).value;
      forall k | 0 <= k < |s'.fills|
        ensures Submits(s'.orders, s'.fills[k].orderId)
      {
        var j :| 0 <= j < |s.orders| && s.orders[j].orderId == s.fills[k].orderId;
        assert s'.orders[j].orderId == s.fills[k].orderId;
      }
    }
  }

  /** Every event keeps the invariant or raises an error that its input data explains. */
  lemma {:induction false} HandleIsSafe(c: Core, e: Event)
    requires Inv(c)
    ensures var r := Handle(c, e); if r.Success? then Inv(r.value.core) else FromInput(r.error)
  {
    var traced := c.(trace := c.trace + [TraceEntry(e.Timestamp(), KindOf(e))]);
    match e
    case MarketEvent(snapshot) => MarketIsSafe(traced, snapshot);
    case FundingEvent(at, instrument, rate, mark) =>
      FundingKeepsLedger(traced.ledger, traced.simulator, instrument, at, rate, mark);
      CaptureKeepsLedger(ApplyFunding(traced.ledger, instrument, at, rate, mark), traced.simulator, at);
    case SignalEvent(signal) =>
    case OrderCreationEvent(at, signal) =>
    case OrderSubmissionEvent(at, order) => SubmitIsSafe(traced, order);
  }

  // ---------- Every run ----------

  /** Safety over whole runs, from any safe state and for any events. */
  lemma {:induction false} RunIsSafe(s: State, processed: int, maximum: int, horizon: Option<int>)
    requires Inv(s.core)
    ensures var r := Run(s, processed, maximum, horizon);
            if r.Stopped? then Inv(r.state.core) else FromInput(r.error) || r.error.MaximumEventsExceeded?
    decreases maximum - processed
  {
    if !Done(s, horizon) && processed < maximum {
      HandleIsSafe(s.core, s.queue.entries[0].event);
      if Step(s).Success? {
        RunIsSafe(Step(s).value, processed + 1, maximum, horizon);
      }
    }
  }

  /**
   What a returned backtest reports: one sequence of fills, each strictly later than its order's
   submission; orders whose quantity is what remains plus their fills; positions that are the signed
   sum of their fills, in whole lots, so that an exit order for a position is not shrunk by lot
   rounding; and an equity explained by fills, marks, fees and funding.
   */
  lemma {:induction false} ReturnedRunReconciles(core: Core, events: seq<Event>, maximum: int)
    requires Inv(core)
    requires Run(Load(core, events), 0, maximum, None).Stopped?
    ensures var c := Run(Load(core, events), 0, maximum, None).state.core;
            && c.ledger.fills == c.simulator.fills
            && (forall i :: 0 <= i < |c.simulator.fills| ==> c.simulator.fills[i].submittedAt < c.simulator.fills[i].filledAt)
            && (forall i :: 0 <= i < |c.simulator.orders| ==>
                  c.simulator.orders[i].quantity == c.simulator.orders[i].remaining + FilledFor(c.simulator.fills, c.simulator.orders[i].orderId))
            && (forall i :: 0 <= i < |c.ledger.positions| ==>
                  var p := c.ledger.positions[i];
                  && p.quantity == SignedQuantity(c.ledger.fills, p.instrument)
                  && p.instrument in c.simulator.rules
                  && QuantizeQuantity(c.simulator.rules[p.instrument], Abs(p.quantity)) == Abs(p.quantity))
            && c.ledger.Equity() == c.ledger.initialCash + TradingValue(c.ledger.fills, c.ledger.positions)
                                    - Fees(c.ledger.fills) + FundingTotal(c.ledger.fundingRecords)
  {
    RunIsSafe(Load(core, events), 0, maximum, None);
    var c := Run(Load(core, events), 0, maximum, None).state.core;
    forall i | 0 <= i < |c.ledger.positions|
      ensures QuantizeQuantity(c.simulator.rules[c.ledger.positions[i].instrument], Abs(c.ledger.positions[i].quantity))
              == Abs(c.ledger.positions[i].quantity)
    {
      var p := c.ledger.positions[i];
      assert WholeLots(c.ledger.rules, p.instrument, p.quantity);
      ExitIsNotShrunk(c.simulator.rules[p.instrument], p.quantity);
    }
    EquityIdentity(c.ledger);
  }

  lemma {:induction false} ExitIsNotShrunk(rules: InstrumentRules, quantity: real)
    requires Whole(quantity, rules.lotSize)
    ensures QuantizeQuantity(rules, Abs(quantity)) == Abs(quantity)
  {
    WholeSum(quantity, quantity, rules.lotSize);
    QuantizeQuantityIsWhole(rules, Abs(quantity));
  }
}

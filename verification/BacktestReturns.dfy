/**
 When a backtest returns: on calm input, where no price can be driven to zero and no order carries
 a protection price, no check of orders, fills or ledger fires and every run ends with a report.
 */
module BacktestReturns {
  import opened Common
  import opened Execution
  import opened Portfolio
  import opened Events
  import opened Backtest
  import opened BacktestSafety
  import opened BacktestTermination

  // ---------- Calm input ----------

  /** The most that slippage and impact together can move a price against the trader. */
  function CostRate(config: ExecutionConfig): real {
    (config.slippageBps + config.maximumImpactBps) / 10000.0
  }

  /** No protection prices, and a limit price that is still positive in whole ticks. */
  predicate CalmTerms(rules: Rulebook, instrument: Instrument, side: Side, limitPrice: Option<real>, stopLoss: Option<real>, takeProfit: Option<real>) {
    && stopLoss.None? && takeProfit.None?
    && (limitPrice.Some? ==>
          && limitPrice.value > 0.0
          && (side.Buy? && instrument in rules ==> limitPrice.value >= rules[instrument].tickSize))
  }

  predicate CalmSignal(rules: Rulebook, s: Signal) {
    CalmTerms(rules, s.instrument, s.side, s.limitPrice, s.stopLoss, s.takeProfit)
  }

  /** Even after all costs a sale at the bid brings a tick. */
  predicate CalmSnapshot(rules: Rulebook, config: ExecutionConfig, s: MarketSnapshot) {
    s.instrument in rules ==> AdversePrice(s.bid, Sell, CostRate(config)) >= rules[s.instrument].tickSize
  }

  predicate Calm(rules: Rulebook, config: ExecutionConfig, e: Event) {
    match e
    case MarketEvent(s) => CalmSnapshot(rules, config, s)
    case FundingEvent(_, _, _, _) => true
    case SignalEvent(s) => CalmSignal(rules, s)
    case OrderCreationEvent(at, s) => CalmSignal(rules, s) && at == s.timestamp + s.calculationDelay
    case OrderSubmissionEvent(_, o) => CalmTerms(rules, o.instrument, o.side, o.limitPrice, o.stopLoss, o.takeProfit)
  }

  /** A submitted order without protection prices whose limit, if any, is positive. */
  predicate Resting(o: Order) {
    o.stopLoss.None? && o.takeProfit.None? && (o.limitPrice.Some? ==> o.limitPrice.value > 0.0)
  }

  predicate AllRest(orders: seq<Order>) {
    forall i :: 0 <= i < |orders| ==> Resting(orders[i])
  }

  // ---------- Orders keep their terms ----------

  predicate SameTerms(a: Order, b: Order) {
    b.orderId == a.orderId && b.limitPrice == a.limitPrice && b.stopLoss == a.stopLoss && b.takeProfit == a.takeProfit
  }

  ghost predicate KeepsTerms(s: Simulator, s': Simulator) {
    && s'.rules == s.rules && s'.config == s.config && |s'.orders| == |s.orders|
    && forall i :: 0 <= i < |s.orders| ==> SameTerms(s.orders[i], s'.orders[i])
  }

  lemma {:induction false} TermsStayResting(s: Simulator, s': Simulator)
    requires KeepsTerms(s, s') && AllRest(s.orders)
    ensures AllRest(s'.orders) && forall id :: Submits(s'.orders, id) <==> Submits(s.orders, id)
  {
    forall i | 0 <= i < |s'.orders|
      ensures Resting(s'.orders[i])
    {
      assert SameTerms(s.orders[i], s'.orders[i]);
    }
    forall id
      ensures Submits(s'.orders, id) <==> Submits(s.orders, id)
    {
      if Submits(s'.orders, id) {
        var i :| 0 <= i < |s'.orders| && s'.orders[i].orderId == id;
        assert SameTerms(s.orders[i], s'.orders[i]);
      }
      if Submits(s.orders, id) {
        var i :| 0 <= i < |s.orders| && s.orders[i].orderId == id;
        assert SameTerms(s.orders[i], s'.orders[i]);
      }
    }
  }

  lemma {:induction false} ExecuteKeepsTerms(c: Core, i: nat, t: Decision, snapshot: MarketSnapshot, rules: InstrumentRules)
    requires i < |c.simulator.orders| && t.Trade? && Execute(c, i, t, snapshot, rules).Success?
    ensures KeepsTerms(c.simulator, Execute(c, i, t, snapshot, rules).value.simulator)
  {
  }

  lemma {:induction false} MatchOneKeepsTerms(c: Core, i: nat, snapshot: MarketSnapshot, rules: InstrumentRules)
    requires i < |c.simulator.orders| && MatchOne(c, i, snapshot, rules).Success?
    ensures KeepsTerms(c.simulator, MatchOne(c, i, snapshot, rules).value.simulator)
  {
    var decision := Decide(c.ledger, c.simulator.config, c.simulator.orders[i], snapshot, rules).value;
    DecisionIsSound(c.ledger, c.simulator.config, c.simulator.orders[i], snapshot, rules);
    if decision.Trade? {
      ExecuteKeepsTerms(c, i, decision, snapshot, rules);
    }
  }

  // ---------- Matching raises nothing ----------

  lemma {:induction false} LowerRate(top: real, small: real, large: real)
    requires top > 0.0 && small <= large
    ensures AdversePrice(top, Sell, large) <= AdversePrice(top, Sell, small)
  {
    assert top * small <= top * large;
    assert AdversePrice(top, Sell, small) == top - top * small;
    assert AdversePrice(top, Sell, large) == top - top * large;
  }

  /** A taker's price is positive: rounded up for a buy, and at least a tick for a sale. */
  lemma {:induction false} TakerPriceIsPositive(config: ExecutionConfig, order: Order, snapshot: MarketSnapshot, rules: InstrumentRules, quantity: real)
    requires quantity > 0.0 && AdversePrice(snapshot.bid, Sell, CostRate(config)) >= rules.tickSize
    ensures var d := TakerDetails(config, order, snapshot, rules, quantity);
            d.Success? && (d.value.Trade? ==> d.value.price > 0.0)
  {
    var top := snapshot.Top(order.side);
    var impact := ImpactBps(config, quantity, Depth(order, snapshot));
    var rate := config.slippageBps / 10000.0 + impact / 10000.0;
    assert 0.0 <= rate <= CostRate(config);
    var price := AdversePrice(top, order.side, rate);
    if order.side.Sell? {
      LowerRate(top, rate, CostRate(config));
      RoundDownIsFloor(price, rules.tickSize);
    } else {
      RoundUpIsCeiling(price, rules.tickSize);
    }
  }

  lemma {:induction false} DetailsSucceed(config: ExecutionConfig, order: Order, snapshot: MarketSnapshot, rules: InstrumentRules, cap: real)
    requires cap > 0.0 && Resting(order) && AdversePrice(snapshot.bid, Sell, CostRate(config)) >= rules.tickSize
    ensures var d := MatchDetails(config, order, snapshot, rules, cap);
            d.Success? && (d.value.Trade? ==> d.value.price > 0.0)
  {
    var quantity := TradableLots(rules, cap, Participation(config, order, snapshot));
    if quantity > 0.0 {
      TakerPriceIsPositive(config, order, snapshot, rules, quantity);
    }
  }

  lemma {:induction false} DecisionSucceeds(ledger: Ledger, config: ExecutionConfig, order: Order, snapshot: MarketSnapshot, rules: InstrumentRules)
    requires Resting(order) && AdversePrice(snapshot.bid, Sell, CostRate(config)) >= rules.tickSize
    ensures var d := Decide(ledger, config, order, snapshot, rules);
            d.Success? && (d.value.Trade? ==> d.value.price > 0.0)
  {
    var cap := FillCap(ledger, order, snapshot.Top(order.side));
    if cap > 0.0 {
      DetailsSucceed(config, order, snapshot, rules, cap);
    }
  }

  lemma {:induction false} MatchOneSucceeds(c: Core, i: nat, snapshot: MarketSnapshot)
    requires Inv(c) && i < |c.simulator.orders| && snapshot.instrument in c.simulator.rules
    requires AllRest(c.simulator.orders) && CalmSnapshot(c.simulator.rules, c.simulator.config, snapshot)
    ensures MatchOne(c, i, snapshot, c.simulator.rules[snapshot.instrument]).Success?
  {
    var order, rules := c.simulator.orders[i], c.simulator.rules[snapshot.instrument];
    assert Resting(order);
    DecisionSucceeds(c.ledger, c.simulator.config, order, snapshot, rules);
    DecisionIsSound(c.ledger, c.simulator.config, order, snapshot, rules);
    var decision := Decide(c.ledger, c.simulator.config, order, snapshot, rules).value;
    if decision.Trade? && Execute(c, i, decision, snapshot, rules).Failure? {
      ExecuteRefusals(c, i, decision, snapshot, rules);
    }
  }

  /** What matching needs of a core: the invariant, resting orders and a calm snapshot. */
  ghost predicate Matchable(c: Core, snapshot: MarketSnapshot) {
    && Inv(c) && snapshot.instrument in c.simulator.rules
    && AllRest(c.simulator.orders) && CalmSnapshot(c.simulator.rules, c.simulator.config, snapshot)
  }

  lemma {:induction false} MatchOneStaysMatchable(c: Core, i: nat, snapshot: MarketSnapshot)
    requires Matchable(c, snapshot) && i < |c.simulator.orders|
    ensures var r := MatchOne(c, i, snapshot, c.simulator.rules[snapshot.instrument]);
            r.Success? && Matchable(r.value, snapshot) && KeepsTerms(c.simulator, r.value.simulator) && OnlyMatched(c, r.value)
  {
    var rules := c.simulator.rules[snapshot.instrument];
    MatchOneSucceeds(c, i, snapshot);
    MatchOneIsSafe(c, i, snapshot);
    MatchOneKeepsTerms(c, i, snapshot, rules);
    TermsStayResting(c.simulator, MatchOne(c, i, snapshot, rules).value.simulator);
  }

  lemma {:induction false} MatchAllSucceeds(c: Core, candidates: seq<nat>, snapshot: MarketSnapshot)
    requires Matchable(c, snapshot)
    requires forall k :: 0 <= k < |candidates| ==> candidates[k] < |c.simulator.orders|
    ensures var r := MatchAll(c, candidates, snapshot, c.simulator.rules[snapshot.instrument]);
            r.Success? && KeepsTerms(c.simulator, r.value.simulator) && OnlyMatched(c, r.value)
    decreases |candidates|
  {
    if candidates != [] {
      var rules := c.simulator.rules[snapshot.instrument];
      MatchOneStaysMatchable(c, candidates[0], snapshot);
      var c1 := MatchOne(c, candidates[0], snapshot, rules).value;
      MatchAllSucceeds(c1, candidates[1..], snapshot);
      TermsCompose(c.simulator, c1.simulator, MatchAll(c1, candidates[1..], snapshot, rules).value.simulator);
    }
  }

  predicate OnlyMatched(c: Core, c': Core) {
    c'.orderSequence == c.orderSequence
  }

  lemma {:induction false} TermsCompose(a: Simulator, b: Simulator, c: Simulator)
    requires KeepsTerms(a, b) && KeepsTerms(b, c)
    ensures KeepsTerms(a, c)
  {
    forall i | 0 <= i < |a.orders|
      ensures SameTerms(a.orders[i], c.orders[i])
    {
      assert SameTerms(a.orders[i], b.orders[i]) && SameTerms(b.orders[i], c.orders[i]);
    }
  }

  // ---------- Settling ----------

  predicate CalmExits(rules: Rulebook, config: ExecutionConfig, pushes: seq<Event>) {
    forall i :: 0 <= i < |pushes| ==> !pushes[i].OrderSubmissionEvent? && Calm(rules, config, pushes[i])
  }

  lemma {:induction false} LiquidationExitsAreCalm(c: Core, instruments: seq<Instrument>, timestamp: int)
    ensures var e := LiquidationExits(c, instruments, timestamp);
            && CalmExits(c.simulator.rules, c.simulator.config, e.pushes)
            && e.core.simulator == c.simulator && e.core.orderSequence == c.orderSequence
    decreases |instruments|
  {
    if instruments != [] {
      var p := c.ledger.PositionOf(instruments[0]);
      if p.IsOpen() && p.instrument !in c.exitPending {
        LiquidationExitsAreCalm(ScheduleExit(c, p, timestamp, Liquidation).core, instruments[1..], timestamp);
      } else {
        LiquidationExitsAreCalm(c, instruments[1..], timestamp);
      }
    }
  }

  lemma {:induction false} CancellingKeepsTerms(s: Simulator)
    ensures KeepsTerms(s, s.(orders := CancelIncreasing(s.orders)))
  {
  }

  lemma {:induction false} LiquidateIsCalm(c: Core, timestamp: int)
    ensures var e := Liquidate(c, timestamp);
            && CalmExits(c.simulator.rules, c.simulator.config, e.pushes)
            && KeepsTerms(c.simulator, e.core.simulator) && e.core.orderSequence == c.orderSequence
  {
    var decision := DecideLiquidation(c.ledger, timestamp);
    if decision.Some? {
      var newly := Excluding(decision.value.instruments, c.liquidationPending);
      var logged := if newly == [] then c else
        c.(liquidations := c.liquidations + [decision.value],
           liquidationPending := c.liquidationPending + set x | x in newly);
      var cancelled := logged.(simulator := logged.simulator.(orders := CancelIncreasing(logged.simulator.orders)));
      CancellingKeepsTerms(c.simulator);
      LiquidationExitsAreCalm(cancelled, newly, timestamp);
    }
  }

  lemma {:induction false} ProtectiveExitIsCalm(c: Core, snapshot: MarketSnapshot)
    ensures var e := ProtectiveExit(c, snapshot);
            && CalmExits(c.simulator.rules, c.simulator.config, e.pushes)
            && e.core.simulator == c.simulator && e.core.orderSequence == c.orderSequence
  {
  }

  lemma {:induction false} SettleIsCalm(c: Core, snapshot: MarketSnapshot)
    ensures var e := Settle(c, snapshot);
            && CalmExits(c.simulator.rules, c.simulator.config, e.pushes)
            && KeepsTerms(c.simulator, e.core.simulator) && e.core.orderSequence == c.orderSequence
  {
    ProtectiveExitIsCalm(c, snapshot);
    LiquidateIsCalm(ProtectiveExit(c, snapshot).core, snapshot.timestamp);
  }

  lemma {:induction false} MarketSucceeds(c: Core, snapshot: MarketSnapshot)
    requires Inv(c) && AllRest(c.simulator.orders) && CalmSnapshot(c.simulator.rules, c.simulator.config, snapshot)
    ensures var r := OnMarket(c, snapshot);
            && r.Success? && CalmExits(c.simulator.rules, c.simulator.config, r.value.pushes)
            && KeepsTerms(c.simulator, r.value.core.simulator) && r.value.core.orderSequence == c.orderSequence
  {
    var start := c.(ledger := Mark(c.ledger, snapshot));
    MarkKeepsInv(c, snapshot);
    if snapshot.instrument in c.simulator.rules {
      MatchAllSucceeds(start, Candidates(start.simulator.orders, |start.simulator.orders|), snapshot);
    }
    var matched := MarkAndMatch(c, snapshot).value;
    SettleIsCalm(matched, snapshot);
    TermsCompose(c.simulator, matched.simulator, Settle(matched, snapshot).core.simulator);
  }

  // ---------- Every step ----------

  /** A queued event that cannot fail: calm, and a submission under an id that nothing else uses. */
  ghost predicate EntryOk(c: Core, x: Queued) {
    && Calm(c.simulator.rules, c.simulator.config, x.event)
    && (x.event.OrderSubmissionEvent? ==> x.event.order.orderId <= c.orderSequence && !Submits(c.simulator.orders, x.event.order.orderId))
  }

  ghost predicate OwnId(x: Queued, y: Queued) {
    x != y && x.event.OrderSubmissionEvent? && y.event.OrderSubmissionEvent? ==> x.event.order.orderId != y.event.order.orderId
  }

  ghost predicate QueueOk(c: Core, q: seq<Queued>) {
    && (forall x :: x in q ==> EntryOk(c, x))
    && (forall x, y :: x in q && y in q ==> OwnId(x, y))
  }

  ghost predicate CoreOk(c: Core) {
    && Inv(c) && AllRest(c.simulator.orders)
    && forall i :: 0 <= i < |c.simulator.orders| ==> c.simulator.orders[i].orderId <= c.orderSequence
  }

  ghost predicate Ready(s: State) {
    CoreOk(s.core) && WellFormed(s.queue) && QueueOk(s.core, s.queue.entries)
  }

  lemma {:induction false} PushOk(c: Core, queue: Queue, e: Event)
    requires WellFormed(queue) && QueueOk(c, queue.entries) && Calm(c.simulator.rules, c.simulator.config, e)
    requires e.OrderSubmissionEvent? ==>
               && e.order.orderId <= c.orderSequence && !Submits(c.simulator.orders, e.order.orderId)
               && forall x :: x in queue.entries && x.event.OrderSubmissionEvent? ==> x.event.order.orderId != e.order.orderId
    ensures WellFormed(Push(queue, e)) && QueueOk(c, Push(queue, e).entries)
  {
    PushKeepsWellFormed(queue, e);
    var added := Queued(queue.sequence + 1, e);
    forall x | x in Push(queue, e).entries
      ensures x in queue.entries || x == added
    {
      InsertMembers(queue.entries, added, x);
    }
  }

  lemma {:induction false} PushAllOk(c: Core, queue: Queue, events: seq<Event>)
    requires WellFormed(queue) && QueueOk(c, queue.entries) && CalmExits(c.simulator.rules, c.simulator.config, events)
    ensures WellFormed(PushAll(queue, events)) && QueueOk(c, PushAll(queue, events).entries)
    decreases |events|
  {
    if events != [] {
      PushOk(c, queue, events[0]);
      PushAllOk(c, Push(queue, events[0]), events[1..]);
    }
  }

  /** Popping leaves a queue that suits every core with the same terms. */
  lemma {:induction false} PopOk(s: State, c: Core)
    requires Ready(s) && s.queue.entries != []
    requires c.simulator.rules == s.core.simulator.rules && c.simulator.config == s.core.simulator.config
    requires c.orderSequence >= s.core.orderSequence
    requires forall id :: Submits(c.simulator.orders, id) ==>
               || Submits(s.core.simulator.orders, id)
               || (s.queue.entries[0].event.OrderSubmissionEvent? && id == s.queue.entries[0].event.order.orderId)
    ensures WellFormed(Queue(s.queue.entries[1..], s.queue.sequence)) && QueueOk(c, s.queue.entries[1..])
  {
    var q := s.queue.entries;
    TailKeepsWellFormed(s.queue);
    forall x | x in q[1..]
      ensures x in q && EntryOk(c, x)
    {
      var i :| 0 <= i < |q[1..]| && q[1..][i] == x;
      assert q[i + 1] == x && q[0].Before(q[i + 1]);
      assert EntryOk(s.core, x) && OwnId(q[0], x);
    }
  }

  lemma {:induction false} NormalizedRests(rules: Rulebook, o: Order)
    requires o.Fresh() && CalmTerms(rules, o.instrument, o.side, o.limitPrice, o.stopLoss, o.takeProfit)
    ensures Normalize(rules, o).Success? && Resting(Normalize(rules, o).value) && Normalize(rules, o).value.orderId == o.orderId
  {
    if o.instrument in rules && o.limitPrice.Some? {
      RoundDownIsFloor(o.limitPrice.value, rules[o.instrument].tickSize);
      RoundUpIsCeiling(o.limitPrice.value, rules[o.instrument].tickSize);
    }
  }

  lemma {:induction false} SubmissionOk(c: Core, o: Order)
    requires CoreOk(c) && o.Fresh() && o.orderId <= c.orderSequence && !Submits(c.simulator.orders, o.orderId)
    requires CalmTerms(c.simulator.rules, o.instrument, o.side, o.limitPrice, o.stopLoss, o.takeProfit)
    ensures Submit(c.simulator, o).Success? && CoreOk(c.(simulator := Submit(c.simulator, o).value))
    ensures forall id :: Submits(Submit(c.simulator, o).value.orders, id) ==> Submits(c.simulator.orders, id) || id == o.orderId
  {
    SubmitIsSafe(c, o);
    NormalizedRests(c.simulator.rules, o);
    var orders, all := c.simulator.orders, Submit(c.simulator, o).value.orders;
    forall id | Submits(all, id)
      ensures Submits(orders, id) || id == o.orderId
    {
      var i :| 0 <= i < |all| && all[i].orderId == id;
      assert i < |orders| ==> orders[i].orderId == id;
    }
  }

  function Traced(c: Core, e: Event): Core {
    c.(trace := c.trace + [TraceEntry(e.Timestamp(), KindOf(e))])
  }

  lemma {:induction false} MarketStep(s: State)
    requires Ready(s) && s.queue.entries != [] && s.queue.entries[0].event.MarketEvent?
    ensures Step(s).Success? && Ready(Step(s).value)
  {
    var e := s.queue.entries[0].event;
    assert EntryOk(s.core, s.queue.entries[0]);
    MarketSucceeds(Traced(s.core, e), e.snapshot);
    HandleIsSafe(s.core, e);
    var r := Handle(s.core, e).value;
    TermsStayResting(s.core.simulator, r.core.simulator);
    assert CoreOk(r.core) by {
      forall i | 0 <= i < |r.core.simulator.orders|
        ensures r.core.simulator.orders[i].orderId <= r.core.orderSequence
      {
        assert SameTerms(s.core.simulator.orders[i], r.core.simulator.orders[i]);
      }
    }
    PopOk(s, r.core);
    PushAllOk(r.core, Queue(s.queue.entries[1..], s.queue.sequence), r.pushes);
  }

  lemma {:induction false} CalmOrderIsWellFormed(rules: Rulebook, signal: Signal, orderId: nat)
    requires CalmSignal(rules, signal)
    ensures OrderFor(signal, orderId, signal.timestamp + signal.calculationDelay).Fresh()
  {
  }

  lemma {:induction false} NewIdIsFree(s: State, c: Core, orderId: nat)
    requires Ready(s) && s.queue.entries != [] && orderId > s.core.orderSequence
    requires c.simulator == s.core.simulator
    ensures !Submits(c.simulator.orders, orderId)
    ensures forall x :: x in s.queue.entries[1..] && x.event.OrderSubmissionEvent? ==> x.event.order.orderId != orderId
  {
    forall x | x in s.queue.entries[1..] && x.event.OrderSubmissionEvent?
      ensures x.event.order.orderId != orderId
    {
      assert x in s.queue.entries && EntryOk(s.core, x);
    }
  }

  lemma {:induction false} CreationStep(s: State)
    requires Ready(s) && s.queue.entries != [] && s.queue.entries[0].event.OrderCreationEvent?
    ensures Step(s).Success? && Ready(Step(s).value)
  {
    var e := s.queue.entries[0].event;
    assert EntryOk(s.core, s.queue.entries[0]);
    var id := s.core.orderSequence + 1;
    CalmOrderIsWellFormed(s.core.simulator.rules, e.signal, id);
    var order := OrderFor(e.signal, id, e.at);
    var c := Traced(s.core, e).(orderSequence := id);
    var rest := Queue(s.queue.entries[1..], s.queue.sequence);
    PopOk(s, c);
    NewIdIsFree(s, c, id);
    var pushed: Event := OrderSubmissionEvent(order.submittedAt, order);
    PushOk(c, rest, pushed);
    assert PushAll(rest, [pushed]) == Push(rest, pushed);
    assert Step(s).value == State(c, PushAll(rest, [pushed]));
  }

  lemma {:induction false} SubmissionStep(s: State)
    requires Ready(s) && s.queue.entries != [] && s.queue.entries[0].event.OrderSubmissionEvent?
    ensures Step(s).Success? && Ready(Step(s).value)
  {
    var e := s.queue.entries[0].event;
    assert EntryOk(s.core, s.queue.entries[0]);
    SubmissionOk(Traced(s.core, e), e.order);
    PopOk(s, Handle(s.core, e).value.core);
  }

  lemma {:induction false} SignalStep(s: State)
    requires Ready(s) && s.queue.entries != [] && s.queue.entries[0].event.SignalEvent?
    ensures Step(s).Success? && Ready(Step(s).value)
  {
    var e := s.queue.entries[0].event;
    assert EntryOk(s.core, s.queue.entries[0]);
    var r := OnSignal(Traced(s.core, e), e.signal);
    PopOk(s, r.core);
    PushAllOk(r.core, Queue(s.queue.entries[1..], s.queue.sequence), r.pushes);
  }

  lemma {:induction false} FundingStep(s: State)
    requires Ready(s) && s.queue.entries != [] && s.queue.entries[0].event.FundingEvent?
    ensures Step(s).Success? && Ready(Step(s).value)
  {
    var e := s.queue.entries[0].event;
    HandleIsSafe(s.core, e);
    PopOk(s, OnFunding(Traced(s.core, e), e).core);
  }

  lemma {:induction false} StepReturns(s: State)
    requires Ready(s) && s.queue.entries != []
    ensures Step(s).Success? && Ready(Step(s).value)
  {
    if s.queue.entries[0].event.MarketEvent? {
      MarketStep(s);
    } else if s.queue.entries[0].event.OrderCreationEvent? {
      CreationStep(s);
    } else if s.queue.entries[0].event.OrderSubmissionEvent? {
      SubmissionStep(s);
    } else if s.queue.entries[0].event.SignalEvent? {
      SignalStep(s);
    } else {
      FundingStep(s);
    }
  }

  /** From a ready state a run raises nothing but the event limit. */
  lemma {:induction false} OnlyTheLimit(s: State, processed: int, maximum: int)
    requires Ready(s)
    ensures var r := Run(s, processed, maximum, None); r.Stopped? || r.error.MaximumEventsExceeded?
    decreases maximum - processed
  {
    if s.queue.entries != [] && processed < maximum {
      StepReturns(s);
      OnlyTheLimit(Step(s).value, processed + 1, maximum);
    }
  }

  /** A new engine loaded with calm signals, fundings and market events is ready. */
  lemma {:induction false} LoadIsReady(initialCash: real, leverage: real, rules: Rulebook, config: ExecutionConfig, events: seq<Event>)
    requires initialCash > 0.0 && leverage > 0.0
    requires CalmExits(rules, config, events)
    ensures Ready(Load(NewCore(initialCash, leverage, rules, config), events))
  {
    var core := NewCore(initialCash, leverage, rules, config);
    InitiallyInv(initialCash, leverage, rules, config);
    PushAllOk(core, Queue([], 0), events);
  }

  /**
   The backtest returns: for calm signals, fundings and market events and a limit of at least
   3S + F + (1 + 3K)M, no error is raised, the queue is worked off within that many events, and the
   report of the run exists.
   */
  lemma {:induction false} BacktestReturnsOnCalmInput(initialCash: real, leverage: real, rules: Rulebook, config: ExecutionConfig,
                                                      events: seq<Event>, maximum: int)
    requires initialCash > 0.0 && leverage > 0.0
    requires forall i :: 0 <= i < |events| ==>
               (IsSignal(events[i]) || IsFunding(events[i]) || IsMarket(events[i])) && Calm(rules, config, events[i])
    requires maximum >= Bound(events, |rules|)
    ensures var r := Run(Load(NewCore(initialCash, leverage, rules, config), events), 0, maximum, None);
            r.Stopped? && r.state.queue.entries == [] && r.processed <= Bound(events, |rules|)
  {
    var core := NewCore(initialCash, leverage, rules, config);
    InitiallyInv(initialCash, leverage, rules, config);
    LoadIsReady(initialCash, leverage, rules, config, events);
    OnlyTheLimit(Load(core, events), 0, maximum);
    ProcessedAtMost(core, events, maximum);
    StoppedIsDone(Load(core, events), 0, maximum);
  }

  lemma {:induction false} StoppedIsDone(s: State, processed: int, maximum: int)
    requires Run(s, processed, maximum, None).Stopped?
    ensures Run(s, processed, maximum, None).state.queue.entries == []
    decreases maximum - processed
  {
    if s.queue.entries != [] {
      StoppedIsDone(Step(s).value, processed + 1, maximum);
    }
  }
}

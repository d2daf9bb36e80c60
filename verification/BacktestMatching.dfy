/** Price-time order of matching, conservative prices and sizes, and complete liquidation. */
module BacktestMatching {
  import opened Common
  import opened Execution
  import opened Portfolio
  import opened Events
  import opened Backtest
  import opened BacktestSafety

  // ---------- Matching order ----------

  ghost predicate InOrder(orders: seq<Order>, r: seq<nat>) {
    && (forall k :: 0 <= k < |r| ==> r[k] < |orders|)
    && forall i, j :: 0 <= i < j < |r| ==> !Earlier(orders[r[j]], orders[r[i]])
  }

  lemma {:induction false} InsertCandidateMembers(orders: seq<Order>, sorted: seq<nat>, i: nat)
    requires i < |orders| && forall k :: 0 <= k < |sorted| ==> sorted[k] < |orders|
    ensures forall x :: x in InsertCandidate(orders, sorted, i) <==> x in sorted || x == i
    ensures |InsertCandidate(orders, sorted, i)| == |sorted| + 1
  {
    if sorted != [] && !Earlier(orders[i], orders[sorted[0]]) {
      InsertCandidateMembers(orders, sorted[1..], i);
      assert sorted == [sorted[0]] + sorted[1..];
    }
  }

  lemma {:induction false} InsertCandidateKeepsOrder(orders: seq<Order>, sorted: seq<nat>, i: nat)
    requires i < |orders| && InOrder(orders, sorted)
    ensures InOrder(orders, InsertCandidate(orders, sorted, i))
  {
    if sorted != [] && !Earlier(orders[i], orders[sorted[0]]) {
      var r := InsertCandidate(orders, sorted[1..], i);
      InsertCandidateKeepsOrder(orders, sorted[1..], i);
      InsertCandidateMembers(orders, sorted[1..], i);
      forall j | 0 <= j < |r|
        ensures !Earlier(orders[r[j]], orders[sorted[0]])
      {
        assert r[j] in r;
      }
    } else if sorted != [] {
      forall j | 0 <= j < |sorted|
        ensures !Earlier(orders[sorted[j]], orders[i])
      {
        assert j > 0 ==> !Earlier(orders[sorted[j]], orders[sorted[0]]);
      }
    }
  }

  /** Orders are matched in the order of submission time and then order id ... */
  lemma {:induction false} CandidatesAreSorted(orders: seq<Order>, n: nat)
    requires n <= |orders|
    ensures InOrder(orders, Candidates(orders, n))
  {
    if n > 0 {
      CandidatesAreSorted(orders, n - 1);
      InsertCandidateKeepsOrder(orders, Candidates(orders, n - 1), n - 1);
    }
  }

  /** ... and each of the `n` orders once: there are `n` candidates and every index is among them. */
  lemma {:induction false} CandidatesAreComplete(orders: seq<Order>, n: nat)
    requires n <= |orders|
    ensures |Candidates(orders, n)| == n
    ensures forall x: nat :: x in Candidates(orders, n) <==> x < n
  {
    if n > 0 {
      CandidatesAreComplete(orders, n - 1);
      InsertCandidateMembers(orders, Candidates(orders, n - 1), n - 1);
    }
  }

  // ---------- Conservative fills ----------

  /**
   No optimistic fill: a taker never does better than the touch and never takes more than its share
   of the displayed depth, a limit is respected, and a maker fills exactly at the limit price that a
   later trade reached.
   */
  ghost predicate Conservative(config: ExecutionConfig, order: Order, snapshot: MarketSnapshot, t: Decision)
    requires t.Trade?
  {
    && (t.liquidity.Taker? && order.side.Buy? ==> t.price >= snapshot.ask)
    && (t.liquidity.Taker? && order.side.Sell? ==> t.price <= snapshot.bid)
    && (t.liquidity.Taker? ==> t.quantity <= Participation(config, order, snapshot))
    && (order.limitPrice.Some? ==> if order.side.Buy? then t.price <= order.limitPrice.value else t.price >= order.limitPrice.value)
    && (t.liquidity.Maker? ==> order.limitPrice == Some(t.price) && PassiveTradeReached(order, snapshot))
    && (order.postOnly ==> t.liquidity.Maker?)
  }

  lemma {:induction false} TakerIsConservative(config: ExecutionConfig, order: Order, snapshot: MarketSnapshot, rules: InstrumentRules, quantity: real)
    requires 0.0 < quantity <= Participation(config, order, snapshot) && !order.postOnly
    requires TakerDetails(config, order, snapshot, rules, quantity).Success?
    requires TakerDetails(config, order, snapshot, rules, quantity).value.Trade?
    ensures Conservative(config, order, snapshot, TakerDetails(config, order, snapshot, rules, quantity).value)
  {
    var top := snapshot.Top(order.side);
    var rate := config.slippageBps / 10000.0 + ImpactBps(config, quantity, Depth(order, snapshot)) / 10000.0;
    assert rate >= 0.0;
    RoundingIsConservative(rules, AdversePrice(top, order.side, rate), order.side);
  }

  /** Every trade the matcher decides on is conservative. */
  lemma {:induction false} TradesAreConservative(ledger: Ledger, config: ExecutionConfig, order: Order, snapshot: MarketSnapshot, rules: InstrumentRules)
    requires Decide(ledger, config, order, snapshot, rules).Success? && Decide(ledger, config, order, snapshot, rules).value.Trade?
    ensures Conservative(config, order, snapshot, Decide(ledger, config, order, snapshot, rules).value)
  {
    var cap := FillCap(ledger, order, snapshot.Top(order.side));
    assert cap > 0.0;
    if order.orderType.Market? || IsMarketable(order, snapshot) {
      TakerIsConservative(config, order, snapshot, rules, TradableLots(rules, cap, Participation(config, order, snapshot)));
    }
  }

  // ---------- Exits and liquidation ----------

  /** Filling an exit order in full closes the position it was scheduled for. */
  lemma {:induction false} ExitClosesPosition(p: Position, timestamp: int, reason: ExitReason, n: nat, fill: Fill)
    requires p.IsOpen()
    requires fill.side == ExitSignal(p, timestamp, reason, n).side && fill.quantity == ExitSignal(p, timestamp, reason, n).quantity
    ensures ExitSignal(p, timestamp, reason, n).reduceOnly && GuardReduceOnly(p, fill).None?
    ensures !FillPosition(p, fill).IsOpen()
  {
    ReduceOnlyShrinks(p, fill);
  }

  /** A liquidated instrument always has an exit on its way. */
  predicate ExitsCover(c: Core) {
    c.liquidationPending <= c.exitPending
  }

  lemma {:induction false} LiquidationExitsCover(c: Core, instruments: seq<Instrument>, timestamp: int)
    ensures var e := LiquidationExits(c, instruments, timestamp);
            && c.exitPending <= e.core.exitPending
            && e.core == c.(exitPending := e.core.exitPending, exitSequence := e.core.exitSequence)
            && forall i :: 0 <= i < |instruments| && c.ledger.PositionOf(instruments[i]).IsOpen() ==> instruments[i] in e.core.exitPending
    decreases |instruments|
  {
    if instruments != [] {
      var p := c.ledger.PositionOf(instruments[0]);
      var next := if p.IsOpen() && p.instrument !in c.exitPending then ScheduleExit(c, p, timestamp, Liquidation).core else c;
      LiquidationExitsCover(next, instruments[1..], timestamp);
      var e := LiquidationExits(c, instruments, timestamp);
      forall i | 0 <= i < |instruments| && c.ledger.PositionOf(instruments[i]).IsOpen()
        ensures instruments[i] in e.core.exitPending
      {
        if i > 0 {
          assert instruments[1..][i - 1] == instruments[i];
        }
      }
    }
  }

  lemma {:induction false} ExcludingSplits(instruments: seq<Instrument>, pending: set<Instrument>)
    ensures forall x :: x in instruments <==> x in Excluding(instruments, pending) || (x in pending && x in instruments)
  {
    if instruments != [] {
      ExcludingSplits(instruments[1..], pending);
      assert instruments == [instruments[0]] + instruments[1..];
    }
  }

  lemma {:induction false} OpenIsFound(ps: seq<Position>, instrument: Instrument)
    requires Distinct(ps) && instrument in OpenInstruments(ps)
    ensures Find(ps, instrument).IsOpen()
  {
    var i :| 0 <= i < |ps| && ps[i].IsOpen() && ps[i].instrument == instrument;
    assert IndexOf(ps, instrument) == i;
  }

  /**
   When equity has fallen to the maintenance margin, every open position gets an exit, the decision
   is logged once per newly liquidated instrument, and no order that could add risk stays live.
   */
  lemma {:induction false} LiquidationIsComplete(c: Core, timestamp: int)
    requires Distinct(c.ledger.positions) && ExitsCover(c)
    ensures var c' := Liquidate(c, timestamp).core;
            && ExitsCover(c')
            && (OpenInstruments(c.ledger.positions) != [] && c.ledger.Equity() <= c.ledger.MaintenanceMargin() ==>
                  && (forall x :: x in OpenInstruments(c.ledger.positions) ==> x in c'.exitPending && x in c'.liquidationPending)
                  && (forall i :: 0 <= i < |c'.simulator.orders| ==> c'.simulator.orders[i].reduceOnly || c'.simulator.orders[i].status.Terminal()))
  {
    var decision := DecideLiquidation(c.ledger, timestamp);
    SortedByName(OpenInstruments(c.ledger.positions));
    if decision.None? {
      assert SortByName(OpenInstruments(c.ledger.positions)) == [] || c.ledger.Equity() > c.ledger.MaintenanceMargin();
    } else {
      var open := decision.value.instruments;
      var newly := Excluding(open, c.liquidationPending);
      var logged := if newly == [] then c else
        c.(liquidations := c.liquidations + [decision.value],
           liquidationPending := c.liquidationPending + set x | x in newly);
      var cancelled := logged.(simulator := logged.simulator.(orders := CancelIncreasing(logged.simulator.orders)));
      LiquidationExitsCover(cancelled, newly, timestamp);
      ExcludingSplits(open, c.liquidationPending);
      forall x | x in newly
        ensures x in Liquidate(c, timestamp).core.exitPending
      {
        OpenIsFound(c.ledger.positions, x);
        var i :| 0 <= i < |newly| && newly[i] == x;
      }
    }
  }

  lemma {:induction false} MatchAllKeepsCover(c: Core, candidates: seq<nat>, snapshot: MarketSnapshot, rules: InstrumentRules)
    requires forall k :: 0 <= k < |candidates| ==> candidates[k] < |c.simulator.orders|
    requires ExitsCover(c) && MatchAll(c, candidates, snapshot, rules).Success?
    ensures ExitsCover(MatchAll(c, candidates, snapshot, rules).value)
    decreases |candidates|
  {
    if candidates != [] {
      MatchAllKeepsCover(MatchOne(c, candidates[0], snapshot, rules).value, candidates[1..], snapshot, rules);
    }
  }

  /** Over every event, an instrument marked for liquidation has a pending exit. */
  lemma {:induction false} HandleKeepsCover(c: Core, e: Event)
    requires Inv(c) && ExitsCover(c) && Handle(c, e).Success?
    ensures ExitsCover(Handle(c, e).value.core)
  {
    if e.MarketEvent? {
      var traced := c.(trace := c.trace + [TraceEntry(e.Timestamp(), KindOf(e))]);
      var start := traced.(ledger := Mark(traced.ledger, e.snapshot));
      if e.snapshot.instrument in c.simulator.rules {
        MatchAllKeepsCover(start, Candidates(start.simulator.orders, |start.simulator.orders|), e.snapshot, c.simulator.rules[e.snapshot.instrument]);
      }
      MarkAndMatchIsSafe(traced, e.snapshot);
      var exit := ProtectiveExit(MarkAndMatch(traced, e.snapshot).value, e.snapshot).core;
      LiquidationIsComplete(exit, e.snapshot.timestamp);
    }
  }

  /** Over every run as well. */
  lemma {:induction false} RunKeepsCover(s: State, processed: int, maximum: int, horizon: Option<int>)
    requires Inv(s.core) && ExitsCover(s.core) && Run(s, processed, maximum, horizon).Stopped?
    ensures ExitsCover(Run(s, processed, maximum, horizon).state.core)
    decreases maximum - processed
  {
    if !Done(s, horizon) {
      HandleIsSafe(s.core, s.queue.entries[0].event);
      HandleKeepsCover(s.core, s.queue.entries[0].event);
      RunKeepsCover(Step(s).value, processed + 1, maximum, horizon);
    }
  }
}

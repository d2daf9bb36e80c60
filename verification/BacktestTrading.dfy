/**
 How much trades, at which price, and what becomes of an order that does not: the matcher's decision
 against what margin, depth, limit and time in force say, stated without the matcher's own steps.
 */
module BacktestTrading {
  import opened Common
  import opened Execution
  import opened Portfolio
  import opened Events
  import opened Backtest
  import BacktestSafety

  // ---------- What an order can afford ----------

  function TakerFee(l: Ledger, instrument: Instrument): (r: real)
    ensures r >= 0.0
  {
    if instrument in l.rules then l.rules[instrument].takerFeeRate else 0.0
  }

  /** Margin and fee for opening one unit at the touch. */
  function UnitCost(l: Ledger, instrument: Instrument, top: real): (r: real)
    ensures top > 0.0 ==> r > 0.0
  {
    var fee := TakerFee(l, instrument);
    assert top > 0.0 ==> top / l.leverage > 0.0 && top * fee >= 0.0;
    top / l.leverage + top * fee
  }

  /** Equity that is not tied up as margin. */
  function FreeMargin(l: Ledger): real {
    Max(0.0, l.Equity() - l.GrossExposure() / l.leverage)
  }

  /** What an order of that side can close. */
  function Closable(l: Ledger, order: Order): (r: real)
    ensures r >= 0.0
  {
    var p := l.PositionOf(order.instrument);
    if p.ReducedBy(order.side) then Abs(p.quantity) else 0.0
  }

  function Charge(quantity: real, unit: real): real {
    quantity * unit
  }

  /** Within the remainder, only closing if reduce-only, and else with free margin for what it opens. */
  predicate Affordable(l: Ledger, order: Order, top: real, q: real) {
    && q <= order.remaining
    && if order.reduceOnly then q <= Closable(l, order)
       else Charge(Max(0.0, q - Closable(l, order)), UnitCost(l, order.instrument, top)) <= FreeMargin(l)
  }

  lemma {:induction false} WithinQuotient(x: real, total: real, unit: real)
    requires unit > 0.0
    ensures x <= total / unit <==> Charge(x, unit) <= total
  {
    var quotient := total / unit;
    assert quotient * unit == total;
    if x < quotient {
      MulLess(x, quotient, unit);
    } else if quotient < x {
      MulLess(quotient, x, unit);
    }
  }

  lemma {:induction false} CapIsAffordable(l: Ledger, order: Order, top: real, q: real)
    requires top > 0.0 && q >= 0.0
    ensures q <= FillCap(l, order, top) <==> Affordable(l, order, top, q)
  {
    if !order.reduceOnly {
      var unit, closing := UnitCost(l, order.instrument, top), Closable(l, order);
      WithinQuotient(Max(0.0, q - closing), FreeMargin(l), unit);
      WithinQuotient(0.0, FreeMargin(l), unit);
      assert l.AvailableMargin() == FreeMargin(l);
    }
  }

  lemma {:induction false} SomethingIsAffordable(l: Ledger, order: Order, top: real)
    requires top > 0.0
    ensures FillCap(l, order, top) > 0.0 <==> exists q :: q > 0.0 && Affordable(l, order, top, q)
  {
    var cap := FillCap(l, order, top);
    if cap > 0.0 {
      CapIsAffordable(l, order, top, cap);
    }
    forall q | q > 0.0 && Affordable(l, order, top, q)
      ensures cap > 0.0
    {
      CapIsAffordable(l, order, top, q);
    }
  }

  // ---------- Whole lots ----------

  lemma {:induction false} WholeBelow(x: real, y: real, unit: real)
    requires unit > 0.0 && Whole(x, unit) && x <= y
    ensures x <= RoundDown(y, unit)
  {
    RoundDownIsFloor(y, unit);
    var k: int :| x == Units(k, unit);
    var f: int :| RoundDown(y, unit) == Units(f, unit);
    if f < k {
      AUnitApart(f, k, unit);
    }
  }

  lemma {:induction false} LotsAreLargest(rules: InstrumentRules, cap: real, available: real, x: real)
    requires cap > 0.0 && x >= 0.0 && Whole(x, rules.lotSize) && x <= cap && x <= available
    ensures x <= TradableLots(rules, cap, available)
  {
    var lots := QuantizeQuantity(rules, available);
    if x > 0.0 {
      WholeBelow(x, available, rules.lotSize);
      WholeBelow(x, Min(cap, lots), rules.lotSize);
    } else {
      QuantizeQuantityIsWhole(rules, Min(cap, lots));
    }
  }

  // ---------- Prices ----------

  /** The order is willing to trade at the price. */
  predicate Accepts(order: Order, price: real) {
    order.limitPrice.None? || if order.side.Buy? then price <= order.limitPrice.value else price >= order.limitPrice.value
  }

  /** The other side of the book is there at the price. */
  predicate Offers(snapshot: MarketSnapshot, side: Side, price: real) {
    if side.Buy? then price >= snapshot.ask else price <= snapshot.bid
  }

  ghost predicate Crosses(order: Order, snapshot: MarketSnapshot) {
    exists price: real :: Accepts(order, price) && Offers(snapshot, order.side, price)
  }

  /** A trade happened at a price that the order accepts. */
  predicate Reached(order: Order, snapshot: MarketSnapshot) {
    order.limitPrice.Some? && snapshot.lastPrice.Some? && Accepts(order, snapshot.lastPrice.value)
  }

  predicate Typed(order: Order) {
    order.orderType.Limit? <==> order.limitPrice.Some?
  }

  lemma {:induction false} CrossesExactly(order: Order, snapshot: MarketSnapshot)
    requires Typed(order)
    ensures Crosses(order, snapshot) <==> IsMarketable(order, snapshot)
    ensures Reached(order, snapshot) <==> PassiveTradeReached(order, snapshot)
  {
    if IsMarketable(order, snapshot) {
      assert Accepts(order, snapshot.Top(order.side)) && Offers(snapshot, order.side, snapshot.Top(order.side));
    }
  }

  /** The touch moved against the trader by slippage and impact. */
  function WorsenedTouch(config: ExecutionConfig, order: Order, snapshot: MarketSnapshot, q: real): real {
    var depth := if order.side.Buy? then snapshot.askQuantity else snapshot.bidQuantity;
    var moved := Charge(snapshot.Top(order.side), (config.slippageBps + ImpactBps(config, q, depth)) / 10000.0);
    if order.side.Buy? then snapshot.ask + moved else snapshot.bid - moved
  }

  /** The price in whole ticks next to the worsened touch, on the trader's worse side. */
  ghost predicate IsTakerPrice(config: ExecutionConfig, order: Order, snapshot: MarketSnapshot, rules: InstrumentRules, q: real, price: real) {
    var raw := WorsenedTouch(config, order, snapshot, q);
    && Whole(price, rules.tickSize)
    && if order.side.Buy? then raw <= price < raw + rules.tickSize else raw - rules.tickSize < price <= raw
  }

  lemma {:induction false} OneInATick(a: real, b: real, unit: real)
    requires unit > 0.0 && Whole(a, unit) && Whole(b, unit) && -unit < a - b < unit
    ensures a == b
  {
    var i: int :| a == Units(i, unit);
    var j: int :| b == Units(j, unit);
    if i < j {
      AUnitApart(i, j, unit);
    } else if j < i {
      AUnitApart(j, i, unit);
    }
  }

  lemma {:induction false} AdverseIsWorsened(config: ExecutionConfig, order: Order, snapshot: MarketSnapshot, q: real)
    ensures AdversePrice(snapshot.Top(order.side), order.side,
                         config.slippageBps / 10000.0 + ImpactBps(config, q, Depth(order, snapshot)) / 10000.0)
            == WorsenedTouch(config, order, snapshot, q)
  {
    var top, impact := snapshot.Top(order.side), ImpactBps(config, q, Depth(order, snapshot));
    var rate := config.slippageBps / 10000.0 + impact / 10000.0;
    assert rate == (config.slippageBps + impact) / 10000.0;
    assert top * (1.0 + rate) == top + top * rate;
    assert top * (1.0 + -1.0 * rate) == top - top * rate;
  }

  /** A taker trades at that price and keeps its order when its limit does not accept it. */
  lemma {:induction false} TakerPrices(config: ExecutionConfig, order: Order, snapshot: MarketSnapshot, rules: InstrumentRules, q: real)
    requires TakerDetails(config, order, snapshot, rules, q).Success?
    ensures var d := TakerDetails(config, order, snapshot, rules, q).value;
            && (d.Trade? ==> d.quantity == q && d.liquidity.Taker? && IsTakerPrice(config, order, snapshot, rules, q, d.price) && Accepts(order, d.price))
            && (d.Keep? ==> d.order == order && exists price: real :: IsTakerPrice(config, order, snapshot, rules, q, price) && !Accepts(order, price))
  {
    var raw := WorsenedTouch(config, order, snapshot, q);
    AdverseIsWorsened(config, order, snapshot, q);
    RoundingIsConservative(rules, raw, order.side);
    var price := QuantizeExecutionPrice(rules, raw, order.side).value;
    assert IsTakerPrice(config, order, snapshot, rules, q, price);
  }

  /** There is one such price. */
  lemma {:induction false} TakerPriceIsUnique(config: ExecutionConfig, order: Order, snapshot: MarketSnapshot, rules: InstrumentRules, q: real, a: real, b: real)
    requires IsTakerPrice(config, order, snapshot, rules, q, a) && IsTakerPrice(config, order, snapshot, rules, q, b)
    ensures a == b
  {
    OneInATick(a, b, rules.tickSize);
  }

  // ---------- The decision ----------

  /** The snapshot may match the order: same instrument, strictly later than submission, before expiry. */
  predicate Live(order: Order, snapshot: MarketSnapshot) {
    && Due(order, snapshot)
    && (order.expiresAt.Some? ==> snapshot.timestamp < order.expiresAt.value)
  }

  predicate Due(order: Order, snapshot: MarketSnapshot) {
    !order.status.Terminal() && order.instrument == snapshot.instrument && order.submittedAt < snapshot.timestamp
  }

  /** An order that has not traded yet must be worth the minimum at the mid price. */
  predicate BigEnough(order: Order, snapshot: MarketSnapshot, rules: InstrumentRules) {
    order.remaining != order.quantity || Charge(order.quantity, (snapshot.bid + snapshot.ask) / 2.0) >= rules.minimumNotional
  }

  /** What the market lets one order have: a share of the depth, or of the last trade. */
  ghost function OnOffer(config: ExecutionConfig, order: Order, snapshot: MarketSnapshot): real {
    if Crosses(order, snapshot) then Charge(if order.side.Buy? then snapshot.askQuantity else snapshot.bidQuantity, config.participationRate)
    else Charge(snapshot.tradeQuantity.GetOr(0.0), config.passiveFillFraction)
  }

  ghost predicate Admissible(l: Ledger, config: ExecutionConfig, order: Order, snapshot: MarketSnapshot, rules: InstrumentRules, q: real) {
    && q > 0.0 && Whole(q, rules.lotSize)
    && Affordable(l, order, snapshot.Top(order.side), q) && q <= OnOffer(config, order, snapshot)
  }

  /** The largest positive quantity in whole lots that order, margin and market admit. */
  ghost predicate IsLargest(l: Ledger, config: ExecutionConfig, order: Order, snapshot: MarketSnapshot, rules: InstrumentRules, q: real) {
    && Admissible(l, config, order, snapshot, rules, q)
    && forall x: real :: Admissible(l, config, order, snapshot, rules, x) ==> x <= q
  }

  /** Quantity and price of a trade, and the conditions on both. */
  ghost predicate Tradable(l: Ledger, config: ExecutionConfig, order: Order, snapshot: MarketSnapshot, rules: InstrumentRules, q: real, price: real) {
    && IsLargest(l, config, order, snapshot, rules, q)
    && if Crosses(order, snapshot) then !order.postOnly && Accepts(order, price) && IsTakerPrice(config, order, snapshot, rules, q, price)
       else Reached(order, snapshot) && order.limitPrice == Some(price)
  }

  lemma {:induction false} LotsAreAdmissible(l: Ledger, config: ExecutionConfig, order: Order, snapshot: MarketSnapshot, rules: InstrumentRules)
    requires Typed(order) && FillCap(l, order, snapshot.Top(order.side)) > 0.0
    ensures var q := TradableLots(rules, FillCap(l, order, snapshot.Top(order.side)), OnOffer(config, order, snapshot));
            && (q > 0.0 ==> IsLargest(l, config, order, snapshot, rules, q))
            && (q <= 0.0 ==> forall x: real :: !Admissible(l, config, order, snapshot, rules, x))
  {
    var top := snapshot.Top(order.side);
    var cap, offer := FillCap(l, order, top), OnOffer(config, order, snapshot);
    var q := TradableLots(rules, cap, offer);
    if q > 0.0 {
      CapIsAffordable(l, order, top, q);
    }
    forall x: real | Admissible(l, config, order, snapshot, rules, x)
      ensures x <= q
    {
      CapIsAffordable(l, order, top, x);
      LotsAreLargest(rules, cap, offer, x);
    }
  }

  lemma {:induction false} LargestIsUnique(l: Ledger, config: ExecutionConfig, order: Order, snapshot: MarketSnapshot, rules: InstrumentRules, a: real, b: real)
    requires IsLargest(l, config, order, snapshot, rules, a) && IsLargest(l, config, order, snapshot, rules, b)
    ensures a == b
  {
  }

  /** A trade is tradable, and nothing is when there is no trade. */
  ghost predicate Decides(l: Ledger, config: ExecutionConfig, order: Order, snapshot: MarketSnapshot, rules: InstrumentRules, d: Decision) {
    if d.Trade?
    then && Tradable(l, config, order, snapshot, rules, d.quantity, d.price)
         && (d.liquidity.Taker? <==> Crosses(order, snapshot))
    else forall q: real, price: real :: !Tradable(l, config, order, snapshot, rules, q, price)
  }

  lemma {:induction false} TakerDecides(l: Ledger, config: ExecutionConfig, order: Order, snapshot: MarketSnapshot, rules: InstrumentRules, q: real)
    requires Crosses(order, snapshot) && !order.postOnly
    requires IsLargest(l, config, order, snapshot, rules, q) && TakerDetails(config, order, snapshot, rules, q).Success?
    ensures Decides(l, config, order, snapshot, rules, TakerDetails(config, order, snapshot, rules, q).value)
  {
    TakerPrices(config, order, snapshot, rules, q);
    var d := TakerDetails(config, order, snapshot, rules, q).value;
    if d.Keep? {
      var refused: real :| IsTakerPrice(config, order, snapshot, rules, q, refused) && !Accepts(order, refused);
      forall x: real, price: real
        ensures !Tradable(l, config, order, snapshot, rules, x, price)
      {
        if Tradable(l, config, order, snapshot, rules, x, price) {
          LargestIsUnique(l, config, order, snapshot, rules, q, x);
          TakerPriceIsUnique(config, order, snapshot, rules, q, refused, price);
        }
      }
    }
  }

  lemma {:induction false} OfferIs(config: ExecutionConfig, order: Order, snapshot: MarketSnapshot)
    ensures Crosses(order, snapshot) ==> OnOffer(config, order, snapshot) == Participation(config, order, snapshot)
    ensures !Crosses(order, snapshot) ==> OnOffer(config, order, snapshot) == PassiveShare(config, snapshot)
  {
  }

  lemma {:induction false} CrossingDetails(config: ExecutionConfig, order: Order, snapshot: MarketSnapshot, rules: InstrumentRules, cap: real)
    requires Typed(order) && Crosses(order, snapshot) && !order.postOnly
    ensures var q := TradableLots(rules, cap, OnOffer(config, order, snapshot));
            MatchDetails(config, order, snapshot, rules, cap)
            == if q <= 0.0 then Success(Keep(order)) else TakerDetails(config, order, snapshot, rules, q)
  {
    CrossesExactly(order, snapshot);
    OfferIs(config, order, snapshot);
  }

  lemma {:induction false} UnreachedDetails(config: ExecutionConfig, order: Order, snapshot: MarketSnapshot, rules: InstrumentRules, cap: real)
    requires Typed(order) && !Crosses(order, snapshot) && !Reached(order, snapshot)
    ensures MatchDetails(config, order, snapshot, rules, cap) == Success(Keep(order))
  {
    CrossesExactly(order, snapshot);
  }

  lemma {:induction false} ReachedDetails(config: ExecutionConfig, order: Order, snapshot: MarketSnapshot, rules: InstrumentRules, cap: real)
    requires Typed(order) && !Crosses(order, snapshot) && Reached(order, snapshot)
    ensures var q := TradableLots(rules, cap, PassiveShare(config, snapshot));
            MatchDetails(config, order, snapshot, rules, cap)
            == Success(if q <= 0.0 then Keep(order) else Trade(q, order.limitPrice.value, Maker, 0.0, 0.0, 0.0))
  {
    CrossesExactly(order, snapshot);
  }

  lemma {:induction false} PostOnlyDetails(config: ExecutionConfig, order: Order, snapshot: MarketSnapshot, rules: InstrumentRules, cap: real)
    requires Typed(order) && Crosses(order, snapshot) && order.postOnly
    ensures MatchDetails(config, order, snapshot, rules, cap) == Success(Keep(order.Cancel(PostOnlyWouldTake)))
  {
    CrossesExactly(order, snapshot);
  }

  lemma {:induction false} DetailsDecide(l: Ledger, config: ExecutionConfig, order: Order, snapshot: MarketSnapshot, rules: InstrumentRules)
    requires Typed(order) && FillCap(l, order, snapshot.Top(order.side)) > 0.0
    requires MatchDetails(config, order, snapshot, rules, FillCap(l, order, snapshot.Top(order.side))).Success?
    ensures Decides(l, config, order, snapshot, rules, MatchDetails(config, order, snapshot, rules, FillCap(l, order, snapshot.Top(order.side))).value)
  {
    var cap := FillCap(l, order, snapshot.Top(order.side));
    var q := TradableLots(rules, cap, OnOffer(config, order, snapshot));
    LotsAreAdmissible(l, config, order, snapshot, rules);
    OfferIs(config, order, snapshot);
    if !Crosses(order, snapshot) && !Reached(order, snapshot) {
      UnreachedDetails(config, order, snapshot, rules, cap);
    } else if !Crosses(order, snapshot) {
      ReachedDetails(config, order, snapshot, rules, cap);
    } else if order.postOnly {
      PostOnlyDetails(config, order, snapshot, rules, cap);
    } else {
      CrossingDetails(config, order, snapshot, rules, cap);
      if q > 0.0 {
        TakerDecides(l, config, order, snapshot, rules, q);
      }
    }
  }

  /** The last test of a decision: all or nothing for a fill-or-kill order. */
  ghost predicate Suits(l: Ledger, config: ExecutionConfig, order: Order, snapshot: MarketSnapshot, rules: InstrumentRules, q: real, price: real) {
    Tradable(l, config, order, snapshot, rules, q, price) && (order.timeInForce.Fok? ==> q == order.remaining)
  }

  lemma {:induction false} SuitsExactly(l: Ledger, config: ExecutionConfig, order: Order, snapshot: MarketSnapshot, rules: InstrumentRules, d: Decision)
    requires Decides(l, config, order, snapshot, rules, d)
    ensures (exists q: real, price: real :: Suits(l, config, order, snapshot, rules, q, price))
            <==> d.Trade? && (order.timeInForce.Fok? ==> d.quantity == order.remaining)
  {
    if d.Trade? {
      assert order.timeInForce.Fok? ==> d.quantity == order.remaining ==> Suits(l, config, order, snapshot, rules, d.quantity, d.price);
      assert !order.timeInForce.Fok? ==> Suits(l, config, order, snapshot, rules, d.quantity, d.price);
      forall q: real, price: real | Suits(l, config, order, snapshot, rules, q, price)
        ensures q == d.quantity
      {
        LargestIsUnique(l, config, order, snapshot, rules, q, d.quantity);
      }
    }
  }

  lemma {:induction false} NothingSuits(l: Ledger, config: ExecutionConfig, order: Order, snapshot: MarketSnapshot, rules: InstrumentRules)
    requires FillCap(l, order, snapshot.Top(order.side)) <= 0.0
    ensures forall q: real, price: real :: !Suits(l, config, order, snapshot, rules, q, price)
  {
    SomethingIsAffordable(l, order, snapshot.Top(order.side));
  }

  /** Which orders come to the test of prices. */
  lemma {:induction false} EarlyExactly(order: Order, snapshot: MarketSnapshot, rules: InstrumentRules, cap: real)
    ensures EarlyDecision(order, snapshot, rules, cap).None?
            <==> Live(order, snapshot) && cap > 0.0 && BigEnough(order, snapshot, rules)
  {
  }

  lemma {:induction false} ConcludeExactly(order: Order, details: Decision)
    ensures Conclude(order, details).Trade? <==> details.Trade? && (order.timeInForce.Fok? ==> details.quantity >= order.remaining)
    ensures Conclude(order, details).Trade? ==> Conclude(order, details) == details
  {
  }

  /**
   An order trades if and only if the snapshot may match it, it is big enough, and some price and some
   positive quantity in whole lots suit order, free margin and market, all of the remainder when it is
   fill-or-kill. It then trades the largest such quantity: a taker next to the worsened touch, a maker at
   its limit.
   */
  lemma {:induction false} TradesExactly(l: Ledger, config: ExecutionConfig, order: Order, snapshot: MarketSnapshot, rules: InstrumentRules)
    requires Typed(order) && Decide(l, config, order, snapshot, rules).Success?
    ensures var d := Decide(l, config, order, snapshot, rules).value;
            && (d.Trade? <==>
                  && Live(order, snapshot) && BigEnough(order, snapshot, rules)
                  && exists q: real, price: real :: Suits(l, config, order, snapshot, rules, q, price))
            && (d.Trade? ==>
                  && Suits(l, config, order, snapshot, rules, d.quantity, d.price)
                  && (d.liquidity.Taker? <==> Crosses(order, snapshot)))
  {
    var cap := FillCap(l, order, snapshot.Top(order.side));
    EarlyExactly(order, snapshot, rules, cap);
    if cap <= 0.0 {
      NothingSuits(l, config, order, snapshot, rules);
    } else if Live(order, snapshot) && BigEnough(order, snapshot, rules) {
      var details := MatchDetails(config, order, snapshot, rules, cap).value;
      ConcludeExactly(order, details);
      DetailsDecide(l, config, order, snapshot, rules);
      SuitsExactly(l, config, order, snapshot, rules, details);
    }
  }

  lemma {:induction false} TradeIsWithinCap(l: Ledger, config: ExecutionConfig, order: Order, snapshot: MarketSnapshot, rules: InstrumentRules)
    requires Decide(l, config, order, snapshot, rules).Success? && Decide(l, config, order, snapshot, rules).value.Trade?
    ensures 0.0 < Decide(l, config, order, snapshot, rules).value.quantity <= FillCap(l, order, snapshot.Top(order.side))
  {
    WithinItsCap(config, order, snapshot, rules, FillCap(l, order, snapshot.Top(order.side)));
  }

  lemma {:induction false} WithinItsCap(config: ExecutionConfig, order: Order, snapshot: MarketSnapshot, rules: InstrumentRules, cap: real)
    requires DecideWithin(config, order, snapshot, rules, cap).Success? && DecideWithin(config, order, snapshot, rules, cap).value.Trade?
    ensures 0.0 < DecideWithin(config, order, snapshot, rules, cap).value.quantity <= cap
  {
    EarlyExactly(order, snapshot, rules, cap);
    ConcludeExactly(order, MatchDetails(config, order, snapshot, rules, cap).value);
    BacktestSafety.DetailsAreSound(config, order, snapshot, rules, cap);
  }

  /** A trade is affordable: free margin pays for what it opens at the touch, margin and taker fee included. */
  lemma {:induction false} TradeFitsMargin(l: Ledger, config: ExecutionConfig, order: Order, snapshot: MarketSnapshot, rules: InstrumentRules)
    requires Decide(l, config, order, snapshot, rules).Success? && Decide(l, config, order, snapshot, rules).value.Trade?
    ensures var q, top := Decide(l, config, order, snapshot, rules).value.quantity, snapshot.Top(order.side);
            && (order.reduceOnly ==> q <= Closable(l, order))
            && (!order.reduceOnly ==> Charge(Max(0.0, q - Closable(l, order)), UnitCost(l, order.instrument, top)) <= FreeMargin(l))
  {
    TradeIsWithinCap(l, config, order, snapshot, rules);
    CapIsAffordable(l, order, snapshot.Top(order.side), Decide(l, config, order, snapshot, rules).value.quantity);
  }

  // ---------- Costs and fees ----------

  lemma {:induction false} ThreeCharges(a: real, b: real, c: real, sum: real, q: real)
    requires sum == a + b + c
    ensures Charge(a, q) + Charge(b, q) + Charge(c, q) == Charge(sum, q)
  {
    Distribute(a, b, q);
    Distribute(a + b, c, q);
  }

  lemma {:induction false} TwoRates(top: real, a: real, b: real)
    ensures Charge(top, a) + Charge(top, b) == Charge(top, a + b)
    ensures top > 0.0 && a >= 0.0 ==> Charge(top, a) >= 0.0
  {
    Distribute(a, b, top);
  }

  /** How far the worsened touch lies from the mid price. */
  lemma {:induction false} WorsenedFromMid(config: ExecutionConfig, order: Order, snapshot: MarketSnapshot, q: real)
    requires q >= 0.0
    ensures var top, impact := snapshot.Top(order.side), ImpactBps(config, q, Depth(order, snapshot));
            Abs(WorsenedTouch(config, order, snapshot, q) - snapshot.Mid())
            == (snapshot.ask - snapshot.bid) / 2.0 + Charge(top, config.slippageBps / 10000.0) + Charge(top, impact / 10000.0)
  {
    var top, impact := snapshot.Top(order.side), ImpactBps(config, q, Depth(order, snapshot));
    TwoRates(top, config.slippageBps / 10000.0, impact / 10000.0);
    TwoRates(top, impact / 10000.0, 0.0);
    assert config.slippageBps / 10000.0 + impact / 10000.0 == (config.slippageBps + impact) / 10000.0;
  }

  lemma {:induction false} TakerCosts(config: ExecutionConfig, order: Order, snapshot: MarketSnapshot, rules: InstrumentRules, q: real)
    requires TakerDetails(config, order, snapshot, rules, q).Success? && TakerDetails(config, order, snapshot, rules, q).value.Trade?
    ensures var d, top := TakerDetails(config, order, snapshot, rules, q).value, snapshot.Top(order.side);
            && d.spread == Charge((snapshot.ask - snapshot.bid) / 2.0, q)
            && d.slippage == Charge(Charge(top, config.slippageBps / 10000.0), q)
            && d.impact == Charge(Charge(top, ImpactBps(config, q, Depth(order, snapshot)) / 10000.0), q)
  {
    assert Abs(snapshot.Top(order.side) - snapshot.Mid()) == (snapshot.ask - snapshot.bid) / 2.0;
  }

  /** Spread, slippage and impact together are what the worsened touch costs against the mid price. */
  lemma {:induction false} CostsAddUp(config: ExecutionConfig, order: Order, snapshot: MarketSnapshot, rules: InstrumentRules, q: real)
    requires q >= 0.0
    requires TakerDetails(config, order, snapshot, rules, q).Success? && TakerDetails(config, order, snapshot, rules, q).value.Trade?
    ensures var d := TakerDetails(config, order, snapshot, rules, q).value;
            && d.spread == Charge((snapshot.ask - snapshot.bid) / 2.0, q)
            && d.spread + d.slippage + d.impact == Charge(Abs(WorsenedTouch(config, order, snapshot, q) - snapshot.Mid()), q)
  {
    var top, impact := snapshot.Top(order.side), ImpactBps(config, q, Depth(order, snapshot));
    TakerCosts(config, order, snapshot, rules, q);
    WorsenedFromMid(config, order, snapshot, q);
    ThreeCharges((snapshot.ask - snapshot.bid) / 2.0, Charge(top, config.slippageBps / 10000.0), Charge(top, impact / 10000.0),
                 Abs(WorsenedTouch(config, order, snapshot, q) - snapshot.Mid()), q);
  }

  lemma {:induction false} Regroup(x: real, y: real, a: real, b: real)
    ensures (x * y) * Charge(a, b) == Charge(x * a, y * b)
  {
    var yb := y * b;
    assert y * (a * b) == a * yb;
    assert x * (a * yb) == (x * a) * yb;
    assert (x * y) * (a * b) == x * (y * (a * b));
  }

  lemma {:induction false} RaisedOnce(x: real, y: real, a: real, b: real, p: real, a': real, b': real)
    requires p == Charge(a, b) && a' == x * a && b' == y * b
    ensures (x * y) * p == Charge(a', b')
  {
    Regroup(x, y, a, b);
  }

  lemma {:induction false} PowerOfProduct(x: real, y: real, n: nat)
    ensures Power(x * y, n) == Charge(Power(x, n), Power(y, n))
  {
    if n > 0 {
      PowerOfProduct(x, y, n - 1);
      RaisedOnce(x, y, Power(x, n - 1), Power(y, n - 1), Power(x * y, n - 1), Power(x, n), Power(y, n));
    }
  }

  lemma {:induction false} PowerOfOne(n: nat)
    ensures Power(1.0, n) == 1.0
  {
    if n > 0 {
      PowerOfOne(n - 1);
    }
  }

  /** Taking the whole depth costs the coefficient, or the maximum if that is less; so does an empty book. */
  lemma {:induction false} ImpactOfFullDepth(config: ExecutionConfig, depth: real)
    requires depth > 0.0
    ensures ImpactBps(config, depth, depth) == Min(config.impactCoefficientBps, config.maximumImpactBps)
    ensures forall q: real :: ImpactBps(config, q, 0.0) == config.maximumImpactBps
  {
    assert depth / depth == 1.0;
    PowerOfOne(config.impactPower);
  }

  /** Below the maximum, k times the quantity has k to the power times the impact. */
  lemma {:induction false} ImpactScales(config: ExecutionConfig, q: real, k: real, depth: real)
    requires depth > 0.0 && q >= 0.0 && k >= 0.0
    requires ImpactBps(config, q, depth) < config.maximumImpactBps
    ensures ImpactBps(config, k * q, depth)
            == Min(Charge(Power(k, config.impactPower), ImpactBps(config, q, depth)), config.maximumImpactBps)
  {
    var ratio, n, c := q / depth, config.impactPower, config.impactCoefficientBps;
    assert (k * q) / depth == k * ratio;
    PowerOfProduct(k, ratio, n);
    var a, b := Power(k, n), Power(ratio, n);
    assert c * (a * b) == a * (c * b);
  }

  // ---------- Fills ----------

  /** The fill that a trade makes of an order. */
  ghost predicate Reports(f: Fill, order: Order, t: Decision, at: int, rules: InstrumentRules)
    requires t.Trade?
  {
    && f.orderId == order.orderId && f.instrument == order.instrument && f.side == order.side && f.quantity == t.quantity
    && f.price == t.price && f.filledAt == at && f.liquidity == t.liquidity
    && f.fee == Charge(Charge(t.quantity, t.price), if t.liquidity.Maker? then rules.makerFeeRate else rules.takerFeeRate)
    && f.spreadCost == t.spread && f.slippageCost == t.slippage && f.impactCost == t.impact
  }

  lemma {:induction false} MadeFillReports(fillId: nat, order: Order, t: Decision, at: int, rules: InstrumentRules)
    requires t.Trade?
    ensures Reports(MakeFill(fillId, order, t, at, rules), order, t, at, rules)
  {
  }

  lemma {:induction false} ExecuteBooks(c: Core, i: nat, t: Decision, snapshot: MarketSnapshot, rules: InstrumentRules)
    requires i < |c.simulator.orders| && t.Trade? && Execute(c, i, t, snapshot, rules).Success?
    ensures var c', order := Execute(c, i, t, snapshot, rules).value, c.simulator.orders[i];
            && c'.simulator.fills == c.simulator.fills + [MakeFill(c.simulator.fillSequence + 1, order, t, snapshot.timestamp, rules)]
            && c'.simulator.orders[i].remaining == order.remaining - t.quantity
            && (c'.simulator.orders[i].status.Filled? <==> t.quantity == order.remaining)
            && (c'.simulator.orders[i].status.Terminal() <==> t.quantity == order.remaining || order.timeInForce.Ioc?)
  {
  }

  /**
   A booked trade adds one fill, with the order's side and instrument, the trade's quantity and price, the
   snapshot's time and the fee of its liquidity role. The remainder of the order shrinks by it, and the
   order is done when nothing remains or it is immediate-or-cancel.
   */
  lemma {:induction false} FillReports(c: Core, i: nat, t: Decision, snapshot: MarketSnapshot, rules: InstrumentRules)
    requires i < |c.simulator.orders| && t.Trade? && Execute(c, i, t, snapshot, rules).Success?
    ensures var c', order := Execute(c, i, t, snapshot, rules).value, c.simulator.orders[i];
            && (exists f :: c'.simulator.fills == c.simulator.fills + [f] && Reports(f, order, t, snapshot.timestamp, rules))
            && c'.simulator.orders[i].remaining == order.remaining - t.quantity
            && (c'.simulator.orders[i].status.Filled? <==> t.quantity == order.remaining)
            && (c'.simulator.orders[i].status.Terminal() <==> t.quantity == order.remaining || order.timeInForce.Ioc?)
  {
    ExecuteBooks(c, i, t, snapshot, rules);
    MadeFillReports(c.simulator.fillSequence + 1, c.simulator.orders[i], t, snapshot.timestamp, rules);
  }

  // ---------- Orders that do not trade ----------

  lemma {:induction false} EarlyEnds(order: Order, snapshot: MarketSnapshot, rules: InstrumentRules, cap: real)
    requires EarlyDecision(order, snapshot, rules, cap).Some? && Due(order, snapshot)
    ensures var o := EarlyDecision(order, snapshot, rules, cap).value;
            && (o.status.Expired? <==> !Live(order, snapshot))
            && (o.status.Cancelled? <==> Live(order, snapshot) && cap <= 0.0 && order.reduceOnly)
            && (o.status.Rejected? <==> Live(order, snapshot) && cap > 0.0)
            && (o.status.Terminal() || o == order)
  {
  }

  lemma {:induction false} DetailsKeep(l: Ledger, config: ExecutionConfig, order: Order, snapshot: MarketSnapshot, rules: InstrumentRules, cap: real)
    requires Typed(order) && MatchDetails(config, order, snapshot, rules, cap).Success? && MatchDetails(config, order, snapshot, rules, cap).value.Keep?
    ensures MatchDetails(config, order, snapshot, rules, cap).value.order
            == if Crosses(order, snapshot) && order.postOnly then order.Cancel(PostOnlyWouldTake) else order
  {
    OfferIs(config, order, snapshot);
    if !Crosses(order, snapshot) && !Reached(order, snapshot) {
      UnreachedDetails(config, order, snapshot, rules, cap);
    } else if !Crosses(order, snapshot) {
      ReachedDetails(config, order, snapshot, rules, cap);
    } else if order.postOnly {
      PostOnlyDetails(config, order, snapshot, rules, cap);
    } else {
      CrossingDetails(config, order, snapshot, rules, cap);
      var q := TradableLots(rules, cap, OnOffer(config, order, snapshot));
      if q > 0.0 {
        TakerPrices(config, order, snapshot, rules, q);
      }
    }
  }

  /**
   What becomes of an order that a later snapshot of its instrument does not fill: it expires if its time
   is over; it is cancelled if it is reduce-only with nothing to reduce, would take although post-only, or
   is impatient; it is rejected if it is too small; and else it stays as it is.
   */
  lemma {:induction false} KeptOrderEnds(l: Ledger, config: ExecutionConfig, order: Order, snapshot: MarketSnapshot, rules: InstrumentRules)
    requires Typed(order) && Due(order, snapshot)
    requires Decide(l, config, order, snapshot, rules).Success? && Decide(l, config, order, snapshot, rules).value.Keep?
    ensures var o := Decide(l, config, order, snapshot, rules).value.order;
            var some := exists q: real :: q > 0.0 && Affordable(l, order, snapshot.Top(order.side), q);
            && (o.status.Expired? <==> !Live(order, snapshot))
            && (o.status.Rejected? <==> Live(order, snapshot) && some && !BigEnough(order, snapshot, rules))
            && (o.status.Cancelled? <==>
                  && Live(order, snapshot)
                  && if some then BigEnough(order, snapshot, rules) && (!order.timeInForce.Gtc? || (Crosses(order, snapshot) && order.postOnly))
                     else order.reduceOnly)
            && (o.status.Terminal() || o == order)
  {
    var cap := FillCap(l, order, snapshot.Top(order.side));
    SomethingIsAffordable(l, order, snapshot.Top(order.side));
    EarlyExactly(order, snapshot, rules, cap);
    if EarlyDecision(order, snapshot, rules, cap).Some? {
      EarlyEnds(order, snapshot, rules, cap);
    } else {
      var details := MatchDetails(config, order, snapshot, rules, cap).value;
      ConcludeExactly(order, details);
      if details.Keep? {
        DetailsKeep(l, config, order, snapshot, rules, cap);
      }
    }
  }
}

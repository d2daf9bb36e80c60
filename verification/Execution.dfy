/**
 Orders, fills, market snapshots and the rounding rules of an instrument.
 Decimals are exact reals, timestamps are integers. Values whose constructor
 raises on bad input are subset types.
 */
module Execution {
  import opened Common

  datatype Side = Buy | Sell

  datatype Instrument = Instrument(exchange: string, symbol: string)

  datatype OrderType = Market | Limit

  datatype TimeInForce = Gtc | Ioc | Fok

  datatype LiquidityRole = Maker | Taker

  datatype OrderStatus = Created | Submitted | PartiallyFilled | Filled | Cancelled | Rejected | Expired {
    predicate Terminal() {
      Filled? || Cancelled? || Rejected? || Expired?
    }
  }

  datatype Reason =
    | InstrumentRulesUnavailable
    | BelowLotSize
    | PostOnlyRequiresLimit
    | OrderExpired
    | NoLongerReduces
    | BelowMinimumNotional
    | TimeInForceUnsatisfied
    | FillOrKillUnavailable
    | IocRemainder
    | PostOnlyWouldTake
    | PortfolioLiquidation

  /** Every exception that the engine, the matcher or the ledger can raise. */
  datatype Error =
    | OrderTimestampsOutOfOrder
    | OrderQuantityNotPositive
    | OrderPriceNotPositive
    | OrderExpiresBeforeSubmission
    | DuplicateOrder
    | PriceNotPositive
    | FillBeforeSubmission
    | FillNotPositive
    | NegativeFillCost
    | TerminalOrderFilled
    | InvalidFillQuantity
    | DuplicateFill
    | ReduceOnlyWithoutPosition
    | ReduceOnlyIncreasesPosition
    | StopLossOnWrongSide
    | TakeProfitOnWrongSide
    | MaximumEventsExceeded

  // ---------- Instrument rules ----------

  datatype InstrumentRules_ = InstrumentRules(
    tickSize: real,
    lotSize: real,
    minimumNotional: real,
    makerFeeRate: real,
    takerFeeRate: real,
    maintenanceMarginRate: real)
  {
    predicate Valid() {
      && tickSize > 0.0 && lotSize > 0.0
      && minimumNotional >= 0.0
      && makerFeeRate >= -0.01 && takerFeeRate >= 0.0
      && 0.0 <= maintenanceMarginRate < 1.0
    }
  }

  type InstrumentRules = r: InstrumentRules_ | r.Valid()
    witness InstrumentRules(1.0, 1.0, 0.0, 0.0, 0.0, 0.0)

  function RoundDown(x: real, unit: real): real
    requires unit > 0.0
  {
    (x / unit).Floor as real * unit
  }

  function RoundUp(x: real, unit: real): real
    requires unit > 0.0
  {
    -((-x / unit).Floor as real) * unit
  }

  function QuantizeQuantity(rules: InstrumentRules, quantity: real): real {
    if quantity <= 0.0 then 0.0 else RoundDown(quantity, rules.lotSize)
  }

  /** A limit price is rounded away from the spread. */
  function QuantizeLimitPrice(rules: InstrumentRules, price: real, side: Side): Result<real, Error> {
    if price <= 0.0 then Failure(PriceNotPositive)
    else if side.Buy? then Success(RoundDown(price, rules.tickSize))
    else Success(RoundUp(price, rules.tickSize))
  }

  /** An execution price is rounded against the trader. */
  function QuantizeExecutionPrice(rules: InstrumentRules, price: real, side: Side): Result<real, Error> {
    if price <= 0.0 then Failure(PriceNotPositive)
    else if side.Buy? then Success(RoundUp(price, rules.tickSize))
    else Success(RoundDown(price, rules.tickSize))
  }

  function Units(k: int, unit: real): real {
    k as real * unit
  }

  /** `x` is a whole number of units. */
  ghost predicate Whole(x: real, unit: real) {
    exists k: int :: x == Units(k, unit)
  }

  lemma {:induction false} AUnitApart(i: int, j: int, unit: real)
    requires unit > 0.0 && i < j
    ensures Units(i, unit) + unit <= Units(j, unit)
  {
    var x, y := i as real, j as real;
    assert x + 1.0 <= y;
    Distribute(x, 1.0, unit);
    MulLess(x + 1.0, y, unit);
  }

  lemma {:induction false} WholeSum(x: real, y: real, unit: real)
    requires Whole(x, unit) && Whole(y, unit)
    ensures Whole(x + y, unit) && Whole(x - y, unit) && Whole(-x, unit)
  {
    var i: int :| x == Units(i, unit);
    var j: int :| y == Units(j, unit);
    assert x + y == Units(i + j, unit);
    assert x - y == Units(i - j, unit);
    assert -x == Units(-i, unit);
  }

  lemma {:induction false} ScaleDown(f: real, x: real, unit: real)
    requires unit > 0.0 && f <= x / unit < f + 1.0
    ensures f * unit <= x < f * unit + unit
  {
    var q, g := x / unit, f + 1.0;
    assert q * unit == x;
    MulLess(f, q, unit);
    MulLess(q, g, unit);
    assert x < g * unit;
    Distribute(f, 1.0, unit);
  }

  lemma {:induction false} NearestBelow(f: int, x: real, unit: real)
    requires unit > 0.0 && Units(f, unit) <= x < Units(f, unit) + unit
    ensures Whole(x, unit) ==> Units(f, unit) == x
    ensures x >= 0.0 ==> Units(f, unit) >= 0.0
  {
    if Whole(x, unit) {
      var k: int :| x == Units(k, unit);
      if f < k {
        AUnitApart(f, k, unit);
      } else if k < f {
        AUnitApart(k, f, unit);
      }
    }
    assert Units(0, unit) == 0.0;
    if f < 0 {
      AUnitApart(f, 0, unit);
    } else if f > 0 {
      AUnitApart(0, f, unit);
    }
  }

  /** Rounding down gives the largest whole number of units that does not exceed the input. */
  lemma {:induction false} RoundDownIsFloor(x: real, unit: real)
    requires unit > 0.0
    ensures Whole(RoundDown(x, unit), unit)
    ensures RoundDown(x, unit) <= x < RoundDown(x, unit) + unit
    ensures Whole(x, unit) ==> RoundDown(x, unit) == x
    ensures x >= 0.0 ==> RoundDown(x, unit) >= 0.0
  {
    var f := (x / unit).Floor;
    ScaleDown(f as real, x, unit);
    assert RoundDown(x, unit) == Units(f, unit);
    NearestBelow(f, x, unit);
  }

  /** Rounding up gives the smallest whole number of units that is not below the input. */
  lemma {:induction false} RoundUpIsCeiling(x: real, unit: real)
    requires unit > 0.0
    ensures Whole(RoundUp(x, unit), unit)
    ensures RoundUp(x, unit) - unit < x <= RoundUp(x, unit)
  {
    assert RoundUp(x, unit) == -RoundDown(-x, unit);
    RoundDownIsFloor(-x, unit);
    WholeSum(RoundDown(-x, unit), RoundDown(-x, unit), unit);
  }

  /**
   Price normalization never helps the trader: a limit price never becomes easier to reach and
   an execution price never becomes better, each by less than one tick.
   */
  lemma {:induction false} RoundingIsConservative(rules: InstrumentRules, price: real, side: Side)
    requires price > 0.0
    ensures var limit := QuantizeLimitPrice(rules, price, side).value;
            var fill := QuantizeExecutionPrice(rules, price, side).value;
            && Whole(limit, rules.tickSize) && Whole(fill, rules.tickSize)
            && (side.Buy? ==> price - rules.tickSize < limit <= price <= fill < price + rules.tickSize)
            && (side.Sell? ==> price - rules.tickSize < fill <= price <= limit < price + rules.tickSize)
  {
    RoundDownIsFloor(price, rules.tickSize);
    RoundUpIsCeiling(price, rules.tickSize);
  }

  lemma {:induction false} QuantizeQuantityIsWhole(rules: InstrumentRules, quantity: real)
    ensures var r := QuantizeQuantity(rules, quantity);
            && Whole(r, rules.lotSize) && r >= 0.0
            && (quantity >= 0.0 ==> r <= quantity)
            && (quantity >= 0.0 && Whole(quantity, rules.lotSize) ==> r == quantity)
  {
    assert 0.0 == Units(0, rules.lotSize);
    RoundDownIsFloor(quantity, rules.lotSize);
  }

  // ---------- Market snapshots ----------

  datatype MarketSnapshot_ = MarketSnapshot(
    instrument: Instrument,
    timestamp: int,
    bid: real,
    ask: real,
    bidQuantity: real,
    askQuantity: real,
    lastPrice: Option<real>,
    tradeQuantity: Option<real>,
    markPrice: Option<real>)
  {
    predicate Valid() {
      && 0.0 < bid < ask
      && bidQuantity >= 0.0 && askQuantity >= 0.0
      && (lastPrice.Some? ==> lastPrice.value > 0.0)
      && (markPrice.Some? ==> markPrice.value > 0.0)
      && (tradeQuantity.Some? ==> tradeQuantity.value >= 0.0)
    }

    function Mid(): real {
      (bid + ask) / 2.0
    }

    /** The mark price, or else the last price, or else the mid price. */
    function ValuationPrice(): (r: real)
      ensures Valid() ==> r > 0.0
    {
      markPrice.GetOr(lastPrice.GetOr(Mid()))
    }

    /** The touch on the side an order of `side` would take. */
    function Top(side: Side): (r: real)
      ensures Valid() ==> r > 0.0
    {
      if side.Buy? then ask else bid
    }
  }

  type MarketSnapshot = s: MarketSnapshot_ | s.Valid()
    witness MarketSnapshot(Instrument("", ""), 0, 1.0, 2.0, 0.0, 0.0, None, None, None)

  // ---------- Orders ----------

  datatype Order = Order(
    orderId: nat,
    signalId: string,
    instrument: Instrument,
    side: Side,
    quantity: real,
    orderType: OrderType,
    timeInForce: TimeInForce,
    signalAt: int,
    createdAt: int,
    submittedAt: int,
    limitPrice: Option<real>,
    postOnly: bool,
    reduceOnly: bool,
    expiresAt: Option<int>,
    stopLoss: Option<real>,
    takeProfit: Option<real>,
    status: OrderStatus,
    remaining: real,
    rejection: Option<Reason>)
  {
    /** What the constructor checks; `None` means that the order is well formed. */
    function ConstructionError(): Option<Error> {
      if !(signalAt <= createdAt <= submittedAt) then Some(OrderTimestampsOutOfOrder)
      else if quantity <= 0.0 then Some(OrderQuantityNotPositive)
      else if NotPositive(limitPrice) || NotPositive(stopLoss) || NotPositive(takeProfit) then Some(OrderPriceNotPositive)
      else if expiresAt.Some? && expiresAt.value <= submittedAt then Some(OrderExpiresBeforeSubmission)
      else None
    }

    /** A freshly constructed order. */
    predicate Fresh() {
      && ConstructionError().None?
      && orderType.Limit? == limitPrice.Some?
      && status.Created? && remaining == quantity && rejection.None?
    }

    function FilledQuantity(): real {
      quantity - remaining
    }

    function Reject(reason: Reason): Order {
      if status.Terminal() then this
      else this.(status := OrderStatus.Rejected, rejection := Some(reason))
    }

    function Cancel(reason: Reason, expired: bool := false): Order {
      if status.Terminal() then this
      else this.(status := if expired then OrderStatus.Expired else OrderStatus.Cancelled, rejection := Some(reason))
    }

    function RecordFill(filled: real): Result<Order, Error> {
      if status.Terminal() then Failure(TerminalOrderFilled)
      else if filled <= 0.0 || filled > remaining then Failure(InvalidFillQuantity)
      else
        var left := remaining - filled;
        Success(this.(remaining := left, status := if left == 0.0 then OrderStatus.Filled else OrderStatus.PartiallyFilled))
    }
  }

  predicate NotPositive(price: Option<real>) {
    price.Some? && price.value <= 0.0
  }

  // ---------- Fills ----------

  datatype Fill = Fill(
    fillId: nat,
    orderId: nat,
    signalId: string,
    instrument: Instrument,
    side: Side,
    quantity: real,
    price: real,
    liquidity: LiquidityRole,
    signalAt: int,
    orderCreatedAt: int,
    submittedAt: int,
    filledAt: int,
    fee: real,
    spreadCost: real,
    slippageCost: real,
    impactCost: real)
  {
    /** What the constructor checks. */
    function ConstructionError(): Option<Error> {
      if !(signalAt <= orderCreatedAt <= submittedAt < filledAt) then Some(FillBeforeSubmission)
      else if quantity <= 0.0 || price <= 0.0 then Some(FillNotPositive)
      else if spreadCost < 0.0 || slippageCost < 0.0 || impactCost < 0.0 then Some(NegativeFillCost)
      else None
    }

    /** Quantity with the sign of the position change. */
    function Delta(): real {
      if side.Buy? then quantity else -quantity
    }
  }
}

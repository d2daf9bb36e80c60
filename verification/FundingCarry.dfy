/** Funding carry: pricing both legs by notional, and the economics of a candidate. */
module FundingCarry {
  import opened Common
  import opened Depth

  datatype RejectCode = EmptyUsableDepth | InsufficientOrderbookDepth | UnknownFee

  const TOLERANCE := 0.000000000001

  // ---------- Walking a book by notional ----------

  predicate IsUsable(l: Level) {
    l.price > 0.0 && l.available > 0.0
  }

  function Usable(levels: seq<Level>): (r: seq<Level>)
    ensures Positive(r)
    ensures forall x :: x in r <==> x in levels && IsUsable(x)
  {
    if levels == [] then []
    else
      var rest := Usable(levels[..|levels| - 1]);
      if IsUsable(levels[|levels| - 1]) then rest + [levels[|levels| - 1]] else rest
  }

  datatype Spent = Spent(cost: real, filled: real, remaining: real)

  function Take(s: Spent, l: Level): Spent
    requires l.price > 0.0
  {
    var take := Min(l.available, s.remaining / l.price);
    Spent(s.cost + Pay(take, l.price), s.filled + take, s.remaining - Pay(take, l.price))
  }

  /** Spends the remaining notional level by level, down to the tolerance. */
  function Spend(levels: seq<Level>, s: Spent): Spent
    requires Positive(levels)
    decreases |levels|
  {
    if levels == [] then s
    else
      var s' := Take(s, levels[0]);
      if s'.remaining <= TOLERANCE then s' else Spend(levels[1..], s')
  }

  lemma {:induction false} TakeKeeps(s: Spent, l: Level)
    requires IsUsable(l)
    ensures Take(s, l).cost + Take(s, l).remaining == s.cost + s.remaining
    ensures s.remaining >= 0.0 ==> 0.0 <= Take(s, l).remaining <= s.remaining && Take(s, l).filled >= s.filled
    ensures s.remaining >= 0.0 ==> Take(s, l).remaining == Max(0.0, s.remaining - Pay(l.available, l.price))
  {
    var q := s.remaining / l.price;
    assert Pay(q, l.price) == s.remaining;
    if s.remaining >= 0.0 {
      assert q >= 0.0;
      if q < l.available {
        MulLess(q, l.available, l.price);
      } else {
        MulLess(l.available, q, l.price);
        MulLess(0.0, l.available, l.price);
      }
    }
  }

  /** The walk conserves notional: what is spent plus what remains is what there was, and nothing is overspent. */
  lemma {:induction false} SpendConserves(levels: seq<Level>, s: Spent)
    requires Positive(levels)
    ensures Spend(levels, s).cost + Spend(levels, s).remaining == s.cost + s.remaining
    ensures s.remaining >= 0.0 ==> 0.0 <= Spend(levels, s).remaining <= s.remaining && Spend(levels, s).filled >= s.filled
    decreases |levels|
  {
    if levels != [] {
      TakeKeeps(s, levels[0]);
      SpendConserves(levels[1..], Take(s, levels[0]));
    }
  }

  function Value(levels: seq<Level>): real {
    if levels == [] then 0.0 else Pay(levels[0].available, levels[0].price) + Value(levels[1..])
  }

  lemma {:induction false} ValueIsPositive(levels: seq<Level>)
    requires Positive(levels)
    ensures Value(levels) >= 0.0
  {
    if levels != [] {
      ValueIsPositive(levels[1..]);
      MulLess(0.0, levels[0].available, levels[0].price);
    }
  }

  /** The notional is spent down to the tolerance exactly when the book is worth that much. */
  lemma {:induction false} SpendsExactly(levels: seq<Level>, s: Spent)
    requires Positive(levels) && s.remaining >= 0.0
    ensures Spend(levels, s).remaining <= TOLERANCE <==> s.remaining - TOLERANCE <= Value(levels)
    decreases |levels|
  {
    if levels != [] {
      TakeKeeps(s, levels[0]);
      ValueIsPositive(levels[1..]);
      if Take(s, levels[0]).remaining > TOLERANCE {
        SpendsExactly(levels[1..], Take(s, levels[0]));
      }
    }
  }

  lemma {:induction false} TakeAtLeast(s: Spent, l: Level, best: real)
    requires IsUsable(l) && s.remaining >= 0.0
    ensures l.price >= best ==> Take(s, l).cost - s.cost >= Pay(Take(s, l).filled - s.filled, best)
    ensures l.price <= best ==> Take(s, l).cost - s.cost <= Pay(Take(s, l).filled - s.filled, best)
  {
    TakeKeeps(s, l);
    var take := Take(s, l).filled - s.filled;
    if l.price >= best {
      PayGrows(take, best, l.price);
    }
    if l.price <= best {
      PayGrows(take, l.price, best);
    }
  }

  /** No unit costs less than the best price of an ask walk, or earns more than that of a bid walk. */
  lemma {:induction false} SpendBounds(levels: seq<Level>, s: Spent, best: real)
    requires Positive(levels) && s.remaining >= 0.0
    ensures (forall i :: 0 <= i < |levels| ==> levels[i].price >= best)
            ==> Spend(levels, s).cost - s.cost >= Pay(Spend(levels, s).filled - s.filled, best)
    ensures (forall i :: 0 <= i < |levels| ==> levels[i].price <= best)
            ==> Spend(levels, s).cost - s.cost <= Pay(Spend(levels, s).filled - s.filled, best)
    decreases |levels|
  {
    if levels == [] {
      assert Pay(0.0, best) == 0.0;
    } else {
      var s' := Take(s, levels[0]);
      TakeKeeps(s, levels[0]);
      TakeAtLeast(s, levels[0], best);
      if s'.remaining > TOLERANCE {
        SpendBounds(levels[1..], s', best);
        PaySplits(Spend(levels[1..], s').filled - s'.filled, s'.filled - s.filled, best);
        assert Spend(levels, s).filled - s.filled == (Spend(levels[1..], s').filled - s'.filled) + (s'.filled - s.filled);
      }
    }
  }

  datatype Pricing = Pricing(vwap: real, filled: real, available: real, slippageBps: real)

  lemma {:induction false} FilledMeansPaid(levels: seq<Level>, notional: real)
    requires Positive(levels) && levels != [] && Spend(levels, Spent(0.0, 0.0, notional)).filled > 0.0
    ensures notional > 0.0 && Spend(levels, Spent(0.0, 0.0, notional)).cost > 0.0
  {
    var start, l := Spent(0.0, 0.0, notional), levels[0];
    if notional > 0.0 {
      TakeKeeps(start, l);
      SpendConserves(levels, start);
      SpendConserves(levels[1..], Take(start, l));
      var take := Min(l.available, notional / l.price);
      assert take > 0.0;
      MulLess(0.0, take, l.price);
    }
  }

  /** The price of a leg for a notional, or why there is none. */
  function PriceByNotional(levels: seq<Level>, notional: real, buying: bool): (r: Result<Pricing, RejectCode>)
    ensures r.Success? ==> notional > 0.0 && r.value.vwap > 0.0 && r.value.filled > 0.0
  {
    var usable := Usable(levels);
    if usable == [] then Failure(EmptyUsableDepth)
    else
      var s := Spend(usable, Spent(0.0, 0.0, notional));
      if s.remaining > TOLERANCE || s.filled <= 0.0 then Failure(InsufficientOrderbookDepth)
      else
        FilledMeansPaid(usable, notional);
        var vwap := s.cost / s.filled;
        var best := usable[0].price;
        var slip := (if buying then vwap / best else best / vwap) - 1.0;
        Success(Pricing(vwap, s.filled, Total(usable), slip * 10000.0))
  }

  method ComputePrice(levels: seq<Level>, notional: real, buying: bool) returns (r: Result<Pricing, RejectCode>)
    ensures r == PriceByNotional(levels, notional, buying)
  {
    var usable := Usable(levels);
    if usable == [] {
      return Failure(EmptyUsableDepth);
    }
    ghost var whole := Spend(usable, Spent(0.0, 0.0, notional));
    var remaining, cost, filled := notional, 0.0, 0.0;
    var i, done := 0, false;
    while i < |usable| && !done
      invariant 0 <= i <= |usable|
      invariant done ==> Spent(cost, filled, remaining) == whole
      invariant !done ==> Spend(usable[i..], Spent(cost, filled, remaining)) == whole
      decreases |usable| - i, !done
    {
      assert usable[i..][0] == usable[i] && usable[i..][1..] == usable[i + 1..];
      var next := Take(Spent(cost, filled, remaining), usable[i]);
      cost, filled, remaining := next.cost, next.filled, next.remaining;
      done := remaining <= TOLERANCE;
      i := i + 1;
    }
    if remaining > TOLERANCE || filled <= 0.0 {
      return Failure(InsufficientOrderbookDepth);
    }
    FilledMeansPaid(usable, notional);
    var vwap := cost / filled;
    var best := usable[0].price;
    var slip := (if buying then vwap / best else best / vwap) - 1.0;
    return Success(Pricing(vwap, filled, Total(usable), slip * 10000.0));
  }

  /** On a sorted book the price is no better than the best usable level, so slippage is not negative. */
  lemma {:induction false} PriceIsNoBetterThanBest(levels: seq<Level>, notional: real, buying: bool)
    requires levels != [] && PriceByNotional(levels, notional, buying).Success?
    ensures Ascending(levels) ==> PriceByNotional(levels, notional, buying).value.vwap >= levels[0].price
    ensures Descending(levels) ==> PriceByNotional(levels, notional, buying).value.vwap <= levels[0].price
  {
    var usable, best := Usable(levels), levels[0].price;
    var start := Spent(0.0, 0.0, notional);
    var s := Spend(usable, start);
    SpendBounds(usable, start, best);
    forall i | 0 <= i < |usable|
      ensures Ascending(levels) ==> usable[i].price >= best
      ensures Descending(levels) ==> usable[i].price <= best
    {
      assert usable[i] in levels;
    }
    AverageBounds(s.cost, s.filled, best);
  }

  lemma {:induction false} AverageBounds(cost: real, filled: real, best: real)
    requires filled > 0.0
    ensures cost >= Pay(filled, best) ==> cost / filled >= best
    ensures cost <= Pay(filled, best) ==> cost / filled <= best
  {
    var average := cost / filled;
    assert average * filled == cost;
    if average < best {
      MulLess(average, best, filled);
    }
    if average > best {
      MulLess(best, average, filled);
    }
  }

  // ---------- Economics ----------

  /** One venue: its funding observation, its validated book and its fee. */
  datatype Venue_ = Venue(rate: real, intervalSeconds: int, bids: seq<Level>, asks: seq<Level>, feeRate: Option<real>) {
    predicate Valid() {
      intervalSeconds > 0 && bids != [] && asks != [] && 0.0 < bids[0].price < asks[0].price
    }

    function HourlyRate(): real
      requires Valid()
    {
      rate * 3600.0 / (intervalSeconds as real)
    }
  }

  type Venue = v: Venue_ | v.Valid()
    witness Venue(0.0, 1, [Level(1.0, 1.0)], [Level(2.0, 1.0)], None)

  datatype Config = Config(notional: real, minimumNetEdge: real, horizonSeconds: int)

  datatype Economics = Economics(
    grossEdge: real, fundingIncome: real, entryFees: real, exitFees: real, entrySlippage: real, exitSlippage: real,
    basisCost: real, roundTripCost: real, netIncome: real, netEdge: real)

  /** Long where funding is lower, short where it is higher; the first venue wins a tie. */
  function LongOf(a: Venue, b: Venue): Venue {
    if b.HourlyRate() < a.HourlyRate() then b else a
  }

  function ShortOf(a: Venue, b: Venue): Venue {
    if b.HourlyRate() < a.HourlyRate() then a else b
  }

  function Evaluate(config: Config, a: Venue, b: Venue): Result<Economics, RejectCode> {
    var long, short := LongOf(a, b), ShortOf(a, b);
    var buy :- PriceByNotional(long.asks, config.notional, true);
    var sell :- PriceByNotional(short.bids, config.notional, false);
    if long.feeRate.None? || short.feeRate.None? then Failure(UnknownFee)
    else
      var grossEdge := short.HourlyRate() - long.HourlyRate();
      var fundingIncome := grossEdge * config.notional * (config.horizonSeconds as real) / 3600.0;
      var fees := Pay(config.notional, long.feeRate.value) + Pay(config.notional, short.feeRate.value);
      var slippage := Pay(buy.filled, buy.vwap - long.asks[0].price) + Pay(sell.filled, short.bids[0].price - sell.vwap);
      var midpoint := (buy.vwap + sell.vwap) / 2.0;
      var basisCost := (buy.vwap - sell.vwap) / midpoint * config.notional;
      var roundTrip := fees + fees + slippage + slippage + basisCost;
      var netIncome := fundingIncome - roundTrip;
      Success(Economics(grossEdge, fundingIncome, fees, fees, slippage, slippage, basisCost, roundTrip, netIncome,
                        netIncome / config.notional))
  }

  predicate IsCandidate(config: Config, e: Economics) {
    e.netEdge >= config.minimumNetEdge
  }

  lemma {:induction false} EdgeTimesNotional(netIncome: real, notional: real, edge: real)
    requires notional > 0.0
    ensures netIncome / notional >= edge <==> netIncome >= Pay(notional, edge)
  {
    var r := netIncome / notional;
    assert r * notional == netIncome;
    if r < edge {
      MulLess(r, edge, notional);
    } else {
      MulLess(edge, r, notional);
    }
  }

  /** On sorted books neither the funding edge nor a slippage charge is negative. */
  lemma {:induction false} ChargesAreNotNegative(config: Config, a: Venue, b: Venue)
    requires Evaluate(config, a, b).Success? && Ascending(LongOf(a, b).asks) && Descending(ShortOf(a, b).bids)
    ensures config.notional > 0.0
    ensures var e := Evaluate(config, a, b).value; e.grossEdge >= 0.0 && e.entrySlippage >= 0.0 && e.exitSlippage >= 0.0
  {
    var long, short := LongOf(a, b), ShortOf(a, b);
    var buy := PriceByNotional(long.asks, config.notional, true).value;
    var sell := PriceByNotional(short.bids, config.notional, false).value;
    PriceIsNoBetterThanBest(long.asks, config.notional, true);
    PriceIsNoBetterThanBest(short.bids, config.notional, false);
    NonNegativePay(buy.filled, buy.vwap - long.asks[0].price);
    NonNegativePay(sell.filled, short.bids[0].price - sell.vwap);
  }

  lemma {:induction false} NonNegativePay(q: real, p: real)
    requires q >= 0.0 && p >= 0.0
    ensures Pay(q, p) >= 0.0
  {
  }

  // ---------- What moves the result ----------

  /** Both venues trade: the one with the lower hourly rate long, the other short. */
  lemma {:induction false} LegsAreBothVenues(a: Venue, b: Venue)
    ensures (LongOf(a, b) == a && ShortOf(a, b) == b) || (LongOf(a, b) == b && ShortOf(a, b) == a)
    ensures LongOf(a, b).HourlyRate() <= ShortOf(a, b).HourlyRate()
    ensures a.HourlyRate() != b.HourlyRate() ==> LongOf(a, b) == LongOf(b, a) && ShortOf(a, b) == ShortOf(b, a)
  {
  }

  /** Hourly rates compare funding of different intervals: an hourly rate is itself, and paying k times as much in
      k times the time is the same. */
  lemma {:induction false} HourlyRateScales(v: Venue, k: int)
    requires k > 0
    ensures v.intervalSeconds == 3600 ==> v.HourlyRate() == v.rate
    ensures v.(rate := Pay(v.rate, k as real), intervalSeconds := v.intervalSeconds * k).HourlyRate() == v.HourlyRate()
  {
    var r, i, m := v.rate * 3600.0, v.intervalSeconds as real, k as real;
    var scaled := Pay(v.rate, m) * 3600.0;
    assert scaled == Pay(r, m);
    assert (v.intervalSeconds * k) as real == Pay(i, m);
    SameQuotient(r, i, m);
  }

  lemma {:induction false} SameQuotient(a: real, b: real, m: real)
    requires b > 0.0 && m > 0.0
    ensures Pay(b, m) != 0.0 && Pay(a, m) / Pay(b, m) == a / b
  {
    var q := a / b;
    MulLess(0.0, b, m);
    assert a == q * b;
    assert a * m == q * (b * m);
  }

  function Raised(v: Venue, d: real): Venue
    requires v.feeRate.Some?
  {
    v.(feeRate := Some(v.feeRate.value + d))
  }

  lemma {:induction false} FeeMoves(notional: real, fee: real, d: real)
    ensures Pay(notional, fee + d) == Pay(notional, fee) + Pay(notional, d)
  {
    Distribute(fee, d, notional);
  }

  /** Fees of the two legs, each paid on entry and again on exit. */
  lemma {:induction false} FeesAreBothLegsTwice(config: Config, a: Venue, b: Venue)
    requires Evaluate(config, a, b).Success?
    ensures a.feeRate.Some? && b.feeRate.Some?
    ensures var e := Evaluate(config, a, b).value;
            && e.entryFees == e.exitFees == Pay(config.notional, a.feeRate.value) + Pay(config.notional, b.feeRate.value)
            && e.roundTripCost == e.entryFees + e.exitFees + e.entrySlippage + e.exitSlippage + e.basisCost
            && e.netIncome == e.fundingIncome - e.roundTripCost
  {
  }

  /** Raising the fee rate of either venue by d lowers the net income by exactly twice d on the notional, and
      changes nothing else. */
  lemma {:induction false} FeesLowerIncome(config: Config, a: Venue, b: Venue, d: real)
    requires Evaluate(config, a, b).Success?
    ensures a.feeRate.Some? && b.feeRate.Some?
    ensures Evaluate(config, Raised(a, d), b).Success? && Evaluate(config, a, Raised(b, d)).Success?
    ensures var e, f, g := Evaluate(config, a, b).value, Evaluate(config, Raised(a, d), b).value, Evaluate(config, a, Raised(b, d)).value;
            && f.netIncome == g.netIncome == e.netIncome - 2.0 * Pay(config.notional, d)
            && f.fundingIncome == g.fundingIncome == e.fundingIncome && f.basisCost == g.basisCost == e.basisCost
            && f.entrySlippage == g.entrySlippage == e.entrySlippage
  {
    SameButFees(config, a, b, Raised(a, d), b);
    SameButFees(config, a, b, a, Raised(b, d));
    FeesAreBothLegsTwice(config, a, b);
    FeesAreBothLegsTwice(config, Raised(a, d), b);
    FeesAreBothLegsTwice(config, a, Raised(b, d));
    FeeMoves(config.notional, a.feeRate.value, d);
    FeeMoves(config.notional, b.feeRate.value, d);
  }

  lemma {:induction false} LegsIgnoreFees(a: Venue, b: Venue, a': Venue, b': Venue)
    requires a' == a.(feeRate := a'.feeRate) && b' == b.(feeRate := b'.feeRate)
    ensures LongOf(a', b') == LongOf(a, b).(feeRate := LongOf(a', b').feeRate)
    ensures ShortOf(a', b') == ShortOf(a, b).(feeRate := ShortOf(a', b').feeRate)
  {
    assert a'.HourlyRate() == a.HourlyRate() && b'.HourlyRate() == b.HourlyRate();
  }

  lemma {:induction false} SameButFees(config: Config, a: Venue, b: Venue, a': Venue, b': Venue)
    requires Evaluate(config, a, b).Success? && a'.feeRate.Some? && b'.feeRate.Some?
    requires a' == a.(feeRate := a'.feeRate) && b' == b.(feeRate := b'.feeRate)
    ensures Evaluate(config, a', b').Success?
    ensures var e, f := Evaluate(config, a, b).value, Evaluate(config, a', b').value;
            && f.fundingIncome == e.fundingIncome && f.basisCost == e.basisCost
            && f.entrySlippage == e.entrySlippage && f.exitSlippage == e.exitSlippage
  {
    LegsIgnoreFees(a, b, a', b');
    EvaluatesExactly(config, a, b);
    EvaluatesExactly(config, a', b');
    IncomeIs(config, a, b);
    IncomeIs(config, a', b');
    CostsAre(config, a, b);
    CostsAre(config, a', b');
  }

  /** Income of a holding: the edge per hour on the notional, for the hours of the horizon. */
  lemma {:induction false} IncomeIs(config: Config, a: Venue, b: Venue)
    requires Evaluate(config, a, b).Success?
    ensures Evaluate(config, a, b).value.fundingIncome
            == Pay(Pay(ShortOf(a, b).HourlyRate() - LongOf(a, b).HourlyRate(), config.notional), config.horizonSeconds as real) / 3600.0
  {
  }

  /** Twice the horizon earns twice the income at the same cost. */
  lemma {:induction false} HorizonDoublesIncome(config: Config, a: Venue, b: Venue)
    requires Evaluate(config, a, b).Success?
    ensures Evaluate(config.(horizonSeconds := 2 * config.horizonSeconds), a, b).Success?
    ensures var e, f := Evaluate(config, a, b).value, Evaluate(config.(horizonSeconds := 2 * config.horizonSeconds), a, b).value;
            f.fundingIncome == 2.0 * e.fundingIncome && f.roundTripCost == e.roundTripCost
  {
    var twice := config.(horizonSeconds := 2 * config.horizonSeconds);
    var cash, h := Pay(ShortOf(a, b).HourlyRate() - LongOf(a, b).HourlyRate(), config.notional), config.horizonSeconds as real;
    IncomeIs(config, a, b);
    IncomeIs(twice, a, b);
    assert (2 * config.horizonSeconds) as real == h + h;
    Distribute(h, h, cash);
    assert Pay(cash, h + h) == Pay(cash, h) + Pay(cash, h);
  }

  /** Raising the short venue's hourly rate by d raises the income by d on the notional over the horizon, at the
      same cost. */
  lemma {:induction false} RateRaisesIncome(config: Config, long: Venue, short: Venue, higher: Venue, d: real)
    requires long.HourlyRate() < short.HourlyRate() && d >= 0.0
    requires higher == short.(rate := higher.rate) && higher.HourlyRate() == short.HourlyRate() + d
    requires Evaluate(config, long, short).Success?
    ensures Evaluate(config, long, higher).Success?
    ensures var e, f := Evaluate(config, long, short).value, Evaluate(config, long, higher).value;
            && f.fundingIncome == e.fundingIncome + Pay(Pay(d, config.notional), config.horizonSeconds as real) / 3600.0
            && f.roundTripCost == e.roundTripCost
  {
    var edge, n, h := short.HourlyRate() - long.HourlyRate(), config.notional, config.horizonSeconds as real;
    SameCosts(config, long, short, higher);
    IncomeIs(config, long, short);
    IncomeIs(config, long, higher);
    assert higher.HourlyRate() - long.HourlyRate() == edge + d;
    Distribute(edge, d, n);
    assert Pay(edge + d, n) == Pay(edge, n) + Pay(d, n);
    Distribute(Pay(edge, n), Pay(d, n), h);
    assert Pay(Pay(edge, n) + Pay(d, n), h) == Pay(Pay(edge, n), h) + Pay(Pay(d, n), h);
  }

  lemma {:induction false} SameCosts(config: Config, long: Venue, short: Venue, higher: Venue)
    requires long.HourlyRate() < short.HourlyRate() <= higher.HourlyRate() && higher == short.(rate := higher.rate)
    requires Evaluate(config, long, short).Success?
    ensures Evaluate(config, long, higher).Success?
    ensures Evaluate(config, long, higher).value.roundTripCost == Evaluate(config, long, short).value.roundTripCost
  {
  }

  /** When there are economics at all: both legs can be priced and both fees are known. */
  lemma {:induction false} EvaluatesExactly(config: Config, a: Venue, b: Venue)
    ensures Evaluate(config, a, b).Success? <==>
            && PriceByNotional(LongOf(a, b).asks, config.notional, true).Success?
            && PriceByNotional(ShortOf(a, b).bids, config.notional, false).Success?
            && a.feeRate.Some? && b.feeRate.Some?
  {
  }

  lemma {:induction false} UsableFound(levels: seq<Level>)
    ensures Usable(levels) == [] <==> forall l :: l in levels ==> !IsUsable(l)
  {
    if Usable(levels) != [] {
      assert Usable(levels)[0] in Usable(levels);
    }
  }

  lemma {:induction false} SomethingFills(levels: seq<Level>, notional: real)
    requires Positive(levels) && levels != [] && notional > 0.0
    ensures Spend(levels, Spent(0.0, 0.0, notional)).filled > 0.0
  {
    var start, l := Spent(0.0, 0.0, notional), levels[0];
    var q := notional / l.price;
    assert Pay(q, l.price) == notional;
    if q <= 0.0 {
      MulLess(q, 0.0, l.price);
    }
    TakeKeeps(start, l);
    SpendConserves(levels[1..], Take(start, l));
  }

  /** A leg has a price if and only if the notional is positive and the usable levels are worth it up to the tolerance. */
  lemma {:induction false} PricedExactly(levels: seq<Level>, notional: real, buying: bool)
    ensures PriceByNotional(levels, notional, buying).Success? <==>
            notional > 0.0 && Usable(levels) != [] && notional - TOLERANCE <= Value(Usable(levels))
  {
    var usable := Usable(levels);
    if usable != [] && notional > 0.0 {
      SpendsExactly(usable, Spent(0.0, 0.0, notional));
      SomethingFills(usable, notional);
    }
  }

  lemma {:induction false} AverageTimesFilled(cost: real, filled: real)
    requires filled > 0.0
    ensures Pay(filled, cost / filled) == cost
  {
    var average := cost / filled;
    assert average * filled == cost;
  }

  /** What a priced leg says of its walk through the usable levels. */
  lemma {:induction false} PricingIs(levels: seq<Level>, notional: real, buying: bool)
    requires PriceByNotional(levels, notional, buying).Success?
    ensures Usable(levels) != []
    ensures var s, p := Spend(Usable(levels), Spent(0.0, 0.0, notional)), PriceByNotional(levels, notional, buying).value;
            && s.filled > 0.0 && s.remaining <= TOLERANCE && p.filled == s.filled && p.vwap == s.cost / s.filled
            && p.available == Total(Usable(levels))
            && p.slippageBps == ((if buying then p.vwap / Usable(levels)[0].price else Usable(levels)[0].price / p.vwap) - 1.0) * 10000.0
  {
  }

  /** The price of a leg times its quantity is the notional, up to the tolerance, and the quantity is there. */
  lemma {:induction false} PricePaysNotional(levels: seq<Level>, notional: real, buying: bool)
    requires PriceByNotional(levels, notional, buying).Success?
    ensures var p := PriceByNotional(levels, notional, buying).value;
            notional - TOLERANCE <= Pay(p.filled, p.vwap) <= notional && p.available == Total(Usable(levels))
  {
    var start := Spent(0.0, 0.0, notional);
    var s := Spend(Usable(levels), start);
    assert s.cost + s.remaining == notional && 0.0 <= s.remaining by { SpendConserves(Usable(levels), start); }
    PricingIs(levels, notional, buying);
    AverageTimesFilled(s.cost, s.filled);
  }

  lemma {:induction false} RatioBack(a: real, b: real)
    requires b > 0.0
    ensures Pay(b, 1.0 + (a / b - 1.0) * 10000.0 / 10000.0) == a
  {
    var r := a / b;
    assert r * b == a;
    assert 1.0 + (r - 1.0) * 10000.0 / 10000.0 == r;
  }

  /** Slippage in basis points leads from the best usable price to the price paid, and from the price received
      to the best. */
  lemma {:induction false} SlippageLeadsFromBest(levels: seq<Level>, notional: real, buying: bool)
    requires PriceByNotional(levels, notional, buying).Success?
    ensures Usable(levels) != []
    ensures var p, best := PriceByNotional(levels, notional, buying).value, Usable(levels)[0].price;
            if buying then Pay(best, 1.0 + p.slippageBps / 10000.0) == p.vwap else Pay(p.vwap, 1.0 + p.slippageBps / 10000.0) == best
  {
    PricingIs(levels, notional, buying);
    var p, best := PriceByNotional(levels, notional, buying).value, Usable(levels)[0].price;
    assert Usable(levels)[0] in Usable(levels);
    if buying {
      RatioBack(p.vwap, best);
    } else {
      RatioBack(best, p.vwap);
    }
  }

  // ---------- Candidates ----------

  /** What both legs pay beyond their best prices. */
  function Slippage(buy: Pricing, sell: Pricing, ask: real, bid: real): real {
    Pay(buy.filled, buy.vwap - ask) + Pay(sell.filled, bid - sell.vwap)
  }

  /** The gap between the two entry prices, relative to their middle, on the notional. */
  function Basis(buy: Pricing, sell: Pricing, notional: real): real
    requires buy.vwap > 0.0 && sell.vwap > 0.0
  {
    Pay((buy.vwap - sell.vwap) / ((buy.vwap + sell.vwap) / 2.0), notional)
  }

  /**
   The candidate condition on the two venues themselves: the difference of their hourly rates, on the
   notional and over the horizon, covers the fees of both venues twice, the slippage of both legs twice, the
   basis between the entry prices and the minimum edge.
   */
  lemma {:induction false} CandidateExactly(config: Config, a: Venue, b: Venue)
    requires Evaluate(config, a, b).Success?
    ensures var long, short := LongOf(a, b), ShortOf(a, b);
            var buy := PriceByNotional(long.asks, config.notional, true).value;
            var sell := PriceByNotional(short.bids, config.notional, false).value;
            IsCandidate(config, Evaluate(config, a, b).value) <==>
            Pay(Pay(short.HourlyRate() - long.HourlyRate(), config.notional), config.horizonSeconds as real) / 3600.0
            >= 2.0 * (Pay(config.notional, a.feeRate.value) + Pay(config.notional, b.feeRate.value))
               + 2.0 * Slippage(buy, sell, long.asks[0].price, short.bids[0].price)
               + Basis(buy, sell, config.notional) + Pay(config.notional, config.minimumNetEdge)
  {
    var e := Evaluate(config, a, b).value;
    IncomeIs(config, a, b);
    FeesAreBothLegsTwice(config, a, b);
    CostsAre(config, a, b);
    EdgeTimesNotional(e.netIncome, config.notional, config.minimumNetEdge);
  }

  lemma {:induction false} CostsAre(config: Config, a: Venue, b: Venue)
    requires Evaluate(config, a, b).Success?
    ensures var long, short := LongOf(a, b), ShortOf(a, b);
            var buy := PriceByNotional(long.asks, config.notional, true).value;
            var sell := PriceByNotional(short.bids, config.notional, false).value;
            var e := Evaluate(config, a, b).value;
            && config.notional > 0.0
            && e.entrySlippage == e.exitSlippage == Slippage(buy, sell, long.asks[0].price, short.bids[0].price)
            && e.basisCost == Basis(buy, sell, config.notional)
            && e.netEdge == e.netIncome / config.notional
  {
  }

  /**
   A candidate pays for itself: on sorted books its funding income covers entry and exit fees, the
   basis cost and the minimum edge on the notional. It is a candidate exactly when the income covers
   those and the slippage of both ways.
   */
  lemma {:induction false} CandidateCoversItsCosts(config: Config, a: Venue, b: Venue)
    requires Evaluate(config, a, b).Success? && Ascending(LongOf(a, b).asks) && Descending(ShortOf(a, b).bids)
    ensures var e := Evaluate(config, a, b).value;
            && (IsCandidate(config, e) <==>
                  e.fundingIncome >= e.entryFees + e.exitFees + e.entrySlippage + e.exitSlippage + e.basisCost
                                     + Pay(config.notional, config.minimumNetEdge))
            && (IsCandidate(config, e) ==>
                  e.fundingIncome >= e.entryFees + e.exitFees + e.basisCost + Pay(config.notional, config.minimumNetEdge))
  {
    var e := Evaluate(config, a, b).value;
    ChargesAreNotNegative(config, a, b);
    EdgeTimesNotional(e.netIncome, config.notional, config.minimumNetEdge);
  }
}

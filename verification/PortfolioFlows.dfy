/** Which way money and prices move in the ledger: funding, averages, marks, exposure and protection. */
module PortfolioFlows {
  import opened Common
  import opened Execution
  import opened Portfolio

  function Worth(a: real, b: real): real {
    a * b
  }

  // ---------- Funding ----------

  lemma {:induction false} FundingIsLinear(quantity: real, rate: real, mark: real)
    ensures FundingAmount(quantity, rate, mark) == -Worth(quantity, Worth(mark, rate))
    ensures FundingAmount(-quantity, rate, mark) == -FundingAmount(quantity, rate, mark)
  {
    assert quantity * mark * rate == quantity * (mark * rate);
    assert (-quantity) * mark * rate == -(quantity * mark * rate);
  }

  /** The record gives the payment and everything it follows from. */
  predicate Explains(r: FundingRecord, l: Ledger, instrument: Instrument, timestamp: int, rate: real, mark: real)
    requires mark > 0.0
  {
    && r.instrument == instrument && r.timestamp == timestamp && r.rate == rate && r.mark == mark
    && r.quantity == l.PositionOf(instrument).quantity
    && r.amount == ApplyFunding(l, instrument, timestamp, rate, mark).cash - l.cash
  }

  /** At a positive rate longs pay shorts: cash moves by the position's worth at the mark times the rate, down
      for a long and up for a short, and the opposite position gets what this one pays. */
  lemma {:induction false} LongsPayShorts(l: Ledger, instrument: Instrument, timestamp: int, rate: real, mark: real)
    requires mark > 0.0
    ensures var q, cash := l.PositionOf(instrument).quantity, ApplyFunding(l, instrument, timestamp, rate, mark).cash;
            && cash == l.cash - Worth(q, Worth(mark, rate))
            && (rate > 0.0 ==> (q > 0.0 <==> cash < l.cash) && (q < 0.0 <==> cash > l.cash))
    ensures l.PositionOf(instrument).IsOpen() ==>
              exists r :: ApplyFunding(l, instrument, timestamp, rate, mark).fundingRecords == l.fundingRecords + [r] && Explains(r, l, instrument, timestamp, rate, mark)
  {
    var q, unit := l.PositionOf(instrument).quantity, Worth(mark, rate);
    FundingIsLinear(q, rate, mark);
    assert q == 0.0 ==> Worth(q, unit) == 0.0;
    if rate > 0.0 {
      MulLess(0.0, mark, rate);
      MulLess(0.0, q, unit);
      MulLess(q, 0.0, unit);
    }
    if l.PositionOf(instrument).IsOpen() {
      var r := FundingRecord(instrument, timestamp, rate, mark, q, FundingAmount(q, rate, mark));
      assert Explains(r, l, instrument, timestamp, rate, mark);
    }
  }

  // ---------- Average entry and realized profit ----------

  /**
   Only closing realizes. A fill in the direction of the position leaves the realized profit alone; one that
   closes part of it leaves the average entry alone; one that goes beyond starts anew at its own price.
   */
  lemma {:induction false} OnlyClosingRealizes(p: Position, fill: Fill)
    requires fill.quantity > 0.0
    ensures var p' := FillPosition(p, fill);
            && (!p.ReducedBy(fill.side) ==> p'.realized == p.realized)
            && (p.ReducedBy(fill.side) && fill.quantity < Abs(p.quantity) ==> p'.averageEntry == p.averageEntry)
            && (p.ReducedBy(fill.side) && fill.quantity == Abs(p.quantity) ==>
                  !p'.IsOpen() && p'.averageEntry == 0.0 && p'.stopLoss.None? && p'.takeProfit.None?)
            && ((p.ReducedBy(fill.side) && fill.quantity > Abs(p.quantity)) || !p.IsOpen() ==> p'.averageEntry == fill.price)
            && p'.fees == p.fees + fill.fee && p'.mark == fill.price
  {
    var q, d := p.quantity, fill.Delta();
    if q > 0.0 && d > 0.0 {
      MulLess(0.0, q, d);
    } else if q < 0.0 && d < 0.0 {
      MulLess(0.0, -q, -d);
      assert q * d == (-q) * (-d);
    } else if q > 0.0 {
      assert q * d <= 0.0;
      SignOf(q, q + d);
    } else if q < 0.0 {
      assert q * d <= 0.0;
      SignOf(q, q + d);
    }
  }

  lemma {:induction false} SignOf(a: real, b: real)
    ensures a > 0.0 ==> (a * b < 0.0 <==> b < 0.0)
    ensures a < 0.0 ==> (a * b < 0.0 <==> b > 0.0)
  {
    if a > 0.0 {
      MulLess(b, 0.0, a);
      MulLess(0.0, b, a);
    } else if a < 0.0 {
      MulLess(b, 0.0, -a);
      MulLess(0.0, b, -a);
      assert a * b == -((-a) * b);
    }
  }

  /** A fill is booked once: the same id is refused ever after, and others are not refused for it. */
  lemma {:induction false} FillsAreBookedOnce(l: Ledger, fill: Fill, reduceOnly: bool, stopLoss: Option<real>, takeProfit: Option<real>, again: Fill)
    requires ApplyFill(l, fill, reduceOnly, stopLoss, takeProfit).Success?
    ensures var l' := ApplyFill(l, fill, reduceOnly, stopLoss, takeProfit).value;
            && l'.fills == l.fills + [fill]
            && ((again.fillId == fill.fillId || again.fillId in l.processed) <==> ApplyFill(l', again, false, None, None) == Failure(DuplicateFill))
  {
  }

  /** Protection is accepted exactly when the stop lies on the losing and the target on the winning side of the
      average entry, and is then what the order asked for. */
  lemma {:induction false} ProtectionIsSet(p: Position, stopLoss: Option<real>, takeProfit: Option<real>)
    requires p.IsOpen()
    ensures var sign := if p.quantity > 0.0 then 1.0 else -1.0;
            SetProtection(p, stopLoss, takeProfit).Success? <==>
            && (stopLoss.Some? ==> sign * (p.averageEntry - stopLoss.value) > 0.0)
            && (takeProfit.Some? ==> sign * (takeProfit.value - p.averageEntry) > 0.0)
    ensures SetProtection(p, stopLoss, takeProfit).Success? ==>
              SetProtection(p, stopLoss, takeProfit).value == p.(stopLoss := stopLoss, takeProfit := takeProfit)
  {
  }

  /** A fill hands the protection of its order to the position that it leaves open, and none keeps the old one. */
  lemma {:induction false} FillProtects(l: Ledger, fill: Fill, reduceOnly: bool, stopLoss: Option<real>, takeProfit: Option<real>)
    requires ApplyFill(l, fill, reduceOnly, stopLoss, takeProfit).Success?
    ensures var p, p' := l.PositionOf(fill.instrument), ApplyFill(l, fill, reduceOnly, stopLoss, takeProfit).value.PositionOf(fill.instrument);
            && p'.quantity == p.quantity + fill.Delta()
            && (p'.IsOpen() && (stopLoss.Some? || takeProfit.Some?) ==> p'.stopLoss == stopLoss && p'.takeProfit == takeProfit)
            && (p'.IsOpen() && stopLoss.None? && takeProfit.None? ==> p'.stopLoss == p.stopLoss && p'.takeProfit == p.takeProfit)
  {
    var p := l.PositionOf(fill.instrument);
    var candidate := Candidate(p, fill, reduceOnly, stopLoss, takeProfit).value;
    FillConservesValue(p, fill, 0.0);
    PutLooksUp(l.positions, candidate, fill.instrument);
  }

  // ---------- Marks ----------

  /** An open position is valued at the mark price, or else at the last price, or else in the middle of bid
      and ask; no other position moves. */
  lemma {:induction false} MarkValues(l: Ledger, snapshot: MarketSnapshot, other: Instrument)
    ensures var p, p' := l.PositionOf(snapshot.instrument), Mark(l, snapshot).PositionOf(snapshot.instrument);
            && p'.quantity == p.quantity && p'.averageEntry == p.averageEntry && p'.realized == p.realized
            && (p.IsOpen() && snapshot.markPrice.Some? ==> p'.mark == snapshot.markPrice.value)
            && (p.IsOpen() && snapshot.markPrice.None? && snapshot.lastPrice.Some? ==> p'.mark == snapshot.lastPrice.value)
            && (p.IsOpen() && snapshot.markPrice.None? && snapshot.lastPrice.None? ==> p'.mark - snapshot.bid == snapshot.ask - p'.mark)
            && (other != snapshot.instrument ==> Mark(l, snapshot).PositionOf(other) == l.PositionOf(other))
  {
    var p := l.PositionOf(snapshot.instrument);
    var marked := p.(mark := snapshot.ValuationPrice(), updatedAt := Some(snapshot.timestamp));
    PutLooksUp(l.positions, marked, snapshot.instrument);
    PutLooksUp(l.positions, marked, other);
  }

  // ---------- Exposure and margin ----------

  ghost predicate Marked(ps: seq<Position>) {
    forall i :: 0 <= i < |ps| && ps[i].IsOpen() ==> ps[i].mark > 0.0
  }

  lemma {:induction false} OneExposure(p: Position)
    requires p.IsOpen() ==> p.mark > 0.0
    ensures p.Notional() >= 0.0 && p.Notional() >= Abs(NetOf(p))
    ensures p.quantity >= 0.0 ==> p.Notional() == NetOf(p)
    ensures p.quantity <= 0.0 ==> p.Notional() == -NetOf(p)
  {
    if p.quantity > 0.0 {
      MulLess(0.0, p.quantity, p.mark);
    } else if p.quantity < 0.0 {
      MulLess(0.0, -p.quantity, p.mark);
      assert (-p.quantity) * p.mark == -(p.quantity * p.mark);
    } else {
      assert p.quantity * p.mark == 0.0;
    }
  }

  /** Gross exposure is at least the net exposure either way, and equal to it when all positions are on one side. */
  lemma {:induction false} GrossAndNet(ps: seq<Position>)
    requires Marked(ps)
    ensures Total(ps, NotionalOf) >= Abs(Total(ps, NetOf))
    ensures (forall i :: 0 <= i < |ps| ==> ps[i].quantity >= 0.0) ==> Total(ps, NotionalOf) == Total(ps, NetOf)
    ensures (forall i :: 0 <= i < |ps| ==> ps[i].quantity <= 0.0) ==> Total(ps, NotionalOf) == -Total(ps, NetOf)
  {
    if ps != [] {
      GrossAndNet(ps[..|ps| - 1]);
      OneExposure(ps[|ps| - 1]);
    }
  }

  /** With one maintenance rate for all instruments, the maintenance margin is that rate of the gross exposure. */
  lemma {:induction false} MaintenanceIsItsRate(l: Ledger, rate: real)
    requires forall i :: 0 <= i < |l.positions| ==>
               l.positions[i].instrument in l.rules && l.rules[l.positions[i].instrument].maintenanceMarginRate == rate
    ensures l.MaintenanceMargin() == Worth(l.GrossExposure(), rate)
  {
    var f := (p: Position) => if p.instrument in l.rules then p.Notional() * l.rules[p.instrument].maintenanceMarginRate else 0.0;
    MaintenanceOf(l.rules, l.positions, f, rate);
    assert l.MaintenanceMargin() == Total(l.positions, f) by { SameTotal(l, l.positions, f); }
  }

  lemma {:induction false} SameTotal(l: Ledger, ps: seq<Position>, f: Position -> real)
    requires forall p :: f(p) == if p.instrument in l.rules then p.Notional() * l.rules[p.instrument].maintenanceMarginRate else 0.0
    ensures Total(ps, (p: Position) => if p.instrument in l.rules then p.Notional() * l.rules[p.instrument].maintenanceMarginRate else 0.0)
            == Total(ps, f)
  {
    if ps != [] {
      SameTotal(l, ps[..|ps| - 1], f);
    }
  }

  lemma {:induction false} MaintenanceOf(rules: Rulebook, ps: seq<Position>, f: Position -> real, rate: real)
    requires forall p :: f(p) == if p.instrument in rules then p.Notional() * rules[p.instrument].maintenanceMarginRate else 0.0
    requires forall i :: 0 <= i < |ps| ==> ps[i].instrument in rules && rules[ps[i].instrument].maintenanceMarginRate == rate
    ensures Total(ps, f) == Worth(Total(ps, NotionalOf), rate)
  {
    if ps == [] {
      assert Worth(0.0, rate) == 0.0;
    } else {
      var n := |ps| - 1;
      MaintenanceOf(rules, ps[..n], f, rate);
      Distribute(Total(ps[..n], NotionalOf), ps[n].Notional(), rate);
      assert f(ps[n]) == Worth(ps[n].Notional(), rate);
    }
  }

  /** A snapshot adds up: equity is cash and open profit, margin times leverage is the gross exposure, and what
      is available is what equity leaves, if anything. */
  lemma {:induction false} SnapshotAddsUp(l: Ledger, timestamp: int)
    ensures var n := |l.snapshots|;
            && |Capture(l, timestamp).snapshots| == n + 1
            && var s := Capture(l, timestamp).snapshots[n];
            && s.timestamp == timestamp && s.cash == l.cash && s.equity == s.cash + s.unrealizedPnl
            && Worth(s.marginUsed, l.leverage) == s.grossExposure
            && (if s.equity >= s.marginUsed then s.availableMargin == s.equity - s.marginUsed else s.availableMargin == 0.0)
            && s.unrealizedPnl == Total(l.positions, UnrealizedOf) && s.grossExposure == Total(l.positions, NotionalOf)
            && s.netExposure == Total(l.positions, NetOf) && s.maintenanceMargin == l.MaintenanceMargin()
  {
    assert l.GrossExposure() / l.leverage * l.leverage == l.GrossExposure();
  }

  // ---------- Protection ----------

  /** An open position's stop fires exactly when closing now would be no better than the stop price, and its
      target exactly when it would be no worse than the target and the stop does not fire. */
  lemma {:induction false} ProtectionFiresExactly(p: Position, snapshot: MarketSnapshot)
    requires p.IsOpen()
    ensures var out := if p.quantity > 0.0 then snapshot.bid else snapshot.ask;
            var sign := if p.quantity > 0.0 then 1.0 else -1.0;
            var stopped := p.stopLoss.Some? && sign * (out - p.stopLoss.value) <= 0.0;
            var reached := p.takeProfit.Some? && sign * (out - p.takeProfit.value) >= 0.0;
            && (p.ProtectionTrigger(snapshot) == Some(StopLoss) <==> stopped)
            && (p.ProtectionTrigger(snapshot) == Some(TakeProfit) <==> !stopped && reached)
            && (p.ProtectionTrigger(snapshot) == None <==> !stopped && !reached)
  {
  }
}

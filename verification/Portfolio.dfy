/**
 Average-cost positions and the cash ledger above them.

 `Position` and `Ledger` are values. The object that updates a ledger in place is
 `PortfolioObjects.PortfolioLedger`.
 */
module Portfolio {
  import opened Common
  import opened Execution

  // ---------- Positions ----------

  datatype Position = Position(
    instrument: Instrument,
    quantity: real,
    averageEntry: real,
    mark: real,
    realized: real,
    funding: real,
    fees: real,
    stopLoss: Option<real>,
    takeProfit: Option<real>,
    openedAt: Option<int>,
    updatedAt: Option<int>)
  {
    predicate IsOpen() {
      quantity != 0.0
    }

    function UnrealizedPnl(): real {
      if !IsOpen() || mark <= 0.0 then 0.0 else quantity * (mark - averageEntry)
    }

    function Notional(): real {
      if !IsOpen() || mark <= 0.0 then 0.0 else Abs(quantity) * mark
    }

    /** Realized plus unrealized profit when the position is valued at `m`. */
    function ValueAt(m: real): real {
      realized + quantity * (m - averageEntry)
    }

    /** An order of `side` trades against the position. */
    predicate ReducedBy(side: Side) {
      (quantity > 0.0 && side.Sell?) || (quantity < 0.0 && side.Buy?)
    }

    function ProtectionTrigger(snapshot: MarketSnapshot): Option<ExitReason> {
      var executable := if quantity > 0.0 then snapshot.bid else snapshot.ask;
      if !IsOpen() then None
      else if stopLoss.Some? && ((quantity > 0.0 && executable <= stopLoss.value)
                                 || (quantity < 0.0 && executable >= stopLoss.value)) then Some(StopLoss)
      else if takeProfit.Some? && ((quantity > 0.0 && executable >= takeProfit.value)
                                   || (quantity < 0.0 && executable <= takeProfit.value)) then Some(TakeProfit)
      else None
    }
  }

  datatype ExitReason = StopLoss | TakeProfit | Liquidation

  function EmptyPosition(instrument: Instrument): Position {
    Position(instrument, 0.0, 0.0, 0.0, 0.0, 0.0, 0.0, None, None, None, None)
  }

  /** Profit locked in by a fill: only the part that closes the position realizes anything. */
  function RealizedBy(p: Position, fill: Fill): real {
    if p.quantity == 0.0 || p.quantity * fill.Delta() > 0.0 then 0.0
    else
      var closing := Min(Abs(p.quantity), Abs(fill.Delta()));
      var direction := if p.quantity > 0.0 then 1.0 else -1.0;
      closing * (fill.price - p.averageEntry) * direction
  }

  /** Opening, adding, partially closing, exactly closing or reversing a position. */
  function FillPosition(p: Position, fill: Fill): Position {
    var delta := fill.Delta();
    var quantity := p.quantity + delta;
    var moved :=
      if p.quantity == 0.0 then
        p.(quantity := delta, averageEntry := fill.price, openedAt := Some(fill.filledAt))
      else if p.quantity * delta > 0.0 then
        var total := Abs(p.quantity) + Abs(delta);
        p.(quantity := quantity,
           averageEntry := (Abs(p.quantity) * p.averageEntry + Abs(delta) * fill.price) / total)
      else if quantity == 0.0 then
        p.(quantity := 0.0, averageEntry := 0.0, stopLoss := None, takeProfit := None, openedAt := None)
      else if p.quantity * quantity < 0.0 then
        p.(quantity := quantity, averageEntry := fill.price, openedAt := Some(fill.filledAt))
      else
        p.(quantity := quantity);
    moved.(mark := fill.price,
           realized := p.realized + RealizedBy(p, fill),
           fees := p.fees + fill.fee,
           updatedAt := Some(fill.filledAt))
  }

  function SetProtection(p: Position, stopLoss: Option<real>, takeProfit: Option<real>): Result<Position, Error> {
    if !p.IsOpen() then Success(p)
    else if stopLoss.Some? && !(if p.quantity > 0.0 then stopLoss.value < p.averageEntry else stopLoss.value > p.averageEntry)
    then Failure(StopLossOnWrongSide)
    else if takeProfit.Some? && !(if p.quantity > 0.0 then takeProfit.value > p.averageEntry else takeProfit.value < p.averageEntry)
    then Failure(TakeProfitOnWrongSide)
    else Success(p.(stopLoss := stopLoss, takeProfit := takeProfit))
  }

  lemma {:induction false} WeightedAverage(a: real, x: real, b: real, y: real)
    requires a + b != 0.0
    ensures (a + b) * ((a * x + b * y) / (a + b)) == a * x + b * y
  {
  }

  /**
   Average-cost accounting neither creates nor loses value: whichever branch a fill takes, and
   whatever price `m` the position is valued at, its value changes by exactly the value of the fill.
   */
  lemma {:induction false} FillConservesValue(p: Position, fill: Fill, m: real)
    ensures FillPosition(p, fill).quantity == p.quantity + fill.Delta()
    ensures FillPosition(p, fill).ValueAt(m) == p.ValueAt(m) + fill.Delta() * (m - fill.price)
  {
    var q, d, a, x := p.quantity, fill.Delta(), p.averageEntry, fill.price;
    var p' := FillPosition(p, fill);
    if q == 0.0 {
      assert q * (m - a) == 0.0;
    } else if q * d > 0.0 {
      var total := Abs(q) + Abs(d);
      WeightedAverage(Abs(q), a, Abs(d), x);
      assert total * p'.averageEntry == Abs(q) * a + Abs(d) * x;
      if q > 0.0 {
        assert d > 0.0;
      } else {
        assert d < 0.0;
        assert (q + d) * p'.averageEntry == -(total * p'.averageEntry);
      }
      assert (q + d) * p'.averageEntry == q * a + d * x;
      ExpandValue(q + d, m, p'.averageEntry);
      ExpandValue(q, m, a);
      ExpandValue(d, m, x);
      Distribute(q, d, m);
    } else {
      ClosingFill(p, fill, m);
    }
  }

  lemma {:induction false} ExpandValue(q: real, m: real, a: real)
    ensures q * (m - a) == q * m - q * a
  {
  }

  lemma {:induction false} ClosingFill(p: Position, fill: Fill, m: real)
    requires p.quantity != 0.0 && !(p.quantity * fill.Delta() > 0.0)
    ensures FillPosition(p, fill).ValueAt(m) == p.ValueAt(m) + fill.Delta() * (m - fill.price)
  {
    var q, d, a, x := p.quantity, fill.Delta(), p.averageEntry, fill.price;
    var p' := FillPosition(p, fill);
    ExpandValue(q, m, a);
    ExpandValue(d, m, x);
    ExpandValue(q + d, m, p'.averageEntry);
    Distribute(q, d, m);
    assert q > 0.0 ==> d <= 0.0;
    assert q < 0.0 ==> d >= 0.0;
    if q + d == 0.0 {
      assert RealizedBy(p, fill) == q * (x - a);
      ExpandValue(q, x, a);
      assert d * x == -(q * x);
    } else if q * (q + d) < 0.0 {
      assert Abs(d) > Abs(q);
      assert RealizedBy(p, fill) == q * (x - a);
      ExpandValue(q, x, a);
      Distribute(q, d, x);
    } else {
      assert Abs(d) < Abs(q);
      assert RealizedBy(p, fill) == -d * (x - a);
      ExpandValue(-d, x, a);
      Distribute(q, d, a);
    }
  }

  // ---------- Sums ----------

  function Total(ps: seq<Position>, f: Position -> real): real {
    if ps == [] then 0.0 else Total(ps[..|ps| - 1], f) + f(ps[|ps| - 1])
  }

  function UnrealizedOf(p: Position): real { p.UnrealizedPnl() }

  function NotionalOf(p: Position): real { p.Notional() }

  function NetOf(p: Position): real { p.quantity * p.mark }

  function RealizedOf(p: Position): real { p.realized }

  lemma {:induction false} TotalUpdate(ps: seq<Position>, i: nat, p: Position, f: Position -> real)
    requires i < |ps|
    ensures Total(ps[i := p], f) == Total(ps, f) - f(ps[i]) + f(p)
  {
    var n := |ps| - 1;
    if i == n {
      assert ps[i := p][..n] == ps[..n];
    } else {
      assert ps[i := p][..n] == ps[..n][i := p];
      TotalUpdate(ps[..n], i, p, f);
    }
  }

  lemma {:induction false} TotalAppend(ps: seq<Position>, p: Position, f: Position -> real)
    ensures Total(ps + [p], f) == Total(ps, f) + f(p)
  {
    assert (ps + [p])[..|ps|] == ps;
  }

  // ---------- The ledger as a value ----------

  datatype FundingRecord = FundingRecord(
    instrument: Instrument, timestamp: int, rate: real, mark: real, quantity: real, amount: real)

  datatype PortfolioSnapshot = PortfolioSnapshot(
    timestamp: int, cash: real, equity: real, unrealizedPnl: real, grossExposure: real,
    netExposure: real, marginUsed: real, maintenanceMargin: real, availableMargin: real)

  datatype LiquidationDecision = LiquidationDecision(
    timestamp: int, equity: real, maintenanceMargin: real, instruments: seq<Instrument>)

  type Rulebook = map<Instrument, InstrumentRules>

  /** `positions` is the insertion-ordered dictionary of positions, keyed by instrument. */
  datatype Ledger_ = Ledger(
    initialCash: real,
    leverage: real,
    rules: Rulebook,
    cash: real,
    positions: seq<Position>,
    fills: seq<Fill>,
    fundingRecords: seq<FundingRecord>,
    snapshots: seq<PortfolioSnapshot>,
    processed: set<nat>)
  {
    function UnrealizedPnl(): real {
      Total(positions, UnrealizedOf)
    }

    function Equity(): real {
      cash + UnrealizedPnl()
    }

    function GrossExposure(): real {
      Total(positions, NotionalOf)
    }

    function NetExposure(): real {
      Total(positions, NetOf)
    }

    function MarginUsed(): real
      requires leverage > 0.0
    {
      GrossExposure() / leverage
    }

    function MaintenanceMargin(): real {
      Total(positions, (p: Position) =>
        if p.instrument in rules then p.Notional() * rules[p.instrument].maintenanceMarginRate else 0.0)
    }

    function AvailableMargin(): real
      requires leverage > 0.0
    {
      Max(0.0, Equity() - MarginUsed())
    }

    /** The position of an instrument, or an empty one. */
    function PositionOf(instrument: Instrument): Position {
      Find(positions, instrument)
    }
  }

  type Ledger = l: Ledger_ | l.initialCash > 0.0 && l.leverage > 0.0
    witness Ledger(1.0, 1.0, map[], 1.0, [], [], [], [], {})

  function NewLedger(initialCash: real, leverage: real, rules: Rulebook): Ledger
    requires initialCash > 0.0 && leverage > 0.0
  {
    Ledger(initialCash, leverage, rules, initialCash, [], [], [], [], {})
  }

  function IndexOf(ps: seq<Position>, instrument: Instrument): (i: nat)
    ensures i <= |ps|
    ensures i < |ps| ==> ps[i].instrument == instrument
    ensures forall j :: 0 <= j < i ==> ps[j].instrument != instrument
  {
    if ps == [] then 0
    else
      var i := IndexOf(ps[..|ps| - 1], instrument);
      if i < |ps| - 1 then i
      else if ps[|ps| - 1].instrument == instrument then |ps| - 1
      else |ps|
  }

  function Find(ps: seq<Position>, instrument: Instrument): (p: Position)
    ensures p.instrument == instrument
  {
    var i := IndexOf(ps, instrument);
    if i < |ps| then ps[i] else EmptyPosition(instrument)
  }

  /** Replaces the position of an instrument, or appends it. */
  function Put(ps: seq<Position>, p: Position): (r: seq<Position>)
    ensures |r| == if IndexOf(ps, p.instrument) < |ps| then |ps| else |ps| + 1
  {
    var i := IndexOf(ps, p.instrument);
    if i < |ps| then ps[i := p] else ps + [p]
  }

  function GuardReduceOnly(p: Position, fill: Fill): Option<Error> {
    if !p.IsOpen() then Some(ReduceOnlyWithoutPosition)
    else if !p.ReducedBy(fill.side) || fill.quantity > Abs(p.quantity) then Some(ReduceOnlyIncreasesPosition)
    else None
  }

  /** The candidate position after a fill: guarded when reduce-only, and with its protection checked. */
  function Candidate(p: Position, fill: Fill, reduceOnly: bool, stopLoss: Option<real>, takeProfit: Option<real>)
    : (r: Result<Position, Error>)
    ensures r.Success? ==> r.value.instrument == p.instrument
  {
    if reduceOnly && GuardReduceOnly(p, fill).Some? then Failure(GuardReduceOnly(p, fill).value)
    else
      var filled := FillPosition(p, fill);
      if filled.IsOpen() && (stopLoss.Some? || takeProfit.Some?) then SetProtection(filled, stopLoss, takeProfit)
      else Success(filled)
  }

  function ApplyFill(l: Ledger, fill: Fill, reduceOnly: bool, stopLoss: Option<real>, takeProfit: Option<real>)
    : Result<Ledger, Error>
  {
    var p := Find(l.positions, fill.instrument);
    if fill.fillId in l.processed then Failure(DuplicateFill)
    else
      var candidate :- Candidate(p, fill, reduceOnly, stopLoss, takeProfit);
      Success(l.(cash := l.cash + RealizedBy(p, fill) - fill.fee,
                 positions := Put(l.positions, candidate),
                 fills := l.fills + [fill],
                 processed := l.processed + {fill.fillId}))
  }

  function Mark(l: Ledger, snapshot: MarketSnapshot): Ledger {
    var p := Find(l.positions, snapshot.instrument);
    if p.IsOpen() then
      l.(positions := Put(l.positions, p.(mark := snapshot.ValuationPrice(), updatedAt := Some(snapshot.timestamp))))
    else l
  }

  /** Positive funding: longs pay shorts. */
  function FundingAmount(quantity: real, rate: real, mark: real): real {
    -(quantity * mark * rate)
  }

  function ApplyFunding(l: Ledger, instrument: Instrument, timestamp: int, rate: real, mark: real): Ledger
    requires mark > 0.0
  {
    var p := Find(l.positions, instrument);
    var amount := FundingAmount(p.quantity, rate, mark);
    if p.IsOpen() then
      l.(cash := l.cash + amount,
         positions := Put(l.positions, p.(funding := p.funding + amount)),
         fundingRecords := l.fundingRecords + [FundingRecord(instrument, timestamp, rate, mark, p.quantity, amount)])
    else l
  }

  /** Cap on a fill: the closing capacity, plus for ordinary orders what free margin can open. */
  function MaximumFillQuantity(l: Ledger, order: Order, price: real): real {
    var p := Find(l.positions, order.instrument);
    var closing := if p.ReducedBy(order.side) then Abs(p.quantity) else 0.0;
    if price <= 0.0 then 0.0
    else if order.reduceOnly then Min(order.remaining, closing)
    else
      var feeRate := if order.instrument in l.rules then l.rules[order.instrument].takerFeeRate else 0.0;
      var perUnit := price / l.leverage + price * feeRate;
      var opening := if perUnit > 0.0 then l.AvailableMargin() / perUnit else 0.0;
      Min(order.remaining, closing + opening)
  }

  function OpenInstruments(ps: seq<Position>): (r: seq<Instrument>)
    ensures forall x :: x in r <==> exists i :: 0 <= i < |ps| && ps[i].IsOpen() && ps[i].instrument == x
  {
    if ps == [] then []
    else
      var n := |ps| - 1;
      OpenInstruments(ps[..n]) + if ps[n].IsOpen() then [ps[n].instrument] else []
  }

  /** The order of texts by code point. */
  predicate TextBefore(a: string, b: string) {
    b != "" && (a == "" || a[0] < b[0] || (a[0] == b[0] && TextBefore(a[1..], b[1..])))
  }

  predicate NameBefore(a: Instrument, b: Instrument) {
    TextBefore(a.exchange, b.exchange) || (a.exchange == b.exchange && TextBefore(a.symbol, b.symbol))
  }

  function InsertByName(sorted: seq<Instrument>, x: Instrument): (r: seq<Instrument>)
    ensures multiset(r) == multiset(sorted) + multiset{x}
  {
    if sorted == [] then [x]
    else if NameBefore(x, sorted[0]) then [x] + sorted
    else
      assert sorted == [sorted[0]] + sorted[1..];
      [sorted[0]] + InsertByName(sorted[1..], x)
  }

  function SortByName(instruments: seq<Instrument>): (r: seq<Instrument>)
    ensures multiset(r) == multiset(instruments)
  {
    if instruments == [] then []
    else
      var n := |instruments| - 1;
      assert instruments == instruments[..n] + [instruments[n]];
      InsertByName(SortByName(instruments[..n]), instruments[n])
  }

  lemma {:induction false} TextOrder(a: string, b: string, c: string)
    ensures !TextBefore(a, a) && (TextBefore(a, b) ==> !TextBefore(b, a)) && (TextBefore(a, b) || TextBefore(b, a) || a == b)
    ensures TextBefore(a, b) && TextBefore(b, c) ==> TextBefore(a, c)
    decreases |a| + |b| + |c|
  {
    if a != "" && b != "" && a[0] == b[0] {
      assert a == [a[0]] + a[1..] && b == [b[0]] + b[1..];
      if c != "" {
        TextOrder(a[1..], b[1..], c[1..]);
      } else {
        TextOrder(a[1..], b[1..], c);
      }
    } else if a != "" {
      TextOrder(a[1..], "", "");
    }
  }

  lemma {:induction false} NameOrder(a: Instrument, b: Instrument, c: Instrument)
    ensures NameBefore(a, b) ==> !NameBefore(b, a)
    ensures !NameBefore(b, a) && !NameBefore(c, b) ==> !NameBefore(c, a)
  {
    TextOrder(a.exchange, b.exchange, c.exchange);
    TextOrder(b.exchange, c.exchange, a.exchange);
    TextOrder(c.exchange, a.exchange, b.exchange);
    TextOrder(a.symbol, b.symbol, c.symbol);
    TextOrder(b.symbol, c.symbol, a.symbol);
    TextOrder(c.symbol, a.symbol, b.symbol);
  }

  ghost predicate ByName(instruments: seq<Instrument>) {
    forall i, j :: 0 <= i < j < |instruments| ==> !NameBefore(instruments[j], instruments[i])
  }

  lemma {:induction false} InsertKeepsNames(sorted: seq<Instrument>, x: Instrument)
    requires ByName(sorted)
    ensures ByName(InsertByName(sorted, x))
  {
    if sorted != [] {
      var r := InsertByName(sorted, x);
      if NameBefore(x, sorted[0]) {
        forall j | 0 <= j < |sorted|
          ensures !NameBefore(sorted[j], x)
        {
          NameOrder(x, sorted[0], sorted[j]);
        }
      } else {
        var rest := InsertByName(sorted[1..], x);
        InsertKeepsNames(sorted[1..], x);
        forall j | 0 <= j < |rest|
          ensures !NameBefore(rest[j], sorted[0])
        {
          assert rest[j] in multiset(rest);
          assert rest[j] in sorted[1..] || rest[j] == x;
        }
      }
    }
  }

  lemma {:induction false} SortedByName(instruments: seq<Instrument>)
    ensures ByName(SortByName(instruments)) && forall x :: x in SortByName(instruments) <==> x in instruments
  {
    if instruments != [] {
      var n := |instruments| - 1;
      SortedByName(instruments[..n]);
      InsertKeepsNames(SortByName(instruments[..n]), instruments[n]);
    }
    forall x
      ensures x in SortByName(instruments) <==> x in instruments
    {
      assert x in SortByName(instruments) <==> x in multiset(SortByName(instruments));
      assert x in instruments <==> x in multiset(instruments);
    }
  }

  function DecideLiquidation(l: Ledger, timestamp: int): Option<LiquidationDecision> {
    var open := SortByName(OpenInstruments(l.positions));
    if open == [] || l.Equity() > l.MaintenanceMargin() then None
    else Some(LiquidationDecision(timestamp, l.Equity(), l.MaintenanceMargin(), open))
  }

  /** There is a decision exactly when something is open and equity is down to the maintenance margin; it
      lists exactly the open instruments, sorted by exchange and symbol. */
  lemma {:induction false} DecisionListsOpen(l: Ledger, timestamp: int)
    ensures var d := DecideLiquidation(l, timestamp);
            && (d.Some? <==> (exists i :: 0 <= i < |l.positions| && l.positions[i].IsOpen()) && l.Equity() <= l.MaintenanceMargin())
            && (d.Some? ==> ByName(d.value.instruments) && forall x :: x in d.value.instruments <==> x in OpenInstruments(l.positions))
  {
    var open := OpenInstruments(l.positions);
    SortedByName(open);
    if SortByName(open) != [] {
      assert SortByName(open)[0] in open;
    }
    if i :| 0 <= i < |l.positions| && l.positions[i].IsOpen() {
      assert l.positions[i].instrument in open;
    }
  }

  function Capture(l: Ledger, timestamp: int): Ledger {
    l.(snapshots := l.snapshots + [PortfolioSnapshot(
         timestamp, l.cash, l.Equity(), l.UnrealizedPnl(), l.GrossExposure(), l.NetExposure(),
         l.MarginUsed(), l.MaintenanceMargin(), l.AvailableMargin())])
  }

  // ---------- Conservation ----------

  /** Signed quantity of the fills of one instrument. */
  function SignedQuantity(fills: seq<Fill>, instrument: Instrument): real {
    if fills == [] then 0.0
    else
      var f := fills[|fills| - 1];
      SignedQuantity(fills[..|fills| - 1], instrument) + if f.instrument == instrument then f.Delta() else 0.0
  }

  /** Value of the fills of one instrument when each is valued against the price `m`. */
  function FillValue(fills: seq<Fill>, instrument: Instrument, m: real): real {
    if fills == [] then 0.0
    else
      var f := fills[|fills| - 1];
      FillValue(fills[..|fills| - 1], instrument, m)
      + if f.instrument == instrument then f.Delta() * (m - f.price) else 0.0
  }

  /** Value of all fills, each against the current mark of its own instrument. */
  function TradingValue(fills: seq<Fill>, ps: seq<Position>): real {
    if fills == [] then 0.0
    else
      var f := fills[|fills| - 1];
      TradingValue(fills[..|fills| - 1], ps) + f.Delta() * (Find(ps, f.instrument).mark - f.price)
  }

  function Fees(fills: seq<Fill>): real {
    if fills == [] then 0.0 else Fees(fills[..|fills| - 1]) + fills[|fills| - 1].fee
  }

  function FundingTotal(records: seq<FundingRecord>): real {
    if records == [] then 0.0 else FundingTotal(records[..|records| - 1]) + records[|records| - 1].amount
  }

  ghost predicate Distinct(ps: seq<Position>) {
    forall i, j :: 0 <= i < j < |ps| ==> ps[i].instrument != ps[j].instrument
  }

  /** The position is what its fills make of it, at every valuation price. */
  ghost predicate Accounts(p: Position, fills: seq<Fill>) {
    && p.quantity == SignedQuantity(fills, p.instrument)
    && (forall m :: p.ValueAt(m) == FillValue(fills, p.instrument, m))
    && (p.IsOpen() ==> p.mark > 0.0)
  }

  ghost predicate Covered(fills: seq<Fill>, ps: seq<Position>) {
    forall i :: 0 <= i < |fills| ==> IndexOf(ps, fills[i].instrument) < |ps|
  }

  /** What every ledger operation keeps. */
  ghost predicate Balanced(l: Ledger) {
    && Distinct(l.positions)
    && Covered(l.fills, l.positions)
    && (forall i :: 0 <= i < |l.positions| ==> Accounts(l.positions[i], l.fills))
    && l.cash == l.initialCash + Total(l.positions, RealizedOf)
                 - Fees(l.fills) + FundingTotal(l.fundingRecords)
  }

  lemma {:induction false} PutLooksUp(ps: seq<Position>, p: Position, instrument: Instrument)
    ensures IndexOf(Put(ps, p), instrument) < |Put(ps, p)| <==> IndexOf(ps, instrument) < |ps| || instrument == p.instrument
    ensures Find(Put(ps, p), instrument) == if instrument == p.instrument then p else Find(ps, instrument)
  {
    var r := Put(ps, p);
    var i, j := IndexOf(ps, p.instrument), IndexOf(r, instrument);
    assert forall k :: 0 <= k < |ps| && k != i ==> r[k] == ps[k];
    if instrument == p.instrument {
      assert r[i] == p;
      assert j == i;
    }
  }

  lemma {:induction false} PutKeepsDistinct(ps: seq<Position>, p: Position)
    requires Distinct(ps)
    ensures Distinct(Put(ps, p))
    ensures forall x :: x in Put(ps, p) ==> x == p || (x in ps && x.instrument != p.instrument)
  {
    var i, r := IndexOf(ps, p.instrument), Put(ps, p);
    forall x | x in r && x != p
      ensures x in ps && x.instrument != p.instrument
    {
      var k :| 0 <= k < |r| && r[k] == x;
      assert k != i && r[k] == ps[k];
    }
  }

  lemma {:induction false} PutTotal(ps: seq<Position>, p: Position, f: Position -> real)
    requires f(EmptyPosition(p.instrument)) == 0.0
    ensures Total(Put(ps, p), f) == Total(ps, f) - f(Find(ps, p.instrument)) + f(p)
  {
    var i := IndexOf(ps, p.instrument);
    if i < |ps| {
      TotalUpdate(ps, i, p, f);
    } else {
      TotalAppend(ps, p, f);
    }
  }

  lemma {:induction false} SumsOfAppendedFill(fills: seq<Fill>, fill: Fill, instrument: Instrument)
    ensures SignedQuantity(fills + [fill], instrument)
            == SignedQuantity(fills, instrument) + if fill.instrument == instrument then fill.Delta() else 0.0
    ensures forall m :: FillValue(fills + [fill], instrument, m)
                        == FillValue(fills, instrument, m) + if fill.instrument == instrument then fill.Delta() * (m - fill.price) else 0.0
    ensures Fees(fills + [fill]) == Fees(fills) + fill.fee
  {
    assert (fills + [fill])[..|fills|] == fills;
  }

  lemma {:induction false} NoFillsNoValue(fills: seq<Fill>, ps: seq<Position>, instrument: Instrument)
    requires Covered(fills, ps) && IndexOf(ps, instrument) == |ps|
    ensures SignedQuantity(fills, instrument) == 0.0
    ensures forall m :: FillValue(fills, instrument, m) == 0.0
  {
    if fills != [] {
      NoFillsNoValue(fills[..|fills| - 1], ps, instrument);
      assert IndexOf(ps, fills[|fills| - 1].instrument) < |ps|;
    }
  }

  /** Also an instrument without a position is accounted for. */
  lemma {:induction false} FindAccounts(l: Ledger, instrument: Instrument)
    requires Balanced(l)
    ensures Accounts(Find(l.positions, instrument), l.fills)
  {
    if IndexOf(l.positions, instrument) == |l.positions| {
      NoFillsNoValue(l.fills, l.positions, instrument);
    }
  }

  lemma {:induction false} FillKeepsAccounts(p: Position, fills: seq<Fill>, fill: Fill)
    requires Accounts(p, fills) && p.instrument == fill.instrument && fill.price > 0.0
    ensures Accounts(FillPosition(p, fill), fills + [fill])
  {
    var p' := FillPosition(p, fill);
    SumsOfAppendedFill(fills, fill, p.instrument);
    FillConservesValue(p, fill, 0.0);
    forall m
      ensures p'.ValueAt(m) == FillValue(fills + [fill], p.instrument, m)
    {
      FillConservesValue(p, fill, m);
    }
  }

  lemma {:induction false} PutKeepsAccounts(ps: seq<Position>, fills: seq<Fill>, p: Position)
    requires Distinct(ps)
    requires forall i :: 0 <= i < |fills| ==> fills[i].instrument == p.instrument || IndexOf(ps, fills[i].instrument) < |ps|
    requires forall i :: 0 <= i < |ps| && ps[i].instrument != p.instrument ==> Accounts(ps[i], fills)
    requires Accounts(p, fills)
    ensures Distinct(Put(ps, p)) && Covered(fills, Put(ps, p))
    ensures forall i :: 0 <= i < |Put(ps, p)| ==> Accounts(Put(ps, p)[i], fills)
  {
    var r := Put(ps, p);
    PutKeepsDistinct(ps, p);
    forall i | 0 <= i < |fills|
      ensures IndexOf(r, fills[i].instrument) < |r|
    {
      PutLooksUp(ps, p, fills[i].instrument);
    }
    forall i | 0 <= i < |r|
      ensures Accounts(r[i], fills)
    {
      assert r[i] in r;
    }
  }

  lemma {:induction false} FillKeepsOtherAccounts(l: Ledger, fill: Fill)
    requires Balanced(l)
    ensures forall i :: 0 <= i < |l.positions| && l.positions[i].instrument != fill.instrument
                        ==> Accounts(l.positions[i], l.fills + [fill])
  {
    forall i | 0 <= i < |l.positions| && l.positions[i].instrument != fill.instrument
      ensures Accounts(l.positions[i], l.fills + [fill])
    {
      SumsOfAppendedFill(l.fills, fill, l.positions[i].instrument);
    }
  }

  /** Recording a fill together with the position it leads to. */
  lemma {:induction false} RecordKeepsBalance(l: Ledger, fill: Fill, p: Position, l': Ledger)
    requires Balanced(l) && p.instrument == fill.instrument && Accounts(p, l.fills + [fill])
    requires l'.positions == Put(l.positions, p) && l'.fills == l.fills + [fill]
    requires l'.initialCash == l.initialCash && l'.fundingRecords == l.fundingRecords
    requires l'.cash == l.cash + p.realized - Find(l.positions, fill.instrument).realized - fill.fee
    ensures Balanced(l')
  {
    FillKeepsOtherAccounts(l, fill);
    PutKeepsAccounts(l.positions, l'.fills, p);
    PutTotal(l.positions, p, RealizedOf);
    SumsOfAppendedFill(l.fills, fill, fill.instrument);
  }

  lemma {:induction false} ProtectionKeepsAccounts(p: Position, fills: seq<Fill>, stopLoss: Option<real>, takeProfit: Option<real>)
    requires Accounts(p, fills)
    ensures Accounts(p.(stopLoss := stopLoss, takeProfit := takeProfit), fills)
  {
    var q := p.(stopLoss := stopLoss, takeProfit := takeProfit);
    assert forall m :: q.ValueAt(m) == p.ValueAt(m);
  }

  /** A successful fill keeps the books balanced. */
  lemma {:induction false} ApplyFillKeepsBalance(l: Ledger, fill: Fill, reduceOnly: bool, stopLoss: Option<real>, takeProfit: Option<real>)
    requires Balanced(l) && fill.price > 0.0
    requires ApplyFill(l, fill, reduceOnly, stopLoss, takeProfit).Success?
    ensures Balanced(ApplyFill(l, fill, reduceOnly, stopLoss, takeProfit).value)
  {
    var q := Find(l.positions, fill.instrument);
    var filled := FillPosition(q, fill);
    FindAccounts(l, fill.instrument);
    FillKeepsAccounts(q, l.fills, fill);
    ProtectionKeepsAccounts(filled, l.fills + [fill], stopLoss, takeProfit);
    var p := if filled.IsOpen() && (stopLoss.Some? || takeProfit.Some?)
             then filled.(stopLoss := stopLoss, takeProfit := takeProfit) else filled;
    RecordKeepsBalance(l, fill, p, ApplyFill(l, fill, reduceOnly, stopLoss, takeProfit).value);
  }

  /** Replacing a position by one with the same quantity, entry price and realized profit. */
  lemma {:induction false} RestateKeepsBalance(l: Ledger, p: Position, l': Ledger)
    requires Balanced(l)
    requires var q := Find(l.positions, p.instrument);
             q.quantity == p.quantity && q.averageEntry == p.averageEntry && q.realized == p.realized
    requires p.IsOpen() ==> p.mark > 0.0
    requires l'.positions == Put(l.positions, p) && l'.fills == l.fills && l'.initialCash == l.initialCash
    requires l'.cash - FundingTotal(l'.fundingRecords) == l.cash - FundingTotal(l.fundingRecords)
    ensures Balanced(l')
  {
    var q := Find(l.positions, p.instrument);
    FindAccounts(l, p.instrument);
    assert Accounts(p, l.fills) by {
      assert forall m :: p.ValueAt(m) == q.ValueAt(m);
    }
    PutKeepsAccounts(l.positions, l.fills, p);
    PutTotal(l.positions, p, RealizedOf);
  }

  /** Marking keeps the books balanced ... */
  lemma {:induction false} MarkKeepsBalance(l: Ledger, snapshot: MarketSnapshot)
    requires Balanced(l)
    ensures Balanced(Mark(l, snapshot))
  {
    var p := Find(l.positions, snapshot.instrument);
    if p.IsOpen() {
      RestateKeepsBalance(l, p.(mark := snapshot.ValuationPrice(), updatedAt := Some(snapshot.timestamp)), Mark(l, snapshot));
    }
  }

  /** ... funding does, because it moves cash and its own record by the same amount ... */
  lemma {:induction false} FundingKeepsBalance(l: Ledger, instrument: Instrument, timestamp: int, rate: real, mark: real)
    requires Balanced(l) && mark > 0.0
    ensures Balanced(ApplyFunding(l, instrument, timestamp, rate, mark))
  {
    var q, l' := Find(l.positions, instrument), ApplyFunding(l, instrument, timestamp, rate, mark);
    var amount := FundingAmount(q.quantity, rate, mark);
    if q.IsOpen() {
      FindAccounts(l, instrument);
      assert l'.fundingRecords[..|l.fundingRecords|] == l.fundingRecords;
      RestateKeepsBalance(l, q.(funding := q.funding + amount), l');
    }
  }

  /** ... and so does capturing a snapshot. */
  lemma {:induction false} CaptureKeepsBalance(l: Ledger, timestamp: int)
    requires Balanced(l)
    ensures Balanced(Capture(l, timestamp))
  {
    assert Capture(l, timestamp) == l.(snapshots := Capture(l, timestamp).snapshots);
  }

  /** Value of the fills, position by position at the position's mark. */
  ghost function ValueByPosition(ps: seq<Position>, fills: seq<Fill>): real {
    if ps == [] then 0.0
    else
      var p := ps[|ps| - 1];
      ValueByPosition(ps[..|ps| - 1], fills) + FillValue(fills, p.instrument, p.mark)
  }

  lemma {:induction false} FillCountsOnce(ps: seq<Position>, fills: seq<Fill>)
    requires fills != [] && Distinct(ps)
    ensures var f := fills[|fills| - 1];
            ValueByPosition(ps, fills) == ValueByPosition(ps, fills[..|fills| - 1])
              + if IndexOf(ps, f.instrument) < |ps| then f.Delta() * (Find(ps, f.instrument).mark - f.price) else 0.0
  {
    if ps != [] {
      var n, f := |ps| - 1, fills[|fills| - 1];
      FillCountsOnce(ps[..n], fills);
      if IndexOf(ps[..n], f.instrument) < n {
        assert ps[n].instrument != f.instrument;
      }
    }
  }

  lemma {:induction false} NoFillsByPosition(ps: seq<Position>)
    ensures ValueByPosition(ps, []) == 0.0
  {
    if ps != [] {
      NoFillsByPosition(ps[..|ps| - 1]);
    }
  }

  lemma {:induction false} ValueByPositionIsTradingValue(ps: seq<Position>, fills: seq<Fill>)
    requires Distinct(ps) && Covered(fills, ps)
    ensures ValueByPosition(ps, fills) == TradingValue(fills, ps)
  {
    if fills == [] {
      NoFillsByPosition(ps);
    } else {
      FillCountsOnce(ps, fills);
      assert IndexOf(ps, fills[|fills| - 1].instrument) < |ps|;
      ValueByPositionIsTradingValue(ps, fills[..|fills| - 1]);
    }
  }

  lemma {:induction false} ProfitByPosition(ps: seq<Position>, fills: seq<Fill>)
    requires forall i :: 0 <= i < |ps| ==> Accounts(ps[i], fills)
    ensures Total(ps, RealizedOf) + Total(ps, UnrealizedOf) == ValueByPosition(ps, fills)
  {
    if ps != [] {
      var p := ps[|ps| - 1];
      ProfitByPosition(ps[..|ps| - 1], fills);
      assert p.ValueAt(p.mark) == FillValue(fills, p.instrument, p.mark);
      assert !p.IsOpen() ==> p.quantity * (p.mark - p.averageEntry) == 0.0;
    }
  }

  /**
   Conservation of the ledger: equity is the initial cash plus every fill valued against the
   current mark of its instrument, minus fees, plus funding.
   */
  lemma {:induction false} EquityIdentity(l: Ledger)
    requires Balanced(l)
    ensures l.Equity() == l.initialCash + TradingValue(l.fills, l.positions)
                          - Fees(l.fills) + FundingTotal(l.fundingRecords)
  {
    ProfitByPosition(l.positions, l.fills);
    ValueByPositionIsTradingValue(l.positions, l.fills);
  }

  /** The position reached by a whole sequence of fills of one instrument. */
  function PositionAfter(instrument: Instrument, fills: seq<Fill>): Position {
    if fills == [] then EmptyPosition(instrument)
    else FillPosition(PositionAfter(instrument, fills[..|fills| - 1]), fills[|fills| - 1])
  }

  /**
   For every sequence of opens, adds, closes and reversals and every valuation price: realized
   plus unrealized profit is the sum of signed quantity times (valuation price - fill price).
   */
  lemma {:induction false} PositionIsItsFills(instrument: Instrument, fills: seq<Fill>)
    requires forall i :: 0 <= i < |fills| ==> fills[i].instrument == instrument && fills[i].price > 0.0
    ensures PositionAfter(instrument, fills).instrument == instrument
    ensures Accounts(PositionAfter(instrument, fills), fills)
  {
    if fills != [] {
      var n := |fills| - 1;
      PositionIsItsFills(instrument, fills[..n]);
      FillKeepsAccounts(PositionAfter(instrument, fills[..n]), fills[..n], fills[n]);
      assert fills[..n] + [fills[n]] == fills;
    }
  }
}

/**
 The ledger object. Each method updates its fields in place and is proved equal to the function
 of the same name on ledger values.
 */
module PortfolioObjects {
  import opened Common
  import opened Execution
  import opened Portfolio

  /** The positions with an entry for the instrument. */
  function WithEntry(ps: seq<Position>, instrument: Instrument): seq<Position> {
    if IndexOf(ps, instrument) < |ps| then ps else ps + [EmptyPosition(instrument)]
  }

  /** Creating the entry of a new instrument changes neither lookups nor later updates. */
  lemma {:induction false} EntryIsInvisible(ps: seq<Position>, p: Position)
    ensures Find(WithEntry(ps, p.instrument), p.instrument) == Find(ps, p.instrument)
    ensures Put(WithEntry(ps, p.instrument), p) == Put(ps, p)
  {
    if IndexOf(ps, p.instrument) == |ps| {
      var entry := EmptyPosition(p.instrument);
      assert (ps + [entry])[..|ps|] == ps;
      assert (ps + [entry])[|ps| := p] == ps + [p];
    }
  }

  class PortfolioLedger {
    const initialCash: real
    const leverage: real
    const rules: Rulebook
    var cash: real
    var positions: seq<Position>
    var fills: seq<Fill>
    var fundingRecords: seq<FundingRecord>
    var snapshots: seq<PortfolioSnapshot>
    var processed: set<nat>

    predicate Valid() {
      initialCash > 0.0 && leverage > 0.0
    }

    function State(): Ledger
      requires Valid()
      reads this
    {
      Ledger(initialCash, leverage, rules, cash, positions, fills, fundingRecords, snapshots, processed)
    }

    constructor (initialCash: real, leverage: real, rules: Rulebook)
      requires initialCash > 0.0 && leverage > 0.0
      ensures Valid() && State() == NewLedger(initialCash, leverage, rules)
    {
      this.initialCash, this.leverage, this.rules := initialCash, leverage, rules;
      cash, positions, fills, fundingRecords, snapshots, processed := initialCash, [], [], [], [], {};
    }

    /** The position of an instrument, created empty when missing. */
    method Position(instrument: Instrument) returns (position: Portfolio.Position)
      requires Valid()
      modifies this`positions
      ensures positions == WithEntry(old(positions), instrument) && position == Find(old(positions), instrument)
    {
      EntryIsInvisible(positions, EmptyPosition(instrument));
      if IndexOf(positions, instrument) == |positions| {
        positions := positions + [EmptyPosition(instrument)];
      }
      position := Find(positions, instrument);
    }

    /** A rejected fill leaves the accounting as it was, up to an empty position entry. */
    method ApplyFill(fill: Fill, reduceOnly: bool, stopLoss: Option<real>, takeProfit: Option<real>)
      returns (realized: Result<real, Error>)
      requires Valid()
      modifies this
      ensures var spec := Portfolio.ApplyFill(old(State()), fill, reduceOnly, stopLoss, takeProfit);
              if spec.Success?
              then State() == spec.value && realized == Success(RealizedBy(Find(old(positions), fill.instrument), fill))
              else && realized == Failure(spec.error)
                   && State() == old(State()).(positions := if spec.error.DuplicateFill? then old(positions)
                                                            else WithEntry(old(positions), fill.instrument))
    {
      if fill.fillId in processed {
        return Failure(DuplicateFill);
      }
      var position := Position(fill.instrument);
      // Validated on a copy first: invalid parameters must not leave partial accounting.
      var candidate := Candidate(position, fill, reduceOnly, stopLoss, takeProfit);
      if candidate.Failure? {
        return Failure(candidate.error);
      }
      realized := Success(RealizedBy(position, fill));
      EntryIsInvisible(old(positions), candidate.value);
      Record(candidate.value, realized.value, fill);
    }

    method Record(position: Portfolio.Position, realized: real, fill: Fill)
      requires Valid()
      modifies this
      ensures State() == old(State()).(cash := old(cash) + realized - fill.fee, positions := Put(old(positions), position),
                                       fills := old(fills) + [fill], processed := old(processed) + {fill.fillId})
    {
      positions := Put(positions, position);
      cash := cash + realized - fill.fee;
      processed := processed + {fill.fillId};
      fills := fills + [fill];
    }

    method Mark(snapshot: MarketSnapshot)
      requires Valid()
      modifies this
      ensures State() == Portfolio.Mark(old(State()), snapshot)
    {
      var index := IndexOf(positions, snapshot.instrument);
      if index < |positions| && positions[index].IsOpen() {
        positions := positions[index := positions[index].(mark := snapshot.ValuationPrice(), updatedAt := Some(snapshot.timestamp))];
      }
    }

    method ApplyFunding(instrument: Instrument, timestamp: int, rate: real, mark: real)
      requires Valid() && mark > 0.0
      modifies this
      ensures State() == Portfolio.ApplyFunding(old(State()), instrument, timestamp, rate, mark)
    {
      var index := IndexOf(positions, instrument);
      if index < |positions| && positions[index].IsOpen() {
        var position := positions[index];
        var amount := FundingAmount(position.quantity, rate, mark);
        cash := cash + amount;
        positions := positions[index := position.(funding := position.funding + amount)];
        fundingRecords := fundingRecords + [FundingRecord(instrument, timestamp, rate, mark, position.quantity, amount)];
      }
    }

    method Capture(timestamp: int)
      requires Valid()
      modifies this
      ensures State() == Portfolio.Capture(old(State()), timestamp)
    {
      var s := State();
      snapshots := snapshots + [PortfolioSnapshot(
        timestamp, cash, s.Equity(), s.UnrealizedPnl(), s.GrossExposure(), s.NetExposure(),
        s.MarginUsed(), s.MaintenanceMargin(), s.AvailableMargin())];
    }
  }
}

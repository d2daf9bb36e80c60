/** Position sizing under risk and exposure caps. */
module Sizing {
  import opened Common

  datatype SizingMethod = ConservativeMinimum | FixedFractional | VolatilityTargeting | AtrBased | MaximumLoss

  datatype RiskLimits_ = RiskLimits(
    maximumLeverage: real,
    maximumRiskPerTrade: real,
    maximumGrossExposure: real,
    maximumSymbolExposure: real,
    maximumExchangeExposure: real,
    annualVolatilityTarget: real,
    atrMultiple: real,
    maximumLossFloorFraction: real,
    method_: SizingMethod)
  {
    predicate Valid() {
      && 0.0 < maximumLeverage <= 1.0 && 0.0 < maximumRiskPerTrade <= 0.01
      && 0.0 < maximumGrossExposure <= 1.0
      && 0.0 < maximumSymbolExposure <= maximumGrossExposure
      && 0.0 < maximumExchangeExposure <= maximumGrossExposure
      && 0.0 < annualVolatilityTarget <= 0.5 && 1.0 <= atrMultiple <= 10.0 && 0.0 < maximumLossFloorFraction <= 0.1
    }
  }

  type RiskLimits = l: RiskLimits_ | l.Valid()
    witness RiskLimits(1.0, 0.01, 1.0, 1.0, 1.0, 0.1, 2.0, 0.01, ConservativeMinimum)

  datatype SignalSide = Buy | Sell | Flat

  datatype Signal_ = Signal(side: SignalSide, symbol: string, exchange: Option<string>, strength: real, confidence: real, suggestedRiskFraction: real) {
    predicate Valid() {
      0.0 <= strength <= 1.0 && 0.0 <= confidence <= 1.0 && 0.0 < suggestedRiskFraction <= 0.01
    }
  }

  type Signal = s: Signal_ | s.Valid() witness Signal(Flat, "", None, 0.0, 0.0, 0.01)

  datatype RiskState_ = RiskState(equity: real, grossExposure: real, symbolExposures: map<string, real>, exchangeExposures: map<string, real>)

  type RiskState = s: RiskState_ | s.equity > 0.0 && s.grossExposure >= 0.0 witness RiskState(1.0, 0.0, map[], map[])

  /** One sizing request. */
  datatype Input = Input(
    signal: Signal, entry: real, stop: Option<real>, atr: Option<real>, volatility: Option<real>, lotSize: Option<real>,
    minimumNotional: Option<real>)

  datatype Constraint = Fixed | Loss | Atr | Volatility | Gross | Leverage | Symbol | Exchange {
    predicate IsExposure() {
      Gross? || Leverage? || Symbol? || Exchange?
    }
  }

  datatype Candidate = Candidate(name: Constraint, notional: real)

  datatype Outcome =
    | Accepted(quantity: real, notional: real, riskAmount: real, binding: Constraint)
    | Rejected(riskAmount: real)
    | MissingInput

  // ---------- The sizing rule ----------

  function Exposure(exposures: map<string, real>, key: string): real {
    if key in exposures then exposures[key] else 0.0
  }

  function ExchangeKey(signal: Signal): string {
    signal.exchange.GetOr("")
  }

  function Times(a: real, b: real): real {
    a * b
  }

  function Over(a: real, b: real): real
    requires b != 0.0
  {
    a / b
  }

  predicate Refused(i: Input) {
    || i.entry <= 0.0
    || i.stop.None? || i.stop.value <= 0.0 || i.stop.value == i.entry
    || (i.signal.side.Buy? && i.stop.value >= i.entry)
    || (i.signal.side.Sell? && i.stop.value <= i.entry)
    || (i.lotSize.Some? && i.lotSize.value <= 0.0)
    || (i.minimumNotional.Some? && i.minimumNotional.value < 0.0)
    || (i.atr.Some? && i.atr.value <= 0.0)
    || (i.volatility.Some? && i.volatility.value <= 0.0)
  }

  function RiskAmount(limits: RiskLimits, state: RiskState, signal: Signal): real {
    Times(Times(state.equity, Min(signal.suggestedRiskFraction, limits.maximumRiskPerTrade)), Min(signal.strength, signal.confidence))
  }

  function StopFraction(i: Input): (r: real)
    requires !Refused(i)
    ensures r > 0.0
  {
    Over(Abs(i.entry - i.stop.value), i.entry)
  }

  /** Room under an exposure cap. */
  function Room(equity: real, fraction: real, used: real): real {
    Max(Times(equity, fraction) - used, 0.0)
  }

  function ExposureCandidates(limits: RiskLimits, state: RiskState, signal: Signal): seq<Candidate> {
    [Candidate(Gross, Room(state.equity, limits.maximumGrossExposure, state.grossExposure)),
     Candidate(Leverage, Room(state.equity, limits.maximumLeverage, state.grossExposure)),
     Candidate(Symbol, Room(state.equity, limits.maximumSymbolExposure, Exposure(state.symbolExposures, signal.symbol))),
     Candidate(Exchange, Room(state.equity, limits.maximumExchangeExposure, Exposure(state.exchangeExposures, ExchangeKey(signal))))]
  }

  function FixedCandidate(limits: RiskLimits, state: RiskState, i: Input): Candidate
    requires !Refused(i)
  {
    Candidate(Fixed, Over(RiskAmount(limits, state, i.signal), StopFraction(i)))
  }

  function LossCandidate(limits: RiskLimits, state: RiskState, i: Input): Candidate
    requires !Refused(i)
  {
    Candidate(Loss, Over(RiskAmount(limits, state, i.signal), Max(StopFraction(i), limits.maximumLossFloorFraction)))
  }

  function AtrCandidate(limits: RiskLimits, state: RiskState, i: Input): Candidate
    requires !Refused(i) && i.atr.Some?
  {
    assert Times(limits.atrMultiple, i.atr.value) > 0.0;
    assert Over(Times(limits.atrMultiple, i.atr.value), i.entry) > 0.0;
    Candidate(Atr, Over(RiskAmount(limits, state, i.signal), Over(Times(limits.atrMultiple, i.atr.value), i.entry)))
  }

  function VolatilityCandidate(limits: RiskLimits, state: RiskState, i: Input): Candidate
    requires !Refused(i) && i.volatility.Some?
  {
    Candidate(Volatility, Over(Times(state.equity, limits.annualVolatilityTarget), i.volatility.value))
  }

  /** The candidates that the sizing method takes the minimum of; `None` when its own input is missing. */
  function Choose(sizing: SizingMethod, fixed: Candidate, loss: Candidate, atr: Option<Candidate>,
                  volatility: Option<Candidate>, exposures: seq<Candidate>): Option<seq<Candidate>>
  {
    match sizing
    case ConservativeMinimum =>
      Some([fixed, loss] + (if atr.Some? then [atr.value] else [])
           + (if volatility.Some? then [volatility.value] else []) + exposures)
    case FixedFractional => Some([fixed] + exposures)
    case MaximumLoss => Some([loss] + exposures)
    case AtrBased => if atr.Some? then Some([atr.value] + exposures) else None
    case VolatilityTargeting => if volatility.Some? then Some([volatility.value] + exposures) else None
  }

  function Selected(limits: RiskLimits, state: RiskState, i: Input): Option<seq<Candidate>>
    requires !Refused(i)
  {
    Choose(limits.method_, FixedCandidate(limits, state, i), LossCandidate(limits, state, i),
           if i.atr.Some? then Some(AtrCandidate(limits, state, i)) else None,
           if i.volatility.Some? then Some(VolatilityCandidate(limits, state, i)) else None,
           ExposureCandidates(limits, state, i.signal))
  }

  /** The first of the smallest candidates. */
  function Least(candidates: seq<Candidate>): (r: Candidate)
    requires candidates != []
    ensures r in candidates && forall c :: c in candidates ==> r.notional <= c.notional
  {
    if |candidates| == 1 then candidates[0]
    else
      var n := |candidates| - 1;
      var before := Least(candidates[..n]);
      assert candidates == candidates[..n] + [candidates[n]];
      if candidates[n].notional < before.notional then candidates[n] else before
  }

  /** Quantity for a notional, in whole lots when there is a lot size. */
  function QuantityFor(notional: real, entry: real, lotSize: Option<real>): real
    requires entry > 0.0 && (lotSize.Some? ==> lotSize.value > 0.0)
  {
    var quantity := Over(notional, entry);
    if lotSize.None? then quantity else Times(Over(quantity, lotSize.value).Floor as real, lotSize.value)
  }

  function Size(limits: RiskLimits, state: RiskState, i: Input): Outcome {
    if Refused(i) then Rejected(0.0)
    else
      var risk := RiskAmount(limits, state, i.signal);
      var selected := Selected(limits, state, i);
      if selected.None? then MissingInput
      else
        var least := Least(selected.value);
        if least.notional <= 0.0 || risk <= 0.0 then Rejected(risk)
        else
          var quantity := QuantityFor(least.notional, i.entry, i.lotSize);
          var notional := Times(quantity, i.entry);
          if quantity <= 0.0 || (i.minimumNotional.Some? && notional < i.minimumNotional.value) then Rejected(risk)
          else Accepted(quantity, notional, risk, least.name)
  }

  method SelectCandidates(sizing: SizingMethod, fixed: Candidate, loss: Candidate, atr: Option<Candidate>,
                          volatility: Option<Candidate>, exposures: seq<Candidate>)
    returns (selected: Option<seq<Candidate>>)
    ensures selected == Choose(sizing, fixed, loss, atr, volatility, exposures)
  {
    if sizing == ConservativeMinimum {
      var candidates := [fixed, loss];
      assert candidates + [] == candidates;
      if atr.Some? {
        candidates := candidates + [atr.value];
      }
      assert candidates + [] == candidates;
      if volatility.Some? {
        candidates := candidates + [volatility.value];
      }
      return Some(candidates + exposures);
    }
    var own := match sizing
      case FixedFractional => Some(fixed)
      case MaximumLoss => Some(loss)
      case AtrBased => atr
      case _ => volatility;
    if own.None? {
      return None;
    }
    return Some([own.value] + exposures);
  }

  method LeastOf(candidates: seq<Candidate>) returns (least: Candidate)
    requires candidates != []
    ensures least == Least(candidates)
  {
    least := candidates[0];
    for k := 1 to |candidates|
      invariant least == Least(candidates[..k])
    {
      assert candidates[..k + 1][..k] == candidates[..k];
      if candidates[k].notional < least.notional {
        least := candidates[k];
      }
    }
    assert candidates[..|candidates|] == candidates;
  }

  method ComputeSize(limits: RiskLimits, state: RiskState, i: Input) returns (r: Outcome)
    ensures r == Size(limits, state, i)
  {
    if Refused(i) {
      return Rejected(0.0);
    }
    var risk := RiskAmount(limits, state, i.signal);
    var atr := if i.atr.Some? then Some(AtrCandidate(limits, state, i)) else None;
    var volatility := if i.volatility.Some? then Some(VolatilityCandidate(limits, state, i)) else None;
    var selected := SelectCandidates(limits.method_, FixedCandidate(limits, state, i),
                                     LossCandidate(limits, state, i), atr, volatility,
                                     ExposureCandidates(limits, state, i.signal));
    if selected.None? {
      return MissingInput;
    }
    var least := LeastOf(selected.value);
    if least.notional <= 0.0 || risk <= 0.0 {
      return Rejected(risk);
    }
    var quantity := QuantityFor(least.notional, i.entry, i.lotSize);
    var notional := Times(quantity, i.entry);
    if quantity <= 0.0 || (i.minimumNotional.Some? && notional < i.minimumNotional.value) {
      return Rejected(risk);
    }
    return Accepted(quantity, notional, risk, least.name);
  }

  // ---------- Caps ----------

  lemma {:induction false} OverTimes(a: real, b: real)
    requires b > 0.0
    ensures Times(Over(a, b), b) == a
  {
  }

  lemma {:induction false} TimesGrows(a: real, b: real, c: real)
    requires c > 0.0
    ensures a <= b ==> Times(a, c) <= Times(b, c)
  {
    MulLess(a, b, c);
  }

  /** Lot rounding never raises the notional. */
  lemma {:induction false} RoundingNeverRaises(notional: real, entry: real, lotSize: Option<real>)
    requires entry > 0.0 && (lotSize.Some? ==> lotSize.value > 0.0)
    ensures Times(QuantityFor(notional, entry, lotSize), entry) <= notional
  {
    var quantity := Over(notional, entry);
    OverTimes(notional, entry);
    if lotSize.Some? {
      var lots := Over(quantity, lotSize.value);
      OverTimes(quantity, lotSize.value);
      TimesGrows(lots.Floor as real, lots, lotSize.value);
      TimesGrows(QuantityFor(notional, entry, lotSize), quantity, entry);
    }
  }

  /** An accepted size is within every selected candidate. */
  lemma {:induction false} WithinCandidate(limits: RiskLimits, state: RiskState, i: Input, c: Candidate)
    requires Size(limits, state, i).Accepted? && c in Selected(limits, state, i).value
    ensures Size(limits, state, i).notional <= c.notional && 0.0 < c.notional
  {
    var least := Least(Selected(limits, state, i).value);
    RoundingNeverRaises(least.notional, i.entry, i.lotSize);
  }

  /** Whatever the sizing method, the exposure candidates are among those it takes the minimum of. */
  lemma {:induction false} ExposuresAreChosen(sizing: SizingMethod, fixed: Candidate, loss: Candidate, atr: Option<Candidate>,
                                              volatility: Option<Candidate>, exposures: seq<Candidate>, k: nat)
    requires k < |exposures| && Choose(sizing, fixed, loss, atr, volatility, exposures).Some?
    ensures exposures[k] in Choose(sizing, fixed, loss, atr, volatility, exposures).value
  {
    var all := Choose(sizing, fixed, loss, atr, volatility, exposures).value;
    assert all[|all| - |exposures| + k] == exposures[k];
  }

  lemma {:induction false} ExposuresAreSelected(limits: RiskLimits, state: RiskState, i: Input, k: nat)
    requires !Refused(i) && Selected(limits, state, i).Some? && k < 4
    ensures ExposureCandidates(limits, state, i.signal)[k] in Selected(limits, state, i).value
  {
    ExposuresAreChosen(limits.method_, FixedCandidate(limits, state, i), LossCandidate(limits, state, i),
                       if i.atr.Some? then Some(AtrCandidate(limits, state, i)) else None,
                       if i.volatility.Some? then Some(VolatilityCandidate(limits, state, i)) else None,
                       ExposureCandidates(limits, state, i.signal), k);
  }

  /** Every sizing method leaves room under the gross, leverage, symbol and exchange caps. */
  lemma {:induction false} AcceptedFitsCaps(limits: RiskLimits, state: RiskState, i: Input)
    requires Size(limits, state, i).Accepted?
    ensures var n := Size(limits, state, i).notional;
            && state.grossExposure + n <= Times(state.equity, limits.maximumGrossExposure)
            && state.grossExposure + n <= Times(state.equity, limits.maximumLeverage)
            && Exposure(state.symbolExposures, i.signal.symbol) + n <= Times(state.equity, limits.maximumSymbolExposure)
            && Exposure(state.exchangeExposures, ExchangeKey(i.signal)) + n <= Times(state.equity, limits.maximumExchangeExposure)
  {
    var exposures := ExposureCandidates(limits, state, i.signal);
    forall k: nat | k < 4
      ensures Size(limits, state, i).notional <= exposures[k].notional && 0.0 < exposures[k].notional
    {
      ExposuresAreSelected(limits, state, i, k);
      WithinCandidate(limits, state, i, exposures[k]);
    }
    assert exposures[0].notional > 0.0 && exposures[1].notional > 0.0 && exposures[2].notional > 0.0 && exposures[3].notional > 0.0;
  }

  predicate CapsHold(limits: RiskLimits, state: RiskState) {
    && state.grossExposure <= Times(state.equity, limits.maximumGrossExposure)
    && state.grossExposure <= Times(state.equity, limits.maximumLeverage)
    && (forall s :: s in state.symbolExposures ==> state.symbolExposures[s] <= Times(state.equity, limits.maximumSymbolExposure))
    && (forall x :: x in state.exchangeExposures ==> state.exchangeExposures[x] <= Times(state.equity, limits.maximumExchangeExposure))
  }

  /** The exposures after taking a sized position. */
  function Take(state: RiskState, signal: Signal, notional: real): RiskState
    requires notional >= 0.0
  {
    state.(grossExposure := state.grossExposure + notional,
           symbolExposures := state.symbolExposures[signal.symbol := Exposure(state.symbolExposures, signal.symbol) + notional],
           exchangeExposures := state.exchangeExposures[ExchangeKey(signal) := Exposure(state.exchangeExposures, ExchangeKey(signal)) + notional])
  }

  lemma {:induction false} AcceptedIsPositive(limits: RiskLimits, state: RiskState, i: Input)
    requires Size(limits, state, i).Accepted?
    ensures Size(limits, state, i).notional > 0.0
  {
    MulLess(0.0, Size(limits, state, i).quantity, i.entry);
  }

  function TakeAll(limits: RiskLimits, state: RiskState, inputs: seq<Input>): RiskState
    decreases |inputs|
  {
    if inputs == [] then state
    else
      var r := Size(limits, state, inputs[0]);
      if r.Accepted? then
        AcceptedIsPositive(limits, state, inputs[0]);
        TakeAll(limits, Take(state, inputs[0].signal, r.notional), inputs[1..])
      else TakeAll(limits, state, inputs[1..])
  }

  /** Over any sequence of sizings at fixed equity, every cap stays satisfied, whatever the method. */
  lemma {:induction false} CapsHoldOverRuns(limits: RiskLimits, state: RiskState, inputs: seq<Input>)
    requires CapsHold(limits, state)
    ensures CapsHold(limits, TakeAll(limits, state, inputs))
    decreases |inputs|
  {
    if inputs != [] {
      var r := Size(limits, state, inputs[0]);
      if r.Accepted? {
        AcceptedIsPositive(limits, state, inputs[0]);
        AcceptedFitsCaps(limits, state, inputs[0]);
        CapsHoldOverRuns(limits, Take(state, inputs[0].signal, r.notional), inputs[1..]);
      } else {
        CapsHoldOverRuns(limits, state, inputs[1..]);
      }
    }
  }

  // ---------- Loss at the stop ----------

  function LossAtStop(i: Input, quantity: real): real
    requires i.stop.Some?
  {
    Times(quantity, Abs(i.entry - i.stop.value))
  }

  lemma {:induction false} LossIsNotionalTimesFraction(i: Input, quantity: real)
    requires !Refused(i)
    ensures LossAtStop(i, quantity) == Times(Times(quantity, i.entry), StopFraction(i))
  {
    OverTimes(Abs(i.entry - i.stop.value), i.entry);
  }

  lemma {:induction false} FractionOfEquity(equity: real, fraction: real, limit: real, scale: real)
    requires equity > 0.0 && 0.0 <= fraction <= limit && 0.0 <= scale <= 1.0
    ensures Times(Times(equity, fraction), scale) <= Times(equity, limit)
  {
    var amount := Times(equity, fraction);
    MulLess(fraction, limit, equity);
    if amount > 0.0 {
      MulLess(scale, 1.0, amount);
    }
  }

  lemma {:induction false} LossWithinCandidate(notional: real, risk: real, fraction: real, divisor: real)
    requires fraction > 0.0 && divisor >= fraction && risk > 0.0 && notional <= Over(risk, divisor)
    ensures Times(notional, fraction) <= risk
  {
    var candidate := Over(risk, divisor);
    OverTimes(risk, divisor);
    assert candidate > 0.0;
    TimesGrows(notional, candidate, fraction);
    MulLess(fraction, divisor, candidate);
  }

  predicate BoundsLoss(m: SizingMethod) {
    m.ConservativeMinimum? || m.FixedFractional? || m.MaximumLoss?
  }

  /** With a loss-based method the loss at the stop stays within the risk per trade. */
  lemma {:induction false} LossIsBounded(limits: RiskLimits, state: RiskState, i: Input)
    requires Size(limits, state, i).Accepted? && BoundsLoss(limits.method_)
    ensures LossAtStop(i, Size(limits, state, i).quantity) <= Size(limits, state, i).riskAmount
    ensures Size(limits, state, i).riskAmount <= Times(state.equity, limits.maximumRiskPerTrade)
  {
    var r := Size(limits, state, i);
    var fraction := StopFraction(i);
    LossIsNotionalTimesFraction(i, r.quantity);
    FractionOfEquity(state.equity, Min(i.signal.suggestedRiskFraction, limits.maximumRiskPerTrade), limits.maximumRiskPerTrade,
                     Min(i.signal.strength, i.signal.confidence));
    if limits.method_.MaximumLoss? {
      assert Selected(limits, state, i).value[0] == LossCandidate(limits, state, i);
      WithinCandidate(limits, state, i, LossCandidate(limits, state, i));
      LossWithinCandidate(r.notional, r.riskAmount, fraction, Max(fraction, limits.maximumLossFloorFraction));
    } else {
      assert Selected(limits, state, i).value[0] == FixedCandidate(limits, state, i);
      WithinCandidate(limits, state, i, FixedCandidate(limits, state, i));
      LossWithinCandidate(r.notional, r.riskAmount, fraction, fraction);
    }
  }

  /** For every input the loss at the stop is within equity times the risk per trade. */
  ghost predicate LossAlwaysBounded(m: SizingMethod) {
    forall limits: RiskLimits, state: RiskState, i: Input {:trigger Size(limits, state, i)} ::
      limits.method_ == m && Size(limits, state, i).Accepted?
      ==> LossAtStop(i, Size(limits, state, i).quantity) <= Times(state.equity, limits.maximumRiskPerTrade)
  }

  /** A wide stop next to a small ATR and a small volatility, with room for the whole equity. */
  predicate WideStop(limits: RiskLimits, state: RiskState, i: Input) {
    && limits.maximumRiskPerTrade == 0.01 && limits.annualVolatilityTarget == 0.5 && limits.atrMultiple == 1.0
    && limits.maximumGrossExposure == limits.maximumLeverage == 1.0
    && limits.maximumSymbolExposure == limits.maximumExchangeExposure == 1.0
    && state.equity == 1.0 && state.grossExposure == 0.0 && state.symbolExposures == state.exchangeExposures == map[]
    && i.signal.side.Buy? && i.signal.strength == i.signal.confidence == 1.0 && i.signal.suggestedRiskFraction == 0.01
    && i.entry == 100.0 && i.stop == Some(1.0) && i.atr == Some(1.0) && i.volatility == Some(0.5)
    && i.lotSize.None? && i.minimumNotional.None?
  }

  lemma {:induction false} OverIs(a: real, b: real, c: real)
    requires b > 0.0 && Times(c, b) == a
    ensures Over(a, b) == c
  {
    OverTimes(a, b);
    var d := Over(a, b);
    if d < c {
      MulLess(d, c, b);
    }
    if c < d {
      MulLess(c, d, b);
    }
  }

  lemma {:induction false} TimesOne(a: real)
    ensures Times(1.0, a) == a && Times(a, 1.0) == a
  {
  }

  lemma {:induction false} WideRisk(limits: RiskLimits, state: RiskState, i: Input)
    requires WideStop(limits, state, i)
    ensures !Refused(i) && RiskAmount(limits, state, i.signal) == 0.01
    ensures Times(state.equity, limits.maximumRiskPerTrade) == 0.01
  {
    TimesOne(0.01);
    TimesOne(Times(1.0, 0.01));
  }

  lemma {:induction false} WideFraction(limits: RiskLimits, state: RiskState, i: Input)
    requires WideStop(limits, state, i)
    ensures !Refused(i) && StopFraction(i) == 0.99
  {
    assert Abs(i.entry - i.stop.value) == 99.0;
    OverIs(99.0, 100.0, 0.99);
  }

  lemma {:induction false} WideAtr(limits: RiskLimits, state: RiskState, i: Input)
    requires WideStop(limits, state, i)
    ensures !Refused(i) && AtrCandidate(limits, state, i).notional == 1.0
  {
    WideRisk(limits, state, i);
    TimesOne(1.0);
    OverIs(1.0, 100.0, 0.01);
    TimesOne(0.01);
    OverIs(0.01, 0.01, 1.0);
  }

  lemma {:induction false} WideVolatility(limits: RiskLimits, state: RiskState, i: Input)
    requires WideStop(limits, state, i)
    ensures !Refused(i) && VolatilityCandidate(limits, state, i).notional == 1.0
  {
    TimesOne(0.5);
    OverIs(0.5, 0.5, 1.0);
  }

  lemma {:induction false} WideExposures(limits: RiskLimits, state: RiskState, i: Input, c: Candidate)
    requires WideStop(limits, state, i) && c in ExposureCandidates(limits, state, i.signal)
    ensures c.notional == 1.0
  {
    TimesOne(1.0);
  }

  lemma {:induction false} OwnOrExposure(limits: RiskLimits, state: RiskState, i: Input, c: Candidate)
    requires !Refused(i) && i.atr.Some? && i.volatility.Some?
    requires limits.method_.AtrBased? || limits.method_.VolatilityTargeting?
    requires c in Selected(limits, state, i).value
    ensures c in ExposureCandidates(limits, state, i.signal)
            || c == if limits.method_.AtrBased? then AtrCandidate(limits, state, i) else VolatilityCandidate(limits, state, i)
  {
  }

  lemma {:induction false} WideCandidates(limits: RiskLimits, state: RiskState, i: Input, c: Candidate)
    requires WideStop(limits, state, i) && !Refused(i)
    requires limits.method_.AtrBased? || limits.method_.VolatilityTargeting?
    requires Selected(limits, state, i).Some? && c in Selected(limits, state, i).value
    ensures c.notional == 1.0
  {
    OwnOrExposure(limits, state, i, c);
    if c in ExposureCandidates(limits, state, i.signal) {
      WideExposures(limits, state, i, c);
    } else if limits.method_.AtrBased? {
      WideAtr(limits, state, i);
    } else {
      WideVolatility(limits, state, i);
    }
  }

  /** Without lots or minimum the size is the least candidate's notional over the entry price. */
  lemma {:induction false} PlainSize(limits: RiskLimits, state: RiskState, i: Input, n: real)
    requires !Refused(i) && i.lotSize.None? && i.minimumNotional.None? && RiskAmount(limits, state, i.signal) > 0.0
    requires Selected(limits, state, i).Some? && Least(Selected(limits, state, i).value).notional == n && n > 0.0
    ensures Size(limits, state, i).Accepted? && Size(limits, state, i).quantity == Over(n, i.entry)
  {
    OverTimes(n, i.entry);
    assert Over(n, i.entry) > 0.0;
  }

  /** Such a size loses its notional times the stop fraction. */
  lemma {:induction false} PlainLoss(i: Input, n: real, fraction: real)
    requires !Refused(i) && StopFraction(i) == fraction
    ensures LossAtStop(i, Over(n, i.entry)) == Times(n, fraction)
  {
    OverTimes(n, i.entry);
    LossIsNotionalTimesFraction(i, Over(n, i.entry));
  }

  lemma {:induction false} WideStopExceeds(limits: RiskLimits, state: RiskState, i: Input)
    requires WideStop(limits, state, i) && (limits.method_.AtrBased? || limits.method_.VolatilityTargeting?)
    ensures Size(limits, state, i).Accepted?
    ensures LossAtStop(i, Size(limits, state, i).quantity) > Times(state.equity, limits.maximumRiskPerTrade)
  {
    assert Size(limits, state, i).Accepted? && Size(limits, state, i).quantity == Over(1.0, i.entry) by {
      WideRisk(limits, state, i);
      WideCandidates(limits, state, i, Least(Selected(limits, state, i).value));
      PlainSize(limits, state, i, 1.0);
    }
    assert LossAtStop(i, Over(1.0, i.entry)) == 0.99 by {
      WideFraction(limits, state, i);
      PlainLoss(i, 1.0, 0.99);
      TimesOne(0.99);
    }
    WideRisk(limits, state, i);
  }

  /** There is such an input for every sizing method. */
  lemma {:induction false} WideStopExists(m: SizingMethod) returns (limits: RiskLimits, state: RiskState, i: Input)
    ensures WideStop(limits, state, i) && limits.method_ == m
  {
    limits := RiskLimits(1.0, 0.01, 1.0, 1.0, 1.0, 0.5, 1.0, 0.01, m);
    state := RiskState(1.0, 0.0, map[], map[]);
    i := Input(Signal(SignalSide.Buy, "S", None, 1.0, 1.0, 0.01), 100.0, Some(1.0), Some(1.0), Some(0.5), None, None);
  }

  /** The loss bound holds for all inputs exactly when the method is loss-based. */
  lemma {:induction false} LossAlwaysBoundedExactly(m: SizingMethod)
    ensures LossAlwaysBounded(m) <==> BoundsLoss(m)
  {
    if BoundsLoss(m) {
      forall limits: RiskLimits, state: RiskState, i: Input | limits.method_ == m && Size(limits, state, i).Accepted?
        ensures LossAtStop(i, Size(limits, state, i).quantity) <= Times(state.equity, limits.maximumRiskPerTrade)
      {
        LossIsBounded(limits, state, i);
      }
    } else {
      var limits, state, i := WideStopExists(m);
      WideStopExceeds(limits, state, i);
    }
  }
}

/** The size that a risk budget admits, without the candidates: the largest that fits every limit of the method. */
module SizingBudget {
  import opened Common
  import opened Sizing

  /** A request with a price, a stop on the losing side of it, and sensible lots, minimum, ATR and volatility. */
  predicate WellFormed(i: Input) {
    && i.entry > 0.0 && i.stop.Some? && i.stop.value > 0.0
    && (match i.signal.side
        case Buy => i.stop.value < i.entry
        case Sell => i.stop.value > i.entry
        case Flat => i.stop.value != i.entry)
    && (i.lotSize.Some? ==> i.lotSize.value > 0.0) && (i.minimumNotional.Some? ==> i.minimumNotional.value >= 0.0)
    && (i.atr.Some? ==> i.atr.value > 0.0) && (i.volatility.Some? ==> i.volatility.value > 0.0)
  }

  lemma {:induction false} RefusedExactly(i: Input)
    ensures Refused(i) <==> !WellFormed(i)
  {
  }

  /** Equity at risk: the smaller risk fraction, scaled by the weaker of strength and confidence. */
  function Budget(limits: RiskLimits, state: RiskState, signal: Signal): real {
    Times(Times(state.equity, Min(signal.suggestedRiskFraction, limits.maximumRiskPerTrade)), Min(signal.strength, signal.confidence))
  }

  /** The loss if the stop is hit is within the budget. */
  predicate StopFits(limits: RiskLimits, state: RiskState, i: Input, q: real)
    requires i.stop.Some?
  {
    Times(q, Abs(i.entry - i.stop.value)) <= Budget(limits, state, i.signal)
  }

  /** So is a loss of the floor fraction of the notional. */
  predicate FloorFits(limits: RiskLimits, state: RiskState, i: Input, q: real) {
    Times(Times(q, i.entry), limits.maximumLossFloorFraction) <= Budget(limits, state, i.signal)
  }

  /** A move of the configured multiple of the ATR is within the budget. */
  predicate AtrFits(limits: RiskLimits, state: RiskState, i: Input, q: real)
    requires i.atr.Some?
  {
    Times(q, Times(limits.atrMultiple, i.atr.value)) <= Budget(limits, state, i.signal)
  }

  /** The volatility of the position is within the target on equity. */
  predicate VolatilityFits(limits: RiskLimits, state: RiskState, i: Input, q: real)
    requires i.volatility.Some?
  {
    Times(Times(q, i.entry), i.volatility.value) <= Times(state.equity, limits.annualVolatilityTarget)
  }

  /** Gross, leverage, symbol and exchange exposure stay under their caps. */
  predicate ExposureFits(limits: RiskLimits, state: RiskState, i: Input, q: real) {
    var n := Times(q, i.entry);
    && state.grossExposure + n <= Times(state.equity, limits.maximumGrossExposure)
    && state.grossExposure + n <= Times(state.equity, limits.maximumLeverage)
    && (if i.signal.symbol in state.symbolExposures then state.symbolExposures[i.signal.symbol] else 0.0) + n
       <= Times(state.equity, limits.maximumSymbolExposure)
    && (if i.signal.exchange.GetOr("") in state.exchangeExposures then state.exchangeExposures[i.signal.exchange.GetOr("")] else 0.0) + n
       <= Times(state.equity, limits.maximumExchangeExposure)
  }

  /** The method's own input is there. */
  predicate HasInput(limits: RiskLimits, i: Input) {
    (limits.method_.AtrBased? ==> i.atr.Some?) && (limits.method_.VolatilityTargeting? ==> i.volatility.Some?)
  }

  /** The quantity fits what the method limits, and the exposure caps. */
  predicate Fits(limits: RiskLimits, state: RiskState, i: Input, q: real)
    requires i.stop.Some? && HasInput(limits, i)
  {
    && ExposureFits(limits, state, i, q)
    && match limits.method_
       case FixedFractional => StopFits(limits, state, i, q)
       case MaximumLoss => StopFits(limits, state, i, q) && FloorFits(limits, state, i, q)
       case AtrBased => AtrFits(limits, state, i, q)
       case VolatilityTargeting => VolatilityFits(limits, state, i, q)
       case ConservativeMinimum =>
         && StopFits(limits, state, i, q) && FloorFits(limits, state, i, q)
         && (i.atr.Some? ==> AtrFits(limits, state, i, q)) && (i.volatility.Some? ==> VolatilityFits(limits, state, i, q))
  }

  function Lots(k: int, lot: real): real {
    Times(k as real, lot)
  }

  /** A whole number of lots, when there is a lot size. */
  ghost predicate InLots(i: Input, q: real) {
    i.lotSize.Some? ==> exists k: int :: q == Lots(k, i.lotSize.value)
  }

  // ---------- Each candidate is one limit ----------

  lemma {:induction false} WithinOver(n: real, total: real, divisor: real)
    requires divisor > 0.0
    ensures n <= Over(total, divisor) <==> Times(n, divisor) <= total
  {
    var quotient := Over(total, divisor);
    OverTimes(total, divisor);
    if n < quotient {
      MulLess(n, quotient, divisor);
    } else if quotient < n {
      MulLess(quotient, n, divisor);
    }
  }

  lemma {:induction false} FixedIs(limits: RiskLimits, state: RiskState, i: Input, q: real)
    requires !Refused(i)
    ensures Times(q, i.entry) <= FixedCandidate(limits, state, i).notional <==> StopFits(limits, state, i, q)
  {
    WithinOver(Times(q, i.entry), Budget(limits, state, i.signal), StopFraction(i));
    LossIsNotionalTimesFraction(i, q);
  }

  lemma {:induction false} LossIs(limits: RiskLimits, state: RiskState, i: Input, q: real)
    requires !Refused(i) && q > 0.0
    ensures Times(q, i.entry) <= LossCandidate(limits, state, i).notional
            <==> StopFits(limits, state, i, q) && FloorFits(limits, state, i, q)
  {
    var n, f, floor := Times(q, i.entry), StopFraction(i), limits.maximumLossFloorFraction;
    MulLess(0.0, q, i.entry);
    WithinOver(n, Budget(limits, state, i.signal), Max(f, floor));
    LossIsNotionalTimesFraction(i, q);
    MulLess(f, floor, n);
    MulLess(floor, f, n);
  }

  lemma {:induction false} AtrIs(limits: RiskLimits, state: RiskState, i: Input, q: real)
    requires !Refused(i) && i.atr.Some?
    ensures Times(q, i.entry) <= AtrCandidate(limits, state, i).notional <==> AtrFits(limits, state, i, q)
  {
    var move := Times(limits.atrMultiple, i.atr.value);
    assert move > 0.0;
    var fraction := Over(move, i.entry);
    OverTimes(move, i.entry);
    assert fraction > 0.0;
    WithinOver(Times(q, i.entry), Budget(limits, state, i.signal), fraction);
    Associates(q, i.entry, fraction);
  }

  lemma {:induction false} Associates(a: real, b: real, c: real)
    ensures Times(Times(a, b), c) == Times(a, Times(c, b))
  {
  }

  lemma {:induction false} VolatilityIs(limits: RiskLimits, state: RiskState, i: Input, q: real)
    requires !Refused(i) && i.volatility.Some?
    ensures Times(q, i.entry) <= VolatilityCandidate(limits, state, i).notional <==> VolatilityFits(limits, state, i, q)
  {
    WithinOver(Times(q, i.entry), Times(state.equity, limits.annualVolatilityTarget), i.volatility.value);
  }

  lemma {:induction false} ExposuresAre(limits: RiskLimits, state: RiskState, i: Input, q: real)
    requires !Refused(i) && q > 0.0
    ensures (forall c :: c in ExposureCandidates(limits, state, i.signal) ==> Times(q, i.entry) <= c.notional)
            <==> ExposureFits(limits, state, i, q)
  {
    MulLess(0.0, q, i.entry);
    var all := ExposureCandidates(limits, state, i.signal);
    assert all[0] in all && all[1] in all && all[2] in all && all[3] in all;
  }

  // ---------- The selection is the method's limits ----------

  /** A notional is within every candidate of a choice exactly when it is within those that the method uses. */
  lemma {:induction false} WithinChoice(sizing: SizingMethod, fixed: Candidate, loss: Candidate, atr: Option<Candidate>,
                                        volatility: Option<Candidate>, exposures: seq<Candidate>, n: real)
    requires Choose(sizing, fixed, loss, atr, volatility, exposures).Some?
    ensures (forall c :: c in Choose(sizing, fixed, loss, atr, volatility, exposures).value ==> n <= c.notional) <==>
            && (forall c :: c in exposures ==> n <= c.notional)
            && match sizing
               case FixedFractional => n <= fixed.notional
               case MaximumLoss => n <= loss.notional
               case AtrBased => atr.Some? && n <= atr.value.notional
               case VolatilityTargeting => volatility.Some? && n <= volatility.value.notional
               case ConservativeMinimum =>
                 && n <= fixed.notional && n <= loss.notional
                 && (atr.Some? ==> n <= atr.value.notional) && (volatility.Some? ==> n <= volatility.value.notional)
  {
    var all := Choose(sizing, fixed, loss, atr, volatility, exposures).value;
    if sizing.ConservativeMinimum? {
      ConservativeHolds(fixed, loss, atr, volatility, exposures);
    } else {
      var own := if sizing.FixedFractional? then Some(fixed) else if sizing.MaximumLoss? then Some(loss)
                 else if sizing.AtrBased? then atr else volatility;
      assert all == [own.value] + exposures;
      assert forall c :: c in all <==> c == own.value || c in exposures;
    }
  }

  lemma {:induction false} ConservativeHolds(fixed: Candidate, loss: Candidate, atr: Option<Candidate>,
                                             volatility: Option<Candidate>, exposures: seq<Candidate>)
    ensures forall c :: c in Choose(ConservativeMinimum, fixed, loss, atr, volatility, exposures).value <==>
              c == fixed || c == loss || atr == Some(c) || volatility == Some(c) || c in exposures
  {
    var a, v := if atr.Some? then [atr.value] else [], if volatility.Some? then [volatility.value] else [];
    assert forall c :: c in a <==> atr == Some(c);
    assert forall c :: c in v <==> volatility == Some(c);
    assert Choose(ConservativeMinimum, fixed, loss, atr, volatility, exposures).value == [fixed, loss] + a + v + exposures;
  }

  lemma {:induction false} SelectionFits(limits: RiskLimits, state: RiskState, i: Input, q: real)
    requires !Refused(i) && HasInput(limits, i) && q > 0.0
    ensures Selected(limits, state, i).Some?
    ensures (forall c :: c in Selected(limits, state, i).value ==> Times(q, i.entry) <= c.notional) <==> Fits(limits, state, i, q)
  {
    var atr := if i.atr.Some? then Some(AtrCandidate(limits, state, i)) else None;
    var volatility := if i.volatility.Some? then Some(VolatilityCandidate(limits, state, i)) else None;
    WithinChoice(limits.method_, FixedCandidate(limits, state, i), LossCandidate(limits, state, i), atr, volatility,
                 ExposureCandidates(limits, state, i.signal), Times(q, i.entry));
    FixedIs(limits, state, i, q);
    LossIs(limits, state, i, q);
    ExposuresAre(limits, state, i, q);
    if i.atr.Some? {
      AtrIs(limits, state, i, q);
    }
    if i.volatility.Some? {
      VolatilityIs(limits, state, i, q);
    }
  }

  lemma {:induction false} LeastFits(limits: RiskLimits, state: RiskState, i: Input, q: real)
    requires !Refused(i) && HasInput(limits, i) && q > 0.0
    ensures Selected(limits, state, i).Some?
    ensures Times(q, i.entry) <= Least(Selected(limits, state, i).value).notional <==> Fits(limits, state, i, q)
  {
    SelectionFits(limits, state, i, q);
    var selected := Selected(limits, state, i).value;
    var least := Least(selected);
    assert least in selected;
  }

  // ---------- Lots ----------

  /** The quantity for a notional is the largest in lots whose worth is within it. */
  lemma {:induction false} QuantityIsLargest(n: real, i: Input, x: real)
    requires !Refused(i)
    ensures InLots(i, QuantityFor(n, i.entry, i.lotSize)) && Times(QuantityFor(n, i.entry, i.lotSize), i.entry) <= n
    ensures InLots(i, x) && Times(x, i.entry) <= n ==> x <= QuantityFor(n, i.entry, i.lotSize)
  {
    RoundingNeverRaises(n, i.entry, i.lotSize);
    WithinOver(x, n, i.entry);
    if i.lotSize.Some? {
      var lot := i.lotSize.value;
      var lots := Over(Over(n, i.entry), lot);
      assert QuantityFor(n, i.entry, i.lotSize) == Lots(lots.Floor, lot);
      if InLots(i, x) && Times(x, i.entry) <= n {
        var k: int :| x == Lots(k, lot);
        WithinOver(k as real, Over(n, i.entry), lot);
        assert k <= lots.Floor;
        TimesGrows(k as real, lots.Floor as real, lot);
      }
    }
  }

  // ---------- The size ----------

  /** A quantity that the request may have: positive, in lots, within every limit, and worth the minimum. */
  ghost predicate Possible(limits: RiskLimits, state: RiskState, i: Input, q: real)
    requires i.stop.Some? && HasInput(limits, i)
  {
    && q > 0.0 && InLots(i, q) && Fits(limits, state, i, q)
    && (i.minimumNotional.Some? ==> Times(q, i.entry) >= i.minimumNotional.value)
  }

  /** An accepted size is possible, and no other quantity in lots that fits is larger. */
  lemma {:induction false} SizeIsLargest(limits: RiskLimits, state: RiskState, i: Input, x: real)
    requires Size(limits, state, i).Accepted? && HasInput(limits, i)
    ensures WellFormed(i) && Possible(limits, state, i, Size(limits, state, i).quantity)
    ensures Size(limits, state, i).notional == Times(Size(limits, state, i).quantity, i.entry)
    ensures Size(limits, state, i).riskAmount == Budget(limits, state, i.signal)
    ensures x > 0.0 && InLots(i, x) && Fits(limits, state, i, x) ==> x <= Size(limits, state, i).quantity
  {
    var q := Size(limits, state, i).quantity;
    var n := Least(Selected(limits, state, i).value).notional;
    RefusedExactly(i);
    QuantityIsLargest(n, i, x);
    LeastFits(limits, state, i, q);
    if x > 0.0 {
      LeastFits(limits, state, i, x);
    }
  }

  lemma {:induction false} InputIsNeeded(limits: RiskLimits, state: RiskState, i: Input)
    requires !Refused(i)
    ensures Selected(limits, state, i).Some? <==> HasInput(limits, i)
    ensures Size(limits, state, i).MissingInput? <==> !HasInput(limits, i)
  {
  }

  /** A request is accepted if and only if it is well formed, has its input and a budget, and some quantity is possible. */
  lemma {:induction false} AcceptedExactly(limits: RiskLimits, state: RiskState, i: Input)
    ensures Size(limits, state, i).Accepted? <==>
            && WellFormed(i) && HasInput(limits, i) && Budget(limits, state, i.signal) > 0.0
            && exists q: real :: Possible(limits, state, i, q)
  {
    RefusedExactly(i);
    if !Refused(i) {
      InputIsNeeded(limits, state, i);
      if Size(limits, state, i).Accepted? {
        SizeIsLargest(limits, state, i, 0.0);
      } else if HasInput(limits, i) && Budget(limits, state, i.signal) > 0.0 {
        forall q: real ensures !Possible(limits, state, i, q) {
          if Possible(limits, state, i, q) {
            PossibleIsAccepted(limits, state, i, q);
          }
        }
      }
    }
  }

  lemma {:induction false} PossibleIsAccepted(limits: RiskLimits, state: RiskState, i: Input, q: real)
    requires !Refused(i) && HasInput(limits, i) && Budget(limits, state, i.signal) > 0.0 && Possible(limits, state, i, q)
    ensures Size(limits, state, i).Accepted?
  {
    LeastFits(limits, state, i, q);
    var n := Least(Selected(limits, state, i).value).notional;
    MulLess(0.0, q, i.entry);
    QuantityIsLargest(n, i, q);
    TimesGrows(q, QuantityFor(n, i.entry, i.lotSize), i.entry);
  }
}

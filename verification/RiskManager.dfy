/** Entry checks in front of the circuit breaker and the position sizer. */
module RiskManagement {
  import opened Common
  import opened Breakers
  import Sizing

  datatype Limits_ = Limits(
    sizing: Sizing.RiskLimits,
    maximumDailyLoss: real,
    maximumWeeklyLoss: real,
    maximumDrawdown: real,
    maximumPositions: int,
    maximumConsecutiveLosses: int,
    minimumDataQuality: real,
    minimumSignalConfidence: real,
    maximumSpreadFraction: real,
    maximumPriceDivergenceFraction: real,
    cooldownSeconds: Seconds)
  {
    predicate Valid() {
      && 0.0 < maximumDailyLoss <= 0.05 && maximumDailyLoss <= maximumWeeklyLoss <= 0.1 && 0.0 < maximumDrawdown <= 0.2
      && 1 <= maximumPositions <= 20 && 1 <= maximumConsecutiveLosses <= 20
      && 0.0 <= minimumDataQuality <= 1.0 && 0.0 <= minimumSignalConfidence <= 1.0
      && 0.0 < maximumSpreadFraction <= 0.05 && 0.0 < maximumPriceDivergenceFraction <= 0.2
      && cooldownSeconds <= 86400
    }
  }

  type Limits = l: Limits_ | l.Valid()
    witness Limits(Sizing.RiskLimits(1.0, 0.01, 1.0, 1.0, 1.0, 0.1, 2.0, 0.01, Sizing.ConservativeMinimum),
                   0.01, 0.03, 0.08, 3, 5, 0.8, 0.6, 0.005, 0.02, 1800)

  datatype Account_ = Account(
    timestamp: int,
    exposure: Sizing.RiskState,
    peakEquity: real,
    dayStartEquity: real,
    weekStartEquity: real,
    realizedPnlToday: real,
    realizedPnlWeek: real,
    openPositions: nat,
    consecutiveLosses: nat,
    dataQualityScore: real,
    dataHealthy: bool,
    apiHealthy: bool,
    websocketConnected: bool,
    spreadFraction: real,
    priceDivergenceFraction: real)
  {
    predicate Valid() {
      peakEquity >= exposure.equity && dayStartEquity > 0.0 && weekStartEquity > 0.0
    }
  }

  type Account = a: Account_ | a.Valid()
    witness Account(0, Sizing.RiskState(1.0, 0.0, map[], map[]), 1.0, 1.0, 1.0, 0.0, 0.0, 0, 0, 1.0, true, true, true, 0.0, 0.0)

  function DailyLossFraction(a: Account): real {
    Max(-a.realizedPnlToday / a.dayStartEquity, 0.0)
  }

  function WeeklyLossFraction(a: Account): real {
    Max(-a.realizedPnlWeek / a.weekStartEquity, 0.0)
  }

  function DrawdownFraction(a: Account): real {
    Max((a.peakEquity - a.exposure.equity) / a.peakEquity, 0.0)
  }

  datatype Intent = Entry | Exit | Reduce

  datatype Request = Request(
    intent: Intent,
    validUntil: int,
    regimeKnown: bool,
    signalQuality: real,
    order: Sizing.Input,
    account: Account)

  datatype Refusal =
    | SignalExpired | UnknownRegime | LowConfidence | LowQuality | DailyLossReached | WeeklyLossReached
    | DrawdownReached | LossStreak | DataUnhealthy | ApiDown | Disconnected | WideSpread | Diverged
    | GrossExhausted | SymbolExhausted | ExchangeExhausted | TooManyPositions | BreakerActive | NotSized

  datatype Decision = Decision(
    allowed: bool, refusals: seq<Refusal>, sizing: Option<Sizing.Outcome>, breakerReasons: set<HaltReason>)

  /** Does this check refuse the entry? */
  predicate Fails(l: Limits, q: Request, r: Refusal) {
    var a, s := q.account, q.order.signal;
    match r
    case SignalExpired => q.validUntil < a.timestamp
    case UnknownRegime => !q.regimeKnown
    case LowConfidence => s.confidence < l.minimumSignalConfidence
    case LowQuality => Min(q.signalQuality, a.dataQualityScore) < l.minimumDataQuality
    case DailyLossReached => DailyLossFraction(a) >= l.maximumDailyLoss
    case WeeklyLossReached => WeeklyLossFraction(a) >= l.maximumWeeklyLoss
    case DrawdownReached => DrawdownFraction(a) >= l.maximumDrawdown
    case LossStreak => a.consecutiveLosses >= l.maximumConsecutiveLosses
    case DataUnhealthy => !a.dataHealthy
    case ApiDown => !a.apiHealthy
    case Disconnected => !a.websocketConnected
    case WideSpread => a.spreadFraction > l.maximumSpreadFraction
    case Diverged => a.priceDivergenceFraction > l.maximumPriceDivergenceFraction
    case GrossExhausted =>
      a.exposure.grossExposure >= Min(Sizing.Times(a.exposure.equity, l.sizing.maximumGrossExposure),
                                      Sizing.Times(a.exposure.equity, l.sizing.maximumLeverage))
    case SymbolExhausted =>
      Sizing.Exposure(a.exposure.symbolExposures, s.symbol) >= Sizing.Times(a.exposure.equity, l.sizing.maximumSymbolExposure)
    case ExchangeExhausted =>
      Sizing.Exposure(a.exposure.exchangeExposures, Sizing.ExchangeKey(s))
      >= Sizing.Times(a.exposure.equity, l.sizing.maximumExchangeExposure)
    case TooManyPositions => a.openPositions >= l.maximumPositions
    case BreakerActive => false
    case NotSized => false
  }

  const Checks := [
    SignalExpired, UnknownRegime, LowConfidence, LowQuality, DailyLossReached, WeeklyLossReached, DrawdownReached,
    LossStreak, DataUnhealthy, ApiDown, Disconnected, WideSpread, Diverged, GrossExhausted, SymbolExhausted,
    ExchangeExhausted, TooManyPositions]

  /** The halt that a failed check calls for, if any. */
  function HaltFor(r: Refusal): Option<HaltReason> {
    match r
    case LowQuality => Some(DataAnomaly)
    case DailyLossReached => Some(DailyLoss)
    case WeeklyLossReached => Some(WeeklyLoss)
    case DrawdownReached => Some(MaxDrawdown)
    case LossStreak => Some(ConsecutiveLosses)
    case DataUnhealthy => Some(DataAnomaly)
    case ApiDown => Some(ApiUnhealthy)
    case Disconnected => Some(WebsocketDisconnected)
    case WideSpread => Some(SpreadAnomaly)
    case Diverged => Some(PriceDivergence)
    case _ => None
  }

  /** The failed ones of `checks`, in order. */
  function Failed(l: Limits, q: Request, checks: seq<Refusal>): (failed: seq<Refusal>)
    ensures forall r :: r in failed <==> r in checks && Fails(l, q, r)
  {
    if checks == [] then []
    else
      var before := Failed(l, q, checks[..|checks| - 1]);
      var last := checks[|checks| - 1];
      if Fails(l, q, last) then before + [last] else before
  }

  /** The trips, transient or critical, that failed checks call for. */
  function TripsFor(l: Limits, at: int, failed: seq<Refusal>, critical: bool): (events: seq<Event>)
    ensures failed == [] ==> events == []
    ensures forall k :: 0 <= k < |events| ==>
              && events[k].Tripped? && events[k].Time() == at && events[k].trip.manual == critical
              && events[k].trip.cooldown == l.cooldownSeconds
    ensures critical && DrawdownReached in failed ==> events != []
  {
    if failed == [] then []
    else
      var before := TripsFor(l, at, failed[..|failed| - 1], critical);
      var last := failed[|failed| - 1];
      assert failed == failed[..|failed| - 1] + [last];
      if HaltFor(last).Some? && (HaltFor(last).value == MaxDrawdown <==> critical)
      then before + [Tripped(Trip(HaltFor(last).value, at, critical, l.cooldownSeconds, ""))]
      else before
  }

  /** What an evaluation does to the breaker: transient trips, critical trips, then a status call. */
  function Effects(l: Limits, q: Request): seq<Event> {
    var at := q.account.timestamp;
    if q.intent != Entry then [Asked(at)]
    else
      var failed := Failed(l, q, Checks);
      TripsFor(l, at, failed, false) + TripsFor(l, at, failed, true) + [Asked(at)]
  }

  function Decide(l: Limits, b: Breaker, q: Request): Decision {
    var after := AfterAll(b, Effects(l, q));
    if q.intent != Entry then Decision(true, [], None, after.reasons)
    else
      var refusals := Failed(l, q, Checks) + (if after.reasons != {} then [BreakerActive] else []);
      if refusals != [] then Decision(false, refusals, None, after.reasons)
      else
        var sizing := Sizing.Size(l.sizing, q.account.exposure, q.order);
        if sizing.Accepted? then Decision(true, [], Some(sizing), {}) else Decision(false, [NotSized], Some(sizing), {})
  }

  // ---------- One evaluation ----------

  /** Which checks there are: exactly those of the seventeen rules that can fail. */
  lemma {:induction false} ChecksAreAll(r: Refusal)
    ensures r in Checks <==> r != BreakerActive && r != NotSized
  {
    assert Checks[0] == SignalExpired && Checks[1] == UnknownRegime && Checks[2] == LowConfidence && Checks[3] == LowQuality;
    assert Checks[4] == DailyLossReached && Checks[5] == WeeklyLossReached && Checks[6] == DrawdownReached;
    assert Checks[7] == LossStreak && Checks[8] == DataUnhealthy && Checks[9] == ApiDown && Checks[10] == Disconnected;
    assert Checks[11] == WideSpread && Checks[12] == Diverged && Checks[13] == GrossExhausted;
    assert Checks[14] == SymbolExhausted && Checks[15] == ExchangeExhausted && Checks[16] == TooManyPositions;
  }

  lemma {:induction false} NothingFailedExactly(l: Limits, q: Request)
    ensures Failed(l, q, Checks) == [] <==> forall r :: !Fails(l, q, r)
  {
    var failed := Failed(l, q, Checks);
    if failed != [] {
      assert failed[0] in failed;
    }
    forall r | Fails(l, q, r)
      ensures failed != []
    {
      ChecksAreAll(r);
    }
  }

  /** After any run of the breaker an entry is allowed if and only if no check fails, no trip since the last
      clear still holds, and the sizer accepts it. */
  lemma {:induction false} AllowedExactly(l: Limits, events: seq<Event>, q: Request)
    requires q.intent == Entry
    ensures Decide(l, AfterAll(Idle, events), q).allowed <==>
            && (forall r :: !Fails(l, q, r))
            && Over(Standing(events), q.account.timestamp)
            && Sizing.Size(l.sizing, q.account.exposure, q.order).Accepted?
  {
    var at, b := q.account.timestamp, AfterAll(Idle, events);
    NothingFailedExactly(l, q);
    if Failed(l, q, Checks) == [] {
      assert Effects(l, q) == [Asked(at)];
      assert [Asked(at)][..0] == [];
      assert AfterAll(b, [Asked(at)]) == Settle(b, at);
      ActiveExactly(events, at);
    }
  }

  // ---------- The limits on the account itself ----------

  function Part(fraction: real, of: real): real {
    fraction * of
  }

  /** Equity has fallen to the drawdown limit below its peak. */
  predicate DrawnDown(l: Limits, a: Account) {
    a.exposure.equity <= Part(1.0 - l.maximumDrawdown, a.peakEquity)
  }

  /** The limit that is crossed for a halt reason, in terms of the account and the signal. */
  predicate Crossed(l: Limits, q: Request, reason: HaltReason) {
    var a := q.account;
    match reason
    case DailyLoss => -a.realizedPnlToday >= Part(l.maximumDailyLoss, a.dayStartEquity)
    case WeeklyLoss => -a.realizedPnlWeek >= Part(l.maximumWeeklyLoss, a.weekStartEquity)
    case MaxDrawdown => DrawnDown(l, a)
    case ConsecutiveLosses => a.consecutiveLosses >= l.maximumConsecutiveLosses
    case DataAnomaly => !a.dataHealthy || q.signalQuality < l.minimumDataQuality || a.dataQualityScore < l.minimumDataQuality
    case ApiUnhealthy => !a.apiHealthy
    case WebsocketDisconnected => !a.websocketConnected
    case SpreadAnomaly => a.spreadFraction > l.maximumSpreadFraction
    case PriceDivergence => a.priceDivergenceFraction > l.maximumPriceDivergenceFraction
    case _ => false
  }

  /** The signal is good, no position or exposure limit is used up, and no limit that halts is crossed. */
  ghost predicate Healthy(l: Limits, q: Request) {
    var a, s, x := q.account, q.order.signal, q.account.exposure;
    && a.timestamp <= q.validUntil && q.regimeKnown && s.confidence >= l.minimumSignalConfidence
    && a.openPositions < l.maximumPositions
    && x.grossExposure < Part(l.sizing.maximumGrossExposure, x.equity) && x.grossExposure < Part(l.sizing.maximumLeverage, x.equity)
    && (if s.symbol in x.symbolExposures then x.symbolExposures[s.symbol] else 0.0) < Part(l.sizing.maximumSymbolExposure, x.equity)
    && (if s.exchange.GetOr("") in x.exchangeExposures then x.exchangeExposures[s.exchange.GetOr("")] else 0.0)
       < Part(l.sizing.maximumExchangeExposure, x.equity)
    && forall reason :: !Crossed(l, q, reason)
  }

  lemma {:induction false} FractionReached(part: real, whole: real, limit: real)
    requires whole > 0.0 && limit > 0.0
    ensures Max(part / whole, 0.0) >= limit <==> part >= Part(limit, whole)
  {
    var f := part / whole;
    assert f * whole == part;
    if f < limit {
      MulLess(f, limit, whole);
    } else {
      MulLess(limit, f, whole);
    }
  }

  lemma {:induction false} LossesCross(l: Limits, q: Request)
    ensures Fails(l, q, DailyLossReached) <==> Crossed(l, q, DailyLoss)
    ensures Fails(l, q, WeeklyLossReached) <==> Crossed(l, q, WeeklyLoss)
    ensures Fails(l, q, DrawdownReached) <==> Crossed(l, q, MaxDrawdown)
  {
    var a := q.account;
    FractionReached(-a.realizedPnlToday, a.dayStartEquity, l.maximumDailyLoss);
    FractionReached(-a.realizedPnlWeek, a.weekStartEquity, l.maximumWeeklyLoss);
    FractionReached(a.peakEquity - a.exposure.equity, a.peakEquity, l.maximumDrawdown);
    Distribute(1.0, l.maximumDrawdown, a.peakEquity);
  }

  /** The failed check behind each halt reason. */
  lemma {:induction false} CrossedExactly(l: Limits, q: Request, reason: HaltReason)
    ensures Crossed(l, q, reason) <==> exists r :: Fails(l, q, r) && HaltFor(r) == Some(reason)
  {
    LossesCross(l, q);
    match reason
    case DailyLoss => assert HaltFor(DailyLossReached) == Some(reason);
    case WeeklyLoss => assert HaltFor(WeeklyLossReached) == Some(reason);
    case MaxDrawdown => assert HaltFor(DrawdownReached) == Some(reason);
    case ConsecutiveLosses => assert HaltFor(LossStreak) == Some(reason);
    case DataAnomaly => assert HaltFor(DataUnhealthy) == Some(reason) && HaltFor(LowQuality) == Some(reason);
    case ApiUnhealthy => assert HaltFor(ApiDown) == Some(reason);
    case WebsocketDisconnected => assert HaltFor(Disconnected) == Some(reason);
    case SpreadAnomaly => assert HaltFor(WideSpread) == Some(reason);
    case PriceDivergence => assert HaltFor(Diverged) == Some(reason);
    case _ =>
  }

  /** The checks that halt nothing. */
  lemma {:induction false} PlainChecks(l: Limits, q: Request)
    ensures var a, s, x := q.account, q.order.signal, q.account.exposure;
            && (Fails(l, q, SignalExpired) <==> a.timestamp > q.validUntil) && (Fails(l, q, UnknownRegime) <==> !q.regimeKnown)
            && (Fails(l, q, LowConfidence) <==> s.confidence < l.minimumSignalConfidence)
            && (Fails(l, q, TooManyPositions) <==> a.openPositions >= l.maximumPositions)
            && (Fails(l, q, GrossExhausted) <==>
                  x.grossExposure >= Part(l.sizing.maximumGrossExposure, x.equity) || x.grossExposure >= Part(l.sizing.maximumLeverage, x.equity))
            && (Fails(l, q, SymbolExhausted) <==>
                  (if s.symbol in x.symbolExposures then x.symbolExposures[s.symbol] else 0.0) >= Part(l.sizing.maximumSymbolExposure, x.equity))
            && (Fails(l, q, ExchangeExhausted) <==>
                  (if s.exchange.GetOr("") in x.exchangeExposures then x.exchangeExposures[s.exchange.GetOr("")] else 0.0)
                  >= Part(l.sizing.maximumExchangeExposure, x.equity))
  {
    var x := q.account.exposure;
    assert Sizing.Times(x.equity, l.sizing.maximumGrossExposure) == Part(l.sizing.maximumGrossExposure, x.equity);
    assert Sizing.Times(x.equity, l.sizing.maximumLeverage) == Part(l.sizing.maximumLeverage, x.equity);
    assert Sizing.Times(x.equity, l.sizing.maximumSymbolExposure) == Part(l.sizing.maximumSymbolExposure, x.equity);
    assert Sizing.Times(x.equity, l.sizing.maximumExchangeExposure) == Part(l.sizing.maximumExchangeExposure, x.equity);
  }

  /** No check fails if and only if signal and account are healthy. */
  lemma {:induction false} HealthyExactly(l: Limits, q: Request)
    ensures (forall r :: !Fails(l, q, r)) <==> Healthy(l, q)
  {
    PlainChecks(l, q);
    if forall r :: !Fails(l, q, r) {
      forall reason ensures !Crossed(l, q, reason) {
        CrossedExactly(l, q, reason);
      }
      assert !Fails(l, q, SignalExpired) && !Fails(l, q, UnknownRegime) && !Fails(l, q, LowConfidence) && !Fails(l, q, TooManyPositions);
      assert !Fails(l, q, GrossExhausted) && !Fails(l, q, SymbolExhausted) && !Fails(l, q, ExchangeExhausted);
    }
    if Healthy(l, q) {
      forall r ensures !Fails(l, q, r) {
        if HaltFor(r).Some? {
          CrossedExactly(l, q, HaltFor(r).value);
        }
      }
    }
  }

  /**
   The decision on account fields alone. After any run of the breaker an entry is allowed if and only if
   signal and account are healthy, no trip since the last clear still holds, and the sizer accepts.
   */
  lemma {:induction false} AllowedOnAccount(l: Limits, events: seq<Event>, q: Request)
    requires q.intent == Entry
    ensures Decide(l, AfterAll(Idle, events), q).allowed <==>
            && Healthy(l, q) && Over(Standing(events), q.account.timestamp)
            && Sizing.Size(l.sizing, q.account.exposure, q.order).Accepted?
  {
    AllowedExactly(l, events, q);
    HealthyExactly(l, q);
  }

  /** What reduces risk is always allowed, whatever the breaker and the account, and trips nothing. */
  lemma {:induction false} ExitsAreAllowed(l: Limits, b: Breaker, q: Request)
    requires q.intent != Entry
    ensures Decide(l, b, q).allowed && Decide(l, b, q).sizing.None? && AfterAll(b, Effects(l, q)) == Settle(b, q.account.timestamp)
  {
    var asked := [Asked(q.account.timestamp)];
    assert asked[..0] == [];
    assert AfterAll(b, []) == b;
  }

  // ---------- What an evaluation trips ----------

  /** Some of the events is a trip for the reason. */
  ghost predicate TripsOn(events: seq<Event>, reason: HaltReason) {
    exists k :: 0 <= k < |events| && events[k].Tripped? && events[k].trip.reason == reason
  }

  lemma {:induction false} TripsOnEither(a: seq<Event>, b: seq<Event>, reason: HaltReason)
    ensures TripsOn(a + b, reason) <==> TripsOn(a, reason) || TripsOn(b, reason)
  {
    var all := a + b;
    if TripsOn(a, reason) {
      var k :| 0 <= k < |a| && a[k].Tripped? && a[k].trip.reason == reason;
      assert all[k] == a[k];
    }
    if TripsOn(b, reason) {
      var k :| 0 <= k < |b| && b[k].Tripped? && b[k].trip.reason == reason;
      assert all[|a| + k] == b[k];
    }
    if TripsOn(all, reason) {
      var k :| 0 <= k < |all| && all[k].Tripped? && all[k].trip.reason == reason;
      if k < |a| {
        assert a[k].trip.reason == reason;
      } else {
        assert b[k - |a|].trip.reason == reason;
      }
    }
  }

  lemma {:induction false} TripsOnOne(e: Event, reason: HaltReason)
    ensures TripsOn([e], reason) <==> e.Tripped? && e.trip.reason == reason
    ensures !TripsOn([], reason)
  {
    assert [e][0] == e;
  }

  /** A failed check that calls for the halt. */
  ghost predicate CallsFor(failed: seq<Refusal>, reason: HaltReason) {
    exists r :: r in failed && HaltFor(r) == Some(reason)
  }

  lemma {:induction false} CallsForLast(front: seq<Refusal>, last: Refusal, reason: HaltReason)
    ensures CallsFor(front + [last], reason) <==> CallsFor(front, reason) || HaltFor(last) == Some(reason)
  {
    assert last in front + [last];
    if CallsFor(front, reason) {
      var r :| r in front && HaltFor(r) == Some(reason);
      assert r in front + [last];
    }
  }

  /** The reasons of the trips that failed checks call for. */
  lemma {:induction false} TripReasons(l: Limits, at: int, failed: seq<Refusal>, critical: bool, reason: HaltReason)
    ensures TripsOn(TripsFor(l, at, failed, critical), reason) <==> CallsFor(failed, reason) && (critical <==> reason == MaxDrawdown)
  {
    if failed != [] {
      var front, last := failed[..|failed| - 1], failed[|failed| - 1];
      TripReasons(l, at, front, critical, reason);
      assert failed == front + [last];
      CallsForLast(front, last, reason);
      if HaltFor(last).Some? && (HaltFor(last).value == MaxDrawdown <==> critical) {
        var trip := Tripped(Trip(HaltFor(last).value, at, critical, l.cooldownSeconds, ""));
        TripsOnEither(TripsFor(l, at, front, critical), [trip], reason);
        TripsOnOne(trip, reason);
      }
    }
  }

  lemma {:induction false} TripsAdd(b: Breaker, events: seq<Event>, reason: HaltReason)
    requires forall k :: 0 <= k < |events| ==> events[k].Tripped?
    ensures reason in AfterAll(b, events).reasons <==> reason in b.reasons || TripsOn(events, reason)
    decreases |events|
  {
    if events != [] {
      var front, last := events[..|events| - 1], events[|events| - 1];
      TripsAdd(b, front, reason);
      assert events == front + [last];
      TripsOnEither(front, [last], reason);
      TripsOnOne(last, reason);
    }
  }

  /** Trips at `at` halt trading until the cooldown after it. */
  lemma {:induction false} TripsHalt(b: Breaker, events: seq<Event>, at: int, cooldown: Seconds, t: int)
    requires events != [] && t < at + cooldown
    requires forall k :: 0 <= k < |events| ==> events[k].Tripped? && events[k].trip.at == at && events[k].trip.cooldown == cooldown
    ensures Halts(AfterAll(b, events), t)
  {
    assert events[|events| - 1].trip.reason in AfterAll(b, events).reasons;
  }

  /** The trips of an evaluation, transient and critical. */
  function AllTrips(l: Limits, q: Request): seq<Event> {
    var at, failed := q.account.timestamp, Failed(l, q, Checks);
    TripsFor(l, at, failed, false) + TripsFor(l, at, failed, true)
  }

  lemma {:induction false} AllTripsAre(l: Limits, q: Request)
    ensures forall k :: 0 <= k < |AllTrips(l, q)| ==>
              && AllTrips(l, q)[k].Tripped? && AllTrips(l, q)[k].trip.at == q.account.timestamp
              && AllTrips(l, q)[k].trip.cooldown == l.cooldownSeconds
  {
  }

  lemma {:induction false} AllTripsOn(l: Limits, q: Request, reason: HaltReason)
    ensures TripsOn(AllTrips(l, q), reason) <==> Crossed(l, q, reason)
  {
    var at, failed := q.account.timestamp, Failed(l, q, Checks);
    TripsOnEither(TripsFor(l, at, failed, false), TripsFor(l, at, failed, true), reason);
    TripReasons(l, at, failed, false, reason);
    TripReasons(l, at, failed, true, reason);
    CrossedExactly(l, q, reason);
    forall r ensures r in failed <==> Fails(l, q, r) {
      ChecksAreAll(r);
    }
    if Crossed(l, q, reason) {
      var r :| Fails(l, q, r) && HaltFor(r) == Some(reason);
      assert r in failed;
    }
  }

  lemma {:induction false} EffectsAre(l: Limits, b: Breaker, q: Request)
    requires q.intent == Entry
    ensures AfterAll(b, Effects(l, q)) == Settle(AfterAll(b, AllTrips(l, q)), q.account.timestamp)
  {
    var asked := [Asked(q.account.timestamp)];
    assert asked[..0] == [];
    AfterBoth(b, AllTrips(l, q), asked);
    assert AfterAll(AfterAll(b, AllTrips(l, q)), []) == AfterAll(b, AllTrips(l, q));
  }

  /**
   What evaluating an entry does to the breaker, in any state of it. Every limit that is crossed adds its reason
   and no other reason is added; trading is then halted until the cooldown after the evaluation, and
   crossing the drawdown limit needs a reset. If no limit is crossed the evaluation only asks for the status.
   */
  lemma {:induction false} EvaluationTrips(l: Limits, b: Breaker, q: Request)
    requires q.intent == Entry
    ensures var after, at := AfterAll(b, Effects(l, q)), q.account.timestamp;
            && ((exists reason :: Crossed(l, q, reason)) ==>
                  && (forall reason :: reason in after.reasons <==> reason in b.reasons || Crossed(l, q, reason))
                  && (forall t :: t < at + l.cooldownSeconds ==> Halts(after, t)))
            && ((forall reason :: !Crossed(l, q, reason)) ==> after == Settle(b, at))
  {
    var at, trips := q.account.timestamp, AllTrips(l, q);
    var tripped := AfterAll(b, trips);
    AllTripsAre(l, q);
    EffectsAre(l, b, q);
    forall reason
      ensures reason in tripped.reasons <==> reason in b.reasons || Crossed(l, q, reason)
      ensures Crossed(l, q, reason) ==> trips != []
    {
      AllTripsOn(l, q, reason);
      TripsAdd(b, trips, reason);
    }
    if trips != [] {
      AllTripsOn(l, q, trips[0].trip.reason);
      assert Crossed(l, q, trips[0].trip.reason);
      forall t | t < at + l.cooldownSeconds ensures Halts(tripped, t) {
        TripsHalt(b, trips, at, l.cooldownSeconds, t);
      }
      assert Halts(tripped, at);
    }
  }

  /** An allowed entry carries a size that keeps every exposure under its cap. */
  lemma {:induction false} AllowedEntryFitsCaps(l: Limits, b: Breaker, q: Request)
    requires q.intent == Entry && Decide(l, b, q).allowed
    ensures Decide(l, b, q).sizing.Some? && Decide(l, b, q).sizing.value.Accepted?
    ensures var n, a := Decide(l, b, q).sizing.value.notional, q.account.exposure;
            && a.grossExposure + n <= Sizing.Times(a.equity, l.sizing.maximumGrossExposure)
            && a.grossExposure + n <= Sizing.Times(a.equity, l.sizing.maximumLeverage)
            && Sizing.Exposure(a.symbolExposures, q.order.signal.symbol) + n
               <= Sizing.Times(a.equity, l.sizing.maximumSymbolExposure)
            && Sizing.Exposure(a.exchangeExposures, Sizing.ExchangeKey(q.order.signal)) + n
               <= Sizing.Times(a.equity, l.sizing.maximumExchangeExposure)
  {
    Sizing.AcceptedFitsCaps(l.sizing, q.account.exposure, q.order);
  }

  // ---------- Runs ----------

  /** What callers do: trip or ask the breaker, use the kill switch, evaluate a signal. */
  datatype Action =
    | TripIt(trip: Trip)
    | Ask(at: int)
    | Kill(at: int, reason: string)
    | ResetIt(at: int)
    | Evaluate(request: Request)

  /** The characters that count as white space. */
  predicate IsBlank(c: char) {
    var n := c as int;
    || 0x09 <= n <= 0x0D || 0x1C <= n <= 0x20 || n == 0x85 || n == 0xA0 || n == 0x1680 || 0x2000 <= n <= 0x200A
    || n == 0x2028 || n == 0x2029 || n == 0x202F || n == 0x205F || n == 0x3000
  }

  /** The text without the white space around it. */
  function Strip(text: string): (r: string)
    ensures r == "" <==> forall i :: 0 <= i < |text| ==> IsBlank(text[i])
    ensures r != "" ==> !IsBlank(r[0]) && !IsBlank(r[|r| - 1])
  {
    if text == "" then ""
    else if IsBlank(text[0]) then
      assert text == [text[0]] + text[1..];
      Strip(text[1..])
    else if IsBlank(text[|text| - 1]) then Strip(text[..|text| - 1])
    else text
  }

  function EventsOf(l: Limits, action: Action): seq<Event> {
    match action
    case TripIt(trip) => [Tripped(trip)]
    case Ask(at) => [Asked(at)]
    case Kill(at, reason) =>
      if Strip(reason) == "" then [] else [Tripped(Trip(ManualKillSwitch, at, true, l.cooldownSeconds, Strip(reason)))]
    case ResetIt(at) => [WasReset(at)]
    case Evaluate(q) => Effects(l, q)
  }

  function Perform(l: Limits, b: Breaker, actions: seq<Action>): Breaker
    decreases |actions|
  {
    if actions == [] then b else Perform(l, AfterAll(b, EventsOf(l, actions[0])), actions[1..])
  }

  /** No entry is allowed at any point of the run. */
  predicate NoEntry(l: Limits, b: Breaker, actions: seq<Action>)
    decreases |actions|
  {
    actions == [] ||
    (&& (actions[0].Evaluate? && actions[0].request.intent == Entry ==> !Decide(l, b, actions[0].request).allowed)
     && NoEntry(l, AfterAll(b, EventsOf(l, actions[0])), actions[1..]))
  }

  predicate UpTo(action: Action, t: int) {
    match action
    case TripIt(trip) => trip.at <= t
    case Ask(at) => at <= t
    case Kill(at, _) => at <= t
    case ResetIt(at) => at <= t
    case Evaluate(q) => q.account.timestamp <= t
  }

  lemma {:induction false} ActionKeepsHalt(l: Limits, b: Breaker, action: Action, t: int)
    requires Halts(b, t) && !action.ResetIt? && (b.manual || UpTo(action, t))
    ensures Halts(AfterAll(b, EventsOf(l, action)), t) && (b.manual ==> AfterAll(b, EventsOf(l, action)).manual)
  {
    HaltIsKept(b, EventsOf(l, action), t);
  }

  /** A halted breaker allows no entry in any run without a confirmed reset: for ever if it needs one, and
      otherwise as long as no action is later than the time up to which it halts. */
  lemma {:induction false} HaltedRunAllowsNoEntry(l: Limits, b: Breaker, actions: seq<Action>, t: int)
    requires Halts(b, t)
    requires forall k :: 0 <= k < |actions| ==> !actions[k].ResetIt? && (b.manual || UpTo(actions[k], t))
    ensures NoEntry(l, b, actions) && Halts(Perform(l, b, actions), t)
    decreases |actions|
  {
    if actions != [] {
      ActionKeepsHalt(l, b, actions[0], t);
      HaltedRunAllowsNoEntry(l, AfterAll(b, EventsOf(l, actions[0])), actions[1..], t);
    }
  }

  /** Trips that need a reset leave the breaker in need of one. */
  lemma {:induction false} CriticalTripsLatch(b: Breaker, events: seq<Event>)
    requires events != [] && forall k :: 0 <= k < |events| ==> events[k].Tripped? && events[k].trip.manual
    ensures AfterAll(b, events).manual && AfterAll(b, events).reasons != {}
  {
    assert events[|events| - 1].trip.reason in AfterAll(b, events).reasons;
  }

  /** An evaluation at or below the drawdown limit refuses the entry and leaves the breaker in need of a reset. */
  lemma {:induction false} DrawdownLatches(l: Limits, b: Breaker, q: Request)
    requires q.intent == Entry && DrawnDown(l, q.account)
    ensures AfterAll(b, Effects(l, q)).manual && MaxDrawdown in AfterAll(b, Effects(l, q)).reasons
    ensures !Decide(l, b, q).allowed
  {
    var at, failed := q.account.timestamp, Failed(l, q, Checks);
    assert Crossed(l, q, MaxDrawdown);
    LossesCross(l, q);
    EvaluationTrips(l, b, q);
    ChecksAreAll(DrawdownReached);
    var transient, critical := TripsFor(l, at, failed, false), TripsFor(l, at, failed, true);
    var tripped := AfterAll(AfterAll(b, transient), critical);
    CriticalTripsLatch(AfterAll(b, transient), critical);
    AfterBoth(b, transient, critical);
    AfterBoth(b, transient + critical, [Asked(at)]);
    HaltIsKept(tripped, [Asked(at)], at);
  }

  /** The kill switch and a drawdown, which is equity at or below (1 - maximum drawdown) of its peak: after either,
      in any state, no run allows an entry before a confirmed reset. */
  lemma {:induction false} LatchedUntilReset(l: Limits, b: Breaker, cause: Action, actions: seq<Action>)
    requires || (cause.Kill? && Strip(cause.reason) != "")
             || (cause.Evaluate? && cause.request.intent == Entry && DrawnDown(l, cause.request.account))
             || (cause.TripIt? && cause.trip.manual)
    requires forall k :: 0 <= k < |actions| ==> !actions[k].ResetIt?
    ensures NoEntry(l, b, [cause] + actions)
  {
    var after := AfterAll(b, EventsOf(l, cause));
    if cause.Evaluate? {
      DrawdownLatches(l, b, cause.request);
    } else {
      CriticalTripsLatch(b, EventsOf(l, cause));
    }
    HaltedRunAllowsNoEntry(l, after, actions, 0);
    assert ([cause] + actions)[1..] == actions;
  }

  /** A limit that is crossed, of whatever kind, allows no entry in any run before the cooldown is over, unless a
      confirmed reset comes first. */
  lemma {:induction false} CrossedLimitHalts(l: Limits, b: Breaker, q: Request, reason: HaltReason, actions: seq<Action>, t: int)
    requires q.intent == Entry && Crossed(l, q, reason) && t < q.account.timestamp + l.cooldownSeconds
    requires forall k :: 0 <= k < |actions| ==> !actions[k].ResetIt? && UpTo(actions[k], t)
    ensures NoEntry(l, AfterAll(b, Effects(l, q)), actions)
  {
    EvaluationTrips(l, b, q);
    HaltedRunAllowsNoEntry(l, AfterAll(b, Effects(l, q)), actions, t);
  }

  /** The confirmed reset does lift it: the very next entry is decided on its own checks and size. */
  lemma {:induction false} ResetLifts(l: Limits, b: Breaker, at: int, q: Request)
    requires q.intent == Entry
    ensures Decide(l, AfterAll(b, EventsOf(l, ResetIt(at))), q).allowed <==>
            Healthy(l, q) && Sizing.Size(l.sizing, q.account.exposure, q.order).Accepted?
  {
    var events := [WasReset(at)];
    assert events[..0] == [];
    assert AfterAll(b, events) == Clear(at) == AfterAll(Idle, events);
    assert Standing(events) == [];
    AllowedOnAccount(l, events, q);
  }
}

module RiskObjects {
  import opened Common
  import opened Breakers
  import opened RiskManagement
  import opened BreakerObjects
  import Sizing

  class RiskManager {
    const limits: Limits
    const breaker: CircuitBreaker

    constructor (limits: Limits)
      ensures this.limits == limits && fresh(breaker) && breaker.State() == Idle
      ensures breaker.defaultCooldown == limits.cooldownSeconds
    {
      this.limits := limits;
      breaker := new CircuitBreaker(limits.cooldownSeconds);
    }

    /** A blank reason is refused. */
    method ActivateKillSwitch(at: int, reason: string) returns (ok: bool)
      requires breaker.defaultCooldown == limits.cooldownSeconds
      modifies breaker
      ensures ok <==> Strip(reason) != ""
      ensures breaker.State() == AfterAll(old(breaker.State()), EventsOf(limits, Kill(at, reason)))
    {
      var detail := Strip(reason);
      if detail == "" {
        return false;
      }
      ghost var events := EventsOf(limits, Kill(at, reason));
      assert events[..0] == [];
      ok := breaker.Trip(ManualKillSwitch, at, true, None, detail);
    }

    method ResetKillSwitch(at: int, confirmation: string) returns (ok: bool)
      modifies breaker
      ensures ok <==> confirmation == ResetConfirmation
      ensures breaker.State() == if ok then AfterAll(old(breaker.State()), EventsOf(limits, ResetIt(at))) else old(breaker.State())
    {
      ghost var events := EventsOf(limits, ResetIt(at));
      assert events[..0] == [];
      ok := breaker.Reset(confirmation, at);
    }

    /** Trips the breaker once for every event. */
    method TripAll(events: seq<Event>)
      requires breaker.defaultCooldown == limits.cooldownSeconds
      requires forall k :: 0 <= k < |events| ==> events[k].Tripped? && events[k].trip.cooldown == limits.cooldownSeconds
      modifies breaker
      ensures breaker.State() == AfterAll(old(breaker.State()), events)
    {
      for k := 0 to |events|
        invariant breaker.State() == AfterAll(old(breaker.State()), events[..k])
      {
        var trip := events[k].trip;
        assert events[..k + 1][..k] == events[..k];
        var _ := breaker.Trip(trip.reason, trip.at, trip.manual, None, trip.detail);
      }
      assert events[..|events|] == events;
    }

    method Evaluate(q: Request) returns (decision: Decision)
      requires breaker.defaultCooldown == limits.cooldownSeconds
      modifies breaker
      ensures breaker.State() == AfterAll(old(breaker.State()), Effects(limits, q))
      ensures decision == Decide(limits, old(breaker.State()), q)
    {
      var at := q.account.timestamp;
      ghost var before := breaker.State();
      ghost var asked := [Asked(at)];
      assert asked[..0] == [];
      if q.intent != Entry {
        var _ := breaker.Status(at);
        return Decision(true, [], None, breaker.reasons);
      }
      var refusals := Failed(limits, q, Checks);
      var transient := TripsFor(limits, at, refusals, false);
      var critical := TripsFor(limits, at, refusals, true);
      TripAll(transient);
      TripAll(critical);
      AfterBoth(before, transient, critical);
      AfterBoth(before, transient + critical, asked);
      var active := breaker.Status(at);
      if active {
        refusals := refusals + [BreakerActive];
      }
      if refusals != [] {
        return Decision(false, refusals, None, breaker.reasons);
      }
      var sizing := Sizing.ComputeSize(limits.sizing, q.account.exposure, q.order);
      return if sizing.Accepted? then Decision(true, [], Some(sizing), {}) else Decision(false, [NotSized], Some(sizing), {});
    }
  }
}

/** The event loop terminates: every event weighs more than the events its handler pushes. */
module BacktestTermination {
  import opened Common
  import opened Execution
  import opened Portfolio
  import opened Events
  import opened Backtest
  import opened BacktestSafety

  /** `k` is the number of instruments with rules; a market event can exit each of them once. */
  function Weight(e: Event, k: nat): nat {
    match e
    case MarketEvent(_) => 1 + 3 * k
    case FundingEvent(_, _, _, _) => 1
    case SignalEvent(_) => 3
    case OrderCreationEvent(_, _) => 2
    case OrderSubmissionEvent(_, _) => 1
  }

  function EventsWeight(events: seq<Event>, k: nat): nat {
    if events == [] then 0 else Weight(events[0], k) + EventsWeight(events[1..], k)
  }

  function QueueWeight(q: seq<Queued>, k: nat): nat {
    if q == [] then 0 else Weight(q[0].event, k) + QueueWeight(q[1..], k)
  }

  lemma {:induction false} InsertWeighs(q: seq<Queued>, x: Queued, k: nat)
    ensures QueueWeight(Insert(q, x), k) == QueueWeight(q, k) + Weight(x.event, k)
  {
    if q == [] {
      assert [x][1..] == [];
    } else if x.event.Precedes(q[0].event) {
      assert ([x] + q)[1..] == q;
    } else {
      InsertWeighs(q[1..], x, k);
      assert ([q[0]] + Insert(q[1..], x))[1..] == Insert(q[1..], x);
    }
  }

  lemma {:induction false} PushAllWeighs(queue: Queue, events: seq<Event>, k: nat)
    ensures QueueWeight(PushAll(queue, events).entries, k) == QueueWeight(queue.entries, k) + EventsWeight(events, k)
    decreases |events|
  {
    if events != [] {
      InsertWeighs(queue.entries, Queued(queue.sequence + 1, events[0]), k);
      PushAllWeighs(Push(queue, events[0]), events[1..], k);
    }
  }

  lemma {:induction false} SignalsWeighThree(events: seq<Event>, k: nat)
    requires forall i :: 0 <= i < |events| ==> events[i].SignalEvent?
    ensures EventsWeight(events, k) == 3 * |events|
  {
    if events != [] {
      SignalsWeighThree(events[1..], k);
    }
  }

  lemma {:induction false} SubsetCount<T>(a: set<T>, b: set<T>)
    requires a <= b
    ensures |a| <= |b|
    ensures |b - a| == |b| - |a|
  {
    assert b == a + (b - a);
  }

  /** Each exit marks one more instrument with rules as pending. */
  ghost predicate ExitsCount(c: Core, e: Effect) {
    && (forall i :: 0 <= i < |e.pushes| ==> e.pushes[i].SignalEvent?)
    && c.exitPending <= e.core.exitPending
    && |e.pushes| == |e.core.exitPending| - |c.exitPending|
    && e.core.exitPending - c.exitPending <= c.simulator.rules.Keys
    && e.core.simulator.rules == c.simulator.rules && e.core.ledger.positions == c.ledger.positions
  }

  lemma {:induction false} OpenPositionIsListed(c: Core, instrument: Instrument)
    requires Inv(c) && c.ledger.PositionOf(instrument).IsOpen()
    ensures instrument in c.simulator.rules
  {
    assert IndexOf(c.ledger.positions, instrument) < |c.ledger.positions|;
  }

  lemma {:induction false} LiquidationExitsCount(c: Core, instruments: seq<Instrument>, timestamp: int)
    requires Inv(c)
    ensures ExitsCount(c, LiquidationExits(c, instruments, timestamp))
    decreases |instruments|
  {
    if instruments != [] {
      var p := c.ledger.PositionOf(instruments[0]);
      if p.IsOpen() && p.instrument !in c.exitPending {
        OpenPositionIsListed(c, instruments[0]);
        LiquidationExitsCount(ScheduleExit(c, p, timestamp, Liquidation).core, instruments[1..], timestamp);
      } else {
        LiquidationExitsCount(c, instruments[1..], timestamp);
      }
    }
  }

  lemma {:induction false} LiquidateCounts(c: Core, timestamp: int)
    requires Inv(c)
    ensures ExitsCount(c, Liquidate(c, timestamp))
  {
    var decision := DecideLiquidation(c.ledger, timestamp);
    if decision.Some? {
      var newly := Excluding(decision.value.instruments, c.liquidationPending);
      var logged := if newly == [] then c else
        c.(liquidations := c.liquidations + [decision.value],
           liquidationPending := c.liquidationPending + set x | x in newly);
      var cancelled := logged.(simulator := logged.simulator.(orders := CancelIncreasing(logged.simulator.orders)));
      CancellingKeepsOrders(c.simulator);
      assert Inv(cancelled);
      LiquidationExitsCount(cancelled, newly, timestamp);
    }
  }

  lemma {:induction false} ProtectiveExitCounts(c: Core, snapshot: MarketSnapshot)
    requires Inv(c)
    ensures ExitsCount(c, ProtectiveExit(c, snapshot)) && Inv(ProtectiveExit(c, snapshot).core)
  {
    if c.ledger.PositionOf(snapshot.instrument).IsOpen() {
      OpenPositionIsListed(c, snapshot.instrument);
    }
  }

  lemma {:induction false} ExitsAdd(c: Core, first: Effect, second: Effect)
    requires ExitsCount(c, first) && ExitsCount(first.core, second)
    ensures ExitsCount(c, Effect(second.core, first.pushes + second.pushes))
  {
  }

  lemma {:induction false} FewExits(c: Core, e: Effect)
    requires ExitsCount(c, e)
    ensures |e.pushes| <= |c.simulator.rules|
  {
    SubsetCount(c.exitPending, e.core.exitPending);
    SubsetCount(e.core.exitPending - c.exitPending, c.simulator.rules.Keys);
  }

  /** Settling a market event pushes at most one exit signal per instrument with rules. */
  lemma {:induction false} SettlePushesFewExits(c: Core, snapshot: MarketSnapshot)
    requires Inv(c)
    ensures forall i :: 0 <= i < |Settle(c, snapshot).pushes| ==> Settle(c, snapshot).pushes[i].SignalEvent?
    ensures |Settle(c, snapshot).pushes| <= |c.simulator.rules|
    ensures Settle(c, snapshot).core.simulator.rules == c.simulator.rules
  {
    var exit := ProtectiveExit(c, snapshot);
    var liquidation := Liquidate(exit.core, snapshot.timestamp);
    ProtectiveExitCounts(c, snapshot);
    LiquidateCounts(exit.core, snapshot.timestamp);
    ExitsAdd(c, exit, liquidation);
    FewExits(c, Effect(liquidation.core, exit.pushes + liquidation.pushes));
  }

  lemma {:induction false} MarketLosesWeight(c: Core, snapshot: MarketSnapshot)
    requires Inv(c) && OnMarket(c, snapshot).Success?
    ensures EventsWeight(OnMarket(c, snapshot).value.pushes, |c.simulator.rules|) <= 3 * |c.simulator.rules|
    ensures OnMarket(c, snapshot).value.core.simulator.rules == c.simulator.rules
  {
    MarkAndMatchIsSafe(c, snapshot);
    SettlePushesFewExits(MarkAndMatch(c, snapshot).value, snapshot);
    SignalsWeighThree(OnMarket(c, snapshot).value.pushes, |c.simulator.rules|);
  }

  lemma {:induction false} OneEventWeighs(e: Event, k: nat)
    ensures EventsWeight([e], k) == Weight(e, k)
  {
    assert [e][1..] == [];
  }

  lemma {:induction false} OtherEventsLoseWeight(c: Core, e: Event)
    requires !e.MarketEvent? && Handle(c, e).Success?
    ensures EventsWeight(Handle(c, e).value.pushes, |c.simulator.rules|) < Weight(e, |c.simulator.rules|)
    ensures Handle(c, e).value.core.simulator.rules == c.simulator.rules
  {
    match e
    case FundingEvent(_, _, _, _) =>
    case SignalEvent(signal) =>
      OneEventWeighs(OrderCreationEvent(signal.timestamp + signal.calculationDelay, signal), |c.simulator.rules|);
    case OrderCreationEvent(at, signal) =>
      var order := OrderFor(signal, c.orderSequence + 1, at);
      OneEventWeighs(OrderSubmissionEvent(order.submittedAt, order), |c.simulator.rules|);
    case OrderSubmissionEvent(_, _) =>
  }

  lemma {:induction false} HandleLosesWeight(c: Core, e: Event)
    requires Inv(c) && Handle(c, e).Success?
    ensures EventsWeight(Handle(c, e).value.pushes, |c.simulator.rules|) < Weight(e, |c.simulator.rules|)
    ensures Handle(c, e).value.core.simulator.rules == c.simulator.rules
  {
    if e.MarketEvent? {
      MarketLosesWeight(c.(trace := c.trace + [TraceEntry(e.Timestamp(), KindOf(e))]), e.snapshot);
    } else {
      OtherEventsLoseWeight(c, e);
    }
  }

  /**
   Real termination: a run that has budget for the weight of its queue never hits the event limit,
   and it processes at most that many events.
   */
  lemma {:induction false} RunTerminates(s: State, processed: int, maximum: int)
    requires Inv(s.core) && maximum - processed >= QueueWeight(s.queue.entries, |s.core.simulator.rules|)
    ensures var r := Run(s, processed, maximum, None);
            && r != Raised(MaximumEventsExceeded)
            && (r.Stopped? ==> r.processed - processed <= QueueWeight(s.queue.entries, |s.core.simulator.rules|))
    decreases maximum - processed
  {
    if s.queue.entries != [] {
      var e := s.queue.entries[0].event;
      HandleIsSafe(s.core, e);
      if Step(s).Success? {
        HandleLosesWeight(s.core, e);
        PushAllWeighs(Queue(s.queue.entries[1..], s.queue.sequence), Handle(s.core, e).value.pushes, |s.core.simulator.rules|);
        RunTerminates(Step(s).value, processed + 1, maximum);
      }
    }
  }

  predicate IsSignal(e: Event) { e.SignalEvent? }

  predicate IsFunding(e: Event) { e.FundingEvent? }

  predicate IsMarket(e: Event) { e.MarketEvent? }

  function Count(events: seq<Event>, which: Event -> bool): nat {
    if events == [] then 0 else (if which(events[0]) then 1 else 0) + Count(events[1..], which)
  }

  lemma {:induction false} WeightByKind(events: seq<Event>, k: nat)
    requires forall i :: 0 <= i < |events| ==> IsSignal(events[i]) || IsFunding(events[i]) || IsMarket(events[i])
    ensures EventsWeight(events, k) == Bound(events, k)
  {
    if events != [] {
      WeightByKind(events[1..], k);
    }
  }

  /** 3S + F + (1 + 3K)M for S signals, F fundings and M market events. */
  function Bound(events: seq<Event>, k: nat): int {
    3 * Count(events, IsSignal) + Count(events, IsFunding) + (1 + 3 * k) * Count(events, IsMarket)
  }

  lemma {:induction false} LoadWeighs(core: Core, events: seq<Event>, k: nat)
    requires forall i :: 0 <= i < |events| ==> IsSignal(events[i]) || IsFunding(events[i]) || IsMarket(events[i])
    ensures QueueWeight(Load(core, events).queue.entries, k) == Bound(events, k)
  {
    PushAllWeighs(Queue([], 0), events, k);
    WeightByKind(events, k);
  }

  /** A backtest over S signals, F fundings and M market events processes at most 3S + F + (1 + 3K)M events. */
  lemma {:induction false} ProcessedAtMost(core: Core, events: seq<Event>, maximum: int)
    requires Inv(core)
    requires forall i :: 0 <= i < |events| ==> IsSignal(events[i]) || IsFunding(events[i]) || IsMarket(events[i])
    requires maximum >= Bound(events, |core.simulator.rules|)
    ensures var r := Run(Load(core, events), 0, maximum, None);
            && r != Raised(MaximumEventsExceeded)
            && (r.Stopped? ==> r.processed <= Bound(events, |core.simulator.rules|))
  {
    LoadWeighs(core, events, |core.simulator.rules|);
    RunTerminates(Load(core, events), 0, maximum);
  }
}

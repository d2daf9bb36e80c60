/**
 The event loop never looks ahead: what happens up to a time depends only on the external events
 up to that time, events are processed in strictly increasing order, and every log entry written
 later carries a later timestamp.
 */
module BacktestCausality {
  import opened Common
  import opened Execution
  import opened Portfolio
  import opened Events
  import opened Backtest

  // ---------- What one event may write and push ----------

  /** Logs only grow, and each new entry is stamped `lo` or later. */
  ghost predicate Grows(c: Core, c': Core, lo: int) {
    && c.trace <= c'.trace
    && (forall i :: |c.trace| <= i < |c'.trace| ==> c'.trace[i].timestamp >= lo)
    && c.simulator.fills <= c'.simulator.fills
    && (forall i :: |c.simulator.fills| <= i < |c'.simulator.fills| ==> c'.simulator.fills[i].filledAt >= lo)
    && c.ledger.snapshots <= c'.ledger.snapshots
    && (forall i :: |c.ledger.snapshots| <= i < |c'.ledger.snapshots| ==> c'.ledger.snapshots[i].timestamp >= lo)
    && c.ledger.fundingRecords <= c'.ledger.fundingRecords
    && (forall i :: |c.ledger.fundingRecords| <= i < |c'.ledger.fundingRecords| ==> c'.ledger.fundingRecords[i].timestamp >= lo)
    && c.liquidations <= c'.liquidations
    && (forall i :: |c.liquidations| <= i < |c'.liquidations| ==> c'.liquidations[i].timestamp >= lo)
    && c.rejectedSignals <= c'.rejectedSignals
    && (forall i :: |c.rejectedSignals| <= i < |c'.rejectedSignals| ==> c'.rejectedSignals[i].timestamp >= lo)
  }

  lemma {:induction false} GrowsTransitively(a: Core, b: Core, c: Core, lo: int)
    requires Grows(a, b, lo) && Grows(b, c, lo)
    ensures Grows(a, c, lo)
  {
  }

  lemma {:induction false} ExecuteGrows(c: Core, i: nat, t: Decision, snapshot: MarketSnapshot, rules: InstrumentRules, lo: int)
    requires i < |c.simulator.orders| && t.Trade? && snapshot.timestamp >= lo
    requires Execute(c, i, t, snapshot, rules).Success?
    ensures Grows(c, Execute(c, i, t, snapshot, rules).value, lo)
  {
  }

  lemma {:induction false} MatchAllGrows(c: Core, candidates: seq<nat>, snapshot: MarketSnapshot, rules: InstrumentRules, lo: int)
    requires forall k :: 0 <= k < |candidates| ==> candidates[k] < |c.simulator.orders|
    requires MatchAll(c, candidates, snapshot, rules).Success? && snapshot.timestamp >= lo
    ensures Grows(c, MatchAll(c, candidates, snapshot, rules).value, lo)
    decreases |candidates|
  {
    if candidates != [] {
      var i, c1 := candidates[0], MatchOne(c, candidates[0], snapshot, rules).value;
      assert Grows(c, c1, lo) by {
        var decision := Decide(c.ledger, c.simulator.config, c.simulator.orders[i], snapshot, rules).value;
        if decision.Trade? {
          ExecuteGrows(c, i, decision, snapshot, rules, lo);
        }
      }
      MatchAllGrows(c1, candidates[1..], snapshot, rules, lo);
      GrowsTransitively(c, c1, MatchAll(c, candidates, snapshot, rules).value, lo);
    }
  }

  /** Exits are signals of the current time, and scheduling them leaves the logs alone. */
  ghost predicate OnlyExits(c: Core, e: Effect, timestamp: int) {
    && (forall i :: 0 <= i < |e.pushes| ==> e.pushes[i].SignalEvent? && e.pushes[i].Timestamp() == timestamp)
    && e.core == c.(exitPending := e.core.exitPending, exitSequence := e.core.exitSequence)
  }

  lemma {:induction false} LiquidationExitsOnly(c: Core, instruments: seq<Instrument>, timestamp: int)
    ensures OnlyExits(c, LiquidationExits(c, instruments, timestamp), timestamp)
    decreases |instruments|
  {
    if instruments != [] {
      var p := c.ledger.PositionOf(instruments[0]);
      if p.IsOpen() && p.instrument !in c.exitPending {
        LiquidationExitsOnly(ScheduleExit(c, p, timestamp, Liquidation).core, instruments[1..], timestamp);
      } else {
        LiquidationExitsOnly(c, instruments[1..], timestamp);
      }
    }
  }

  lemma {:induction false} LiquidateGrows(c: Core, timestamp: int, lo: int)
    requires timestamp >= lo
    ensures Grows(c, Liquidate(c, timestamp).core, lo)
    ensures forall i :: 0 <= i < |Liquidate(c, timestamp).pushes|
                        ==> Liquidate(c, timestamp).pushes[i].SignalEvent? && Liquidate(c, timestamp).pushes[i].Timestamp() == timestamp
  {
    var decision := DecideLiquidation(c.ledger, timestamp);
    if decision.Some? {
      var newly := Excluding(decision.value.instruments, c.liquidationPending);
      var logged := if newly == [] then c else
        c.(liquidations := c.liquidations + [decision.value],
           liquidationPending := c.liquidationPending + set x | x in newly);
      var cancelled := logged.(simulator := logged.simulator.(orders := CancelIncreasing(logged.simulator.orders)));
      LiquidationExitsOnly(cancelled, newly, timestamp);
    }
  }

  lemma {:induction false} MatchGrows(c: Core, snapshot: MarketSnapshot, lo: int)
    requires Match(c, snapshot).Success? && snapshot.timestamp >= lo
    ensures Grows(c, Match(c, snapshot).value, lo)
  {
    if snapshot.instrument in c.simulator.rules {
      MatchAllGrows(c, Candidates(c.simulator.orders, |c.simulator.orders|), snapshot,
                    c.simulator.rules[snapshot.instrument], lo);
    }
  }

  /** Marking and capturing the ledger, and scheduling the protective exit. */
  lemma {:induction false} BookkeepingGrows(c: Core, snapshot: MarketSnapshot, lo: int)
    requires snapshot.timestamp >= lo
    ensures Grows(c, c.(ledger := Mark(c.ledger, snapshot)), lo)
    ensures Grows(c, c.(ledger := Capture(c.ledger, snapshot.timestamp)), lo)
    ensures Grows(c, ProtectiveExit(c, snapshot).core, lo)
    ensures forall i :: 0 <= i < |ProtectiveExit(c, snapshot).pushes|
                        ==> MarketEvent(snapshot).Precedes(ProtectiveExit(c, snapshot).pushes[i])
  {
  }

  lemma {:induction false} GrowsTwice(a: Core, b: Core, c: Core, d: Core, lo: int)
    requires Grows(a, b, lo) && Grows(b, c, lo) && Grows(c, d, lo)
    ensures Grows(a, d, lo)
  {
    GrowsTransitively(a, b, c, lo);
    GrowsTransitively(a, c, d, lo);
  }

  lemma {:induction false} SettleGrows(c: Core, snapshot: MarketSnapshot, lo: int)
    requires snapshot.timestamp >= lo
    ensures Grows(c, Settle(c, snapshot).core, lo)
  {
    var exit := ProtectiveExit(c, snapshot);
    var liquidated := Liquidate(exit.core, snapshot.timestamp).core;
    assert Grows(c, exit.core, lo) by { BookkeepingGrows(c, snapshot, lo); }
    assert Grows(exit.core, liquidated, lo) by { LiquidateGrows(exit.core, snapshot.timestamp, lo); }
    assert Grows(liquidated, Settle(c, snapshot).core, lo) by { BookkeepingGrows(liquidated, snapshot, lo); }
    GrowsTwice(c, exit.core, liquidated, Settle(c, snapshot).core, lo);
  }

  lemma {:induction false} MarkAndMatchGrows(c: Core, snapshot: MarketSnapshot, lo: int)
    requires MarkAndMatch(c, snapshot).Success? && snapshot.timestamp >= lo
    ensures Grows(c, MarkAndMatch(c, snapshot).value, lo)
  {
    var start := c.(ledger := Mark(c.ledger, snapshot));
    var matched := Match(start, snapshot).value;
    assert Grows(c, start, lo) by { BookkeepingGrows(c, snapshot, lo); }
    assert Grows(start, matched, lo) by { MatchGrows(start, snapshot, lo); }
    assert Grows(matched, MarkAndMatch(c, snapshot).value, lo) by { BookkeepingGrows(matched, snapshot, lo); }
    GrowsTwice(c, start, matched, MarkAndMatch(c, snapshot).value, lo);
  }

  lemma {:induction false} SettlePushesLater(c: Core, snapshot: MarketSnapshot)
    ensures forall i :: 0 <= i < |Settle(c, snapshot).pushes| ==> MarketEvent(snapshot).Precedes(Settle(c, snapshot).pushes[i])
  {
    BookkeepingGrows(c, snapshot, snapshot.timestamp);
    LiquidateGrows(ProtectiveExit(c, snapshot).core, snapshot.timestamp, snapshot.timestamp);
  }

  lemma {:induction false} MarketGrows(c: Core, snapshot: MarketSnapshot, lo: int)
    requires OnMarket(c, snapshot).Success? && snapshot.timestamp >= lo
    ensures Grows(c, OnMarket(c, snapshot).value.core, lo)
    ensures forall i :: 0 <= i < |OnMarket(c, snapshot).value.pushes|
                        ==> MarketEvent(snapshot).Precedes(OnMarket(c, snapshot).value.pushes[i])
  {
    var matched := MarkAndMatch(c, snapshot).value;
    MarkAndMatchGrows(c, snapshot, lo);
    SettleGrows(matched, snapshot, lo);
    SettlePushesLater(matched, snapshot);
    GrowsTransitively(c, matched, Settle(matched, snapshot).core, lo);
  }

  lemma {:induction false} MarketIsCausal(c: Core, e: Event, lo: int)
    requires e.MarketEvent? && Handle(c, e).Success? && e.Timestamp() >= lo
    ensures Grows(c, Handle(c, e).value.core, lo)
    ensures forall i :: 0 <= i < |Handle(c, e).value.pushes| ==> e.Precedes(Handle(c, e).value.pushes[i])
  {
    var traced := c.(trace := c.trace + [TraceEntry(e.Timestamp(), KindOf(e))]);
    MarketGrows(traced, e.snapshot, lo);
    GrowsTransitively(c, traced, Handle(c, e).value.core, lo);
  }

  /**
   Processing an event writes only entries stamped with its own timestamp, and every event it
   pushes comes strictly after it in (timestamp, priority).
   */
  lemma {:induction false} HandleIsCausal(c: Core, e: Event, lo: int)
    requires Handle(c, e).Success? && e.Timestamp() >= lo
    ensures Grows(c, Handle(c, e).value.core, lo)
    ensures forall i :: 0 <= i < |Handle(c, e).value.pushes| ==> e.Precedes(Handle(c, e).value.pushes[i])
  {
    if e.MarketEvent? {
      MarketIsCausal(c, e, lo);
    }
  }

  // ---------- Order of processing ----------

  /** The queue entries that a run pops, in order. */
  ghost function Popped(s: State, processed: int, maximum: int, horizon: Option<int>): seq<Queued>
    decreases maximum - processed
  {
    if Done(s, horizon) || processed >= maximum then []
    else [s.queue.entries[0]] + if Step(s).Failure? then [] else Popped(Step(s).value, processed + 1, maximum, horizon)
  }

  ghost predicate AllAfter(x: Queued, q: seq<Queued>) {
    forall i :: 0 <= i < |q| ==> x.Before(q[i])
  }

  lemma {:induction false} PushAllAfter(x: Queued, queue: Queue, events: seq<Event>)
    requires WellFormed(queue) && AllAfter(x, queue.entries)
    requires forall i :: 0 <= i < |events| ==> x.event.Precedes(events[i])
    ensures AllAfter(x, PushAll(queue, events).entries)
    decreases |events|
  {
    if events != [] {
      var y := Queued(queue.sequence + 1, events[0]);
      var pushed := Push(queue, events[0]);
      PushKeepsWellFormed(queue, events[0]);
      forall i | 0 <= i < |pushed.entries|
        ensures x.Before(pushed.entries[i])
      {
        InsertMembers(queue.entries, y, pushed.entries[i]);
      }
      PushAllAfter(x, pushed, events[1..]);
    }
  }

  /** After a step the queue is well formed and everything in it comes after the popped event. */
  lemma {:induction false} StepPopsLeast(s: State)
    requires WellFormed(s.queue) && s.queue.entries != [] && Step(s).Success?
    ensures WellFormed(Step(s).value.queue)
    ensures AllAfter(s.queue.entries[0], Step(s).value.queue.entries)
  {
    var x := s.queue.entries[0];
    var rest := Queue(s.queue.entries[1..], s.queue.sequence);
    HandleIsCausal(s.core, x.event, x.event.Timestamp());
    TailKeepsWellFormed(s.queue);
    PushAllKeepsWellFormed(rest, Handle(s.core, x.event).value.pushes);
    PushAllAfter(x, rest, Handle(s.core, x.event).value.pushes);
  }

  lemma {:induction false} PoppedAfter(x: Queued, s: State, processed: int, maximum: int, horizon: Option<int>)
    requires WellFormed(s.queue) && AllAfter(x, s.queue.entries)
    ensures AllAfter(x, Popped(s, processed, maximum, horizon))
    decreases maximum - processed
  {
    if !Done(s, horizon) && processed < maximum && Step(s).Success? {
      var y := s.queue.entries[0];
      StepPopsLeast(s);
      forall i | 0 <= i < |Step(s).value.queue.entries|
        ensures x.Before(Step(s).value.queue.entries[i])
      {
        assert x.Before(y) && y.Before(Step(s).value.queue.entries[i]);
      }
      PoppedAfter(x, Step(s).value, processed + 1, maximum, horizon);
    }
  }

  /** Events are processed in strictly increasing (timestamp, priority, sequence), whatever is pushed on the way. */
  lemma {:induction false} ProcessedInOrder(s: State, processed: int, maximum: int, horizon: Option<int>)
    requires WellFormed(s.queue)
    ensures Sorted(Popped(s, processed, maximum, horizon))
    decreases maximum - processed
  {
    if !Done(s, horizon) && processed < maximum && Step(s).Success? {
      StepPopsLeast(s);
      PoppedAfter(s.queue.entries[0], Step(s).value, processed + 1, maximum, horizon);
      ProcessedInOrder(Step(s).value, processed + 1, maximum, horizon);
      SortedFrom(s.queue.entries[0], Popped(Step(s).value, processed + 1, maximum, horizon));
    }
  }

  // ---------- No look-ahead ----------

  /** A full run is the run up to `t` followed by the rest. */
  lemma {:induction false} RunSplits(s: State, processed: int, maximum: int, t: int)
    ensures var cut := Run(s, processed, maximum, Some(t));
            Run(s, processed, maximum, None)
            == if cut.Raised? then cut else Run(cut.state, cut.processed, maximum, None)
    decreases maximum - processed
  {
    if !Done(s, Some(t)) && processed < maximum && Step(s).Success? {
      RunSplits(Step(s).value, processed + 1, maximum, t);
    }
  }

  lemma {:induction false} StepWritesLater(s: State, t: int)
    requires WellFormed(s.queue) && s.queue.entries != [] && s.queue.entries[0].event.Timestamp() > t && Step(s).Success?
    ensures Grows(s.core, Step(s).value.core, t + 1)
    ensures WellFormed(Step(s).value.queue)
    ensures Step(s).value.queue.entries == [] || Step(s).value.queue.entries[0].event.Timestamp() > t
  {
    var s' := Step(s).value;
    HandleIsCausal(s.core, s.queue.entries[0].event, t + 1);
    StepPopsLeast(s);
    assert s'.queue.entries != [] ==> s.queue.entries[0].Before(s'.queue.entries[0]);
  }

  /** From a point where the next event is later than `t`, a run writes only entries later than `t`. */
  lemma {:induction false} RunWritesLater(s: State, processed: int, maximum: int, t: int)
    requires WellFormed(s.queue)
    requires s.queue.entries == [] || s.queue.entries[0].event.Timestamp() > t
    requires Run(s, processed, maximum, None).Stopped?
    ensures Grows(s.core, Run(s, processed, maximum, None).state.core, t + 1)
    decreases maximum - processed
  {
    if s.queue.entries != [] {
      var s' := Step(s).value;
      StepWritesLater(s, t);
      RunWritesLater(s', processed + 1, maximum, t);
      GrowsTransitively(s.core, s'.core, Run(s', processed + 1, maximum, None).state.core, t + 1);
    }
  }

  ghost predicate SameUpTo(a: Outcome, b: Outcome) {
    if a.Raised? then a == b else b.Stopped? && a.state.core == b.state.core && a.processed == b.processed
  }

  /** The head of the queue is the first event that is due. */
  lemma {:induction false} HeadIsDue(q: seq<Queued>, t: int)
    requires Sorted(q)
    ensures (q == [] || q[0].event.Timestamp() > t) <==> DueBy(q, t) == []
    ensures DueBy(q, t) != [] ==> q != [] && q[0].event == DueBy(q, t)[0] && DueBy(q[1..], t) == DueBy(q, t)[1..]
  {
    NothingDueLater(q, t);
  }

  lemma {:induction false} StepsAgree(a: State, b: State, t: int)
    requires WellFormed(a.queue) && WellFormed(b.queue) && a.core == b.core
    requires DueBy(a.queue.entries, t) == DueBy(b.queue.entries, t) != []
    ensures a.queue.entries != [] && b.queue.entries != []
    ensures Step(a).Failure? ==> Step(b) == Step(a)
    ensures Step(a).Success? ==> Step(b).Success? && Step(a).value.core == Step(b).value.core
    ensures Step(a).Success? ==> DueBy(Step(a).value.queue.entries, t) == DueBy(Step(b).value.queue.entries, t)
  {
    HeadIsDue(a.queue.entries, t);
    HeadIsDue(b.queue.entries, t);
    if Step(a).Success? {
      TailKeepsWellFormed(a.queue);
      TailKeepsWellFormed(b.queue);
      DueAfterPushAll(Queue(a.queue.entries[1..], a.queue.sequence), Queue(b.queue.entries[1..], b.queue.sequence),
                      Handle(a.core, a.queue.entries[0].event).value.pushes, t);
    }
  }

  lemma {:induction false} RunsAgree(a: State, b: State, processed: int, maximum: int, t: int)
    requires WellFormed(a.queue) && WellFormed(b.queue) && a.core == b.core
    requires DueBy(a.queue.entries, t) == DueBy(b.queue.entries, t)
    ensures SameUpTo(Run(a, processed, maximum, Some(t)), Run(b, processed, maximum, Some(t)))
    decreases maximum - processed
  {
    HeadIsDue(a.queue.entries, t);
    HeadIsDue(b.queue.entries, t);
    if !Done(a, Some(t)) && processed < maximum {
      StepsAgree(a, b, t);
      if Step(a).Success? {
        StepPopsLeast(a);
        StepPopsLeast(b);
        RunsAgree(Step(a).value, Step(b).value, processed + 1, maximum, t);
      }
    }
  }

  lemma {:induction false} RunKeepsWellFormed(s: State, processed: int, maximum: int, horizon: Option<int>)
    requires WellFormed(s.queue) && Run(s, processed, maximum, horizon).Stopped?
    ensures WellFormed(Run(s, processed, maximum, horizon).state.queue)
    ensures Done(Run(s, processed, maximum, horizon).state, horizon)
    decreases maximum - processed
  {
    if !Done(s, horizon) {
      StepPopsLeast(s);
      RunKeepsWellFormed(Step(s).value, processed + 1, maximum, horizon);
    }
  }

  /**
   No look-ahead. Two backtests that start alike and whose external events up to `t` are the same
   in the same order reach the same matcher, ledger, logs and counters when the next event lies
   beyond `t`, or raise the same error before; and whatever is queued beyond `t`, the rest of
   either run only appends log entries stamped later than `t`.
   */
  lemma {:induction false} NoLookAhead(core: Core, xs: seq<Event>, ys: seq<Event>, maximum: int, t: int)
    requires FilterDue(xs, t) == FilterDue(ys, t)
    ensures SameUpTo(Run(Load(core, xs), 0, maximum, Some(t)), Run(Load(core, ys), 0, maximum, Some(t)))
    ensures var cut, whole := Run(Load(core, xs), 0, maximum, Some(t)), Run(Load(core, xs), 0, maximum, None);
            && (cut.Raised? ==> whole == cut)
            && (whole.Stopped? ==> cut.Stopped? && Grows(cut.state.core, whole.state.core, t + 1))
  {
    var a, b := Load(core, xs), Load(core, ys);
    PushAllKeepsWellFormed(Queue([], 0), xs);
    PushAllKeepsWellFormed(Queue([], 0), ys);
    DueDependsOnFilter(Queue([], 0), Queue([], 0), xs, ys, t);
    RunsAgree(a, b, 0, maximum, t);
    RunSplits(a, 0, maximum, t);
    var cut, whole := Run(a, 0, maximum, Some(t)), Run(a, 0, maximum, None);
    if whole.Stopped? {
      RunKeepsWellFormed(a, 0, maximum, Some(t));
      RunWritesLater(cut.state, cut.processed, maximum, t);
    }
  }
}

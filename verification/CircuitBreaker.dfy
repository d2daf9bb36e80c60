/** The latching circuit breaker, and the history of trips that it stands for. */
module Breakers {
  import opened Common

  datatype HaltReason =
    | ManualKillSwitch | DailyLoss | WeeklyLoss | MaxDrawdown | ConsecutiveLosses | DataAnomaly
    | ApiUnhealthy | WebsocketDisconnected | PriceDivergence | SpreadAnomaly | Cooldown

  type Seconds = s: int | s > 0 witness 1

  datatype Trip = Trip(reason: HaltReason, at: int, manual: bool, cooldown: Seconds, detail: string) {
    function Ends(): int {
      at + cooldown
    }

    /** Does this trip still halt trading at time `t`? */
    predicate Holds(t: int) {
      manual || t < Ends()
    }
  }

  datatype Breaker = Breaker(
    reasons: set<HaltReason>,
    details: map<HaltReason, string>,
    trippedAt: Option<int>,
    resumeAt: Option<int>,
    manual: bool,
    lastResetAt: Option<int>)

  const Idle := Breaker({}, map[], None, None, false, None)

  function AddTrip(b: Breaker, trip: Trip): Breaker {
    Breaker(b.reasons + {trip.reason},
            if trip.detail != "" then b.details[trip.reason := trip.detail] else b.details,
            if b.trippedAt.None? || trip.at < b.trippedAt.value then Some(trip.at) else b.trippedAt,
            if b.manual || trip.manual then None
            else if b.resumeAt.None? || trip.Ends() > b.resumeAt.value then Some(trip.Ends())
            else b.resumeAt,
            b.manual || trip.manual,
            b.lastResetAt)
  }

  function Clear(at: int): Breaker {
    Idle.(lastResetAt := Some(at))
  }

  predicate Lapsed(b: Breaker, at: int) {
    b.reasons != {} && !b.manual && b.resumeAt.Some? && at >= b.resumeAt.value
  }

  /** What asking for the status at `at` leaves: a halt that has run out is cleared. */
  function Settle(b: Breaker, at: int): Breaker {
    if Lapsed(b, at) then Clear(at) else b
  }

  /** What happens to a breaker: a trip, a status call, a confirmed reset. */
  datatype Event = Tripped(trip: Trip) | Asked(at: int) | WasReset(at: int) {
    function Time(): int {
      match this
      case Tripped(trip) => trip.at
      case Asked(at) => at
      case WasReset(at) => at
    }
  }

  function After(b: Breaker, e: Event): Breaker {
    match e
    case Tripped(trip) => AddTrip(b, trip)
    case Asked(at) => Settle(b, at)
    case WasReset(at) => Clear(at)
  }

  function AfterAll(b: Breaker, events: seq<Event>): Breaker {
    if events == [] then b else After(AfterAll(b, events[..|events| - 1]), events[|events| - 1])
  }

  lemma {:induction false} AfterBoth(b: Breaker, first: seq<Event>, then_: seq<Event>)
    ensures AfterAll(b, first + then_) == AfterAll(AfterAll(b, first), then_)
    decreases |then_|
  {
    var all, n := first + then_, |then_| - 1;
    if then_ == [] {
      assert all == first;
    } else {
      assert all[..|all| - 1] == first + then_[..n];
      AfterBoth(b, first, then_[..n]);
    }
  }

  // ---------- The history behind a breaker ----------

  /** At time `at` none of the trips halts trading any more. */
  predicate Over(trips: seq<Trip>, at: int) {
    forall k :: 0 <= k < |trips| ==> !trips[k].Holds(at)
  }

  /** The trips since the last clear; asking clears trips that are all over. */
  function Standing(events: seq<Event>): seq<Trip> {
    if events == [] then []
    else
      var before := Standing(events[..|events| - 1]);
      match events[|events| - 1]
      case Tripped(trip) => before + [trip]
      case Asked(at) => if Over(before, at) then [] else before
      case WasReset(_) => []
  }

  /** The trips since the last confirmed reset, whatever status calls came between. */
  function SinceReset(events: seq<Event>): seq<Trip> {
    if events == [] then []
    else
      var before := SinceReset(events[..|events| - 1]);
      match events[|events| - 1]
      case Tripped(trip) => before + [trip]
      case Asked(_) => before
      case WasReset(_) => []
  }

  /** The trips that status calls have cleared since the last confirmed reset. */
  function Cleared(events: seq<Event>): seq<Trip> {
    if events == [] then []
    else
      var prior := events[..|events| - 1];
      match events[|events| - 1]
      case Tripped(_) => Cleared(prior)
      case Asked(at) => Cleared(prior) + if Over(Standing(prior), at) then Standing(prior) else []
      case WasReset(_) => []
  }

  ghost predicate Earliest(trips: seq<Trip>, t: Option<int>) {
    if t.None? then trips == []
    else (exists k :: 0 <= k < |trips| && trips[k].at == t.value) && forall k :: 0 <= k < |trips| ==> t.value <= trips[k].at
  }

  /** The last text given with a trip of the reason. */
  function LastDetail(trips: seq<Trip>, r: HaltReason): Option<string> {
    if trips == [] then None
    else
      var last := trips[|trips| - 1];
      if last.reason == r && last.detail != "" then Some(last.detail) else LastDetail(trips[..|trips| - 1], r)
  }

  function TextFor(b: Breaker, r: HaltReason): Option<string> {
    if r in b.details then Some(b.details[r]) else None
  }

  ghost predicate HasReason(trips: seq<Trip>, r: HaltReason) {
    exists k :: 0 <= k < |trips| && trips[k].reason == r
  }

  ghost predicate NeedsReset(trips: seq<Trip>) {
    exists k :: 0 <= k < |trips| && trips[k].manual
  }

  ghost predicate LatestEnd(trips: seq<Trip>, t: int) {
    (exists k :: 0 <= k < |trips| && trips[k].Ends() == t) && forall k :: 0 <= k < |trips| ==> trips[k].Ends() <= t
  }

  /** The breaker's fields say of its trips: their reasons and last texts, the first time, the last end, the need of a reset. */
  ghost predicate Refines(b: Breaker, trips: seq<Trip>) {
    && (forall r :: r in b.reasons <==> HasReason(trips, r))
    && (b.details.Keys <= b.reasons)
    && (forall r :: TextFor(b, r) == LastDetail(trips, r))
    && Earliest(trips, b.trippedAt)
    && (b.manual <==> NeedsReset(trips))
    && (b.resumeAt.None? <==> trips == [] || NeedsReset(trips))
    && (b.resumeAt.Some? ==> LatestEnd(trips, b.resumeAt.value))
  }

  lemma {:induction false} TripIsLast(trips: seq<Trip>, trip: Trip)
    ensures var all := trips + [trip];
            && (forall r :: HasReason(all, r) <==> r == trip.reason || HasReason(trips, r))
            && (NeedsReset(all) <==> NeedsReset(trips) || trip.manual)
  {
    var all := trips + [trip];
    assert all[|trips|] == trip;
    forall r | HasReason(trips, r)
      ensures HasReason(all, r)
    {
      var k :| 0 <= k < |trips| && trips[k].reason == r;
      assert all[k].reason == r;
    }
    if NeedsReset(trips) {
      var k :| 0 <= k < |trips| && trips[k].manual;
      assert all[k].manual;
    }
  }

  lemma {:induction false} TripTimes(b: Breaker, trips: seq<Trip>, trip: Trip)
    requires Refines(b, trips)
    ensures Earliest(trips + [trip], AddTrip(b, trip).trippedAt)
    ensures !NeedsReset(trips) && !trip.manual ==> LatestEnd(trips + [trip], AddTrip(b, trip).resumeAt.value)
  {
    var all, after := trips + [trip], AddTrip(b, trip);
    assert all[|trips|] == trip;
    if b.trippedAt.Some? {
      var k :| 0 <= k < |trips| && trips[k].at == b.trippedAt.value;
      assert all[k].at == b.trippedAt.value;
    }
    if !NeedsReset(trips) && !trip.manual && b.resumeAt.Some? {
      var k :| 0 <= k < |trips| && trips[k].Ends() == b.resumeAt.value;
      assert all[k].Ends() == b.resumeAt.value;
    }
  }

  lemma {:induction false} TripTexts(b: Breaker, trips: seq<Trip>, trip: Trip)
    requires forall r :: TextFor(b, r) == LastDetail(trips, r)
    ensures forall r :: TextFor(AddTrip(b, trip), r) == LastDetail(trips + [trip], r)
  {
    assert (trips + [trip])[..|trips|] == trips;
  }

  lemma {:induction false} TripRefines(b: Breaker, trips: seq<Trip>, trip: Trip)
    requires Refines(b, trips)
    ensures Refines(AddTrip(b, trip), trips + [trip])
  {
    TripIsLast(trips, trip);
    TripTimes(b, trips, trip);
    TripTexts(b, trips, trip);
  }

  /** The three fields the status reads decide what every trip of the history together decides. */
  lemma {:induction false} LapsedExactly(b: Breaker, trips: seq<Trip>, at: int)
    requires Refines(b, trips)
    ensures trips != [] ==> (Lapsed(b, at) <==> Over(trips, at))
    ensures trips == [] <==> b.reasons == {}
  {
    if trips != [] {
      assert trips[0].reason in b.reasons;
      if NeedsReset(trips) {
        var k :| 0 <= k < |trips| && trips[k].manual;
        assert trips[k].Holds(at);
      } else {
        var k :| 0 <= k < |trips| && trips[k].Ends() == b.resumeAt.value;
        assert Over(trips, at) ==> !trips[k].Holds(at);
      }
    }
  }

  /** Every run from an idle breaker: its fields are those of the trips since the last clear. */
  lemma {:induction false} RunRefines(events: seq<Event>)
    ensures Refines(AfterAll(Idle, events), Standing(events))
  {
    if events != [] {
      var before := events[..|events| - 1];
      var b, trips := AfterAll(Idle, before), Standing(before);
      RunRefines(before);
      match events[|events| - 1]
      case Tripped(trip) => TripRefines(b, trips, trip);
      case Asked(at) => LapsedExactly(b, trips, at);
      case WasReset(_) =>
    }
  }

  /** When trips were last cleared, by a confirmed reset or by a status call that found them all over. */
  function LastClear(events: seq<Event>): Option<int> {
    if events == [] then None
    else
      var prior := events[..|events| - 1];
      match events[|events| - 1]
      case Tripped(_) => LastClear(prior)
      case Asked(at) => if Standing(prior) != [] && Over(Standing(prior), at) then Some(at) else LastClear(prior)
      case WasReset(at) => Some(at)
  }

  /** Over every run the breaker remembers that time. */
  lemma {:induction false} RunRemembersClear(events: seq<Event>)
    ensures AfterAll(Idle, events).lastResetAt == LastClear(events)
  {
    if events != [] {
      var prior, last := events[..|events| - 1], events[|events| - 1];
      RunRemembersClear(prior);
      RunRefines(prior);
      if last.Asked? {
        LapsedExactly(AfterAll(Idle, prior), Standing(prior), last.at);
      }
    }
  }

  /** Over every run: the status at `at` is active if and only if some trip since the last clear still holds. */
  lemma {:induction false} ActiveExactly(events: seq<Event>, at: int)
    ensures Settle(AfterAll(Idle, events), at).reasons != {} <==> !Over(Standing(events), at)
  {
    RunRefines(events);
    LapsedExactly(AfterAll(Idle, events), Standing(events), at);
  }

  /** Event times never fall, and none is later than `now`. */
  predicate Ordered(events: seq<Event>, now: int) {
    && (forall i, j :: 0 <= i < j < |events| ==> events[i].Time() <= events[j].Time())
    && (forall i :: 0 <= i < |events| ==> events[i].Time() <= now)
  }

  /** Every trip since the last confirmed reset was cleared by a status call or still stands. */
  lemma {:induction false} ClearedOrStanding(events: seq<Event>)
    ensures SinceReset(events) == Cleared(events) + Standing(events)
  {
    if events != [] {
      ClearedOrStanding(events[..|events| - 1]);
    }
  }

  lemma {:induction false} OverBoth(a: seq<Trip>, b: seq<Trip>, at: int)
    ensures Over(a + b, at) <==> Over(a, at) && Over(b, at)
  {
    if Over(a + b, at) {
      forall k | 0 <= k < |a| ensures !a[k].Holds(at) {
        assert (a + b)[k] == a[k];
      }
      forall k | 0 <= k < |b| ensures !b[k].Holds(at) {
        assert (a + b)[|a| + k] == b[k];
      }
    }
  }

  /** Status calls clear no trip that needs a reset, and none later than `now` if all come by then. */
  lemma {:induction false} ClearedRanOut(events: seq<Event>)
    ensures forall k :: 0 <= k < |Cleared(events)| ==> !Cleared(events)[k].manual
    ensures forall now :: Ordered(events, now) ==> Over(Cleared(events), now)
  {
    if events != [] {
      var n := |events| - 1;
      ClearedRanOut(events[..n]);
      if events[n].Asked? && Over(Standing(events[..n]), events[n].at) {
        var standing, at := Standing(events[..n]), events[n].at;
        assert forall k :: 0 <= k < |standing| ==> !standing[k].Holds(at);
        forall now | Ordered(events, now)
          ensures Over(Cleared(events), now)
        {
          assert events[n].Time() <= now && Ordered(events[..n], now);
          assert Over(standing, now) by {
            forall k | 0 <= k < |standing| ensures !standing[k].Holds(now) {
              assert !standing[k].Holds(at);
            }
          }
          OverBoth(Cleared(events[..n]), standing, now);
        }
      } else {
        forall now | Ordered(events, now)
          ensures Over(Cleared(events), now)
        {
          assert Ordered(events[..n], now);
        }
      }
    }
  }

  /** `now` lies before the end of a trip that a later status call has cleared, and nothing else halts at `now`. */
  ghost predicate AsksTooEarly(events: seq<Event>, now: int) {
    Over(Standing(events), now) && exists k :: 0 <= k < |Cleared(events)| && now < Cleared(events)[k].Ends()
  }

  /** The status agrees with the trips since the last confirmed reset, cleared or not, exactly when it
      is not asked too early. */
  lemma {:induction false} AgreesWithResetsExactly(events: seq<Event>, now: int)
    ensures (Settle(AfterAll(Idle, events), now).reasons != {} <==> !Over(SinceReset(events), now))
            <==> !AsksTooEarly(events, now)
  {
    ActiveExactly(events, now);
    ClearedOrStanding(events);
    OverBoth(Cleared(events), Standing(events), now);
    ClearedRanOut(events);
    if Over(Cleared(events), now) {
      forall k | 0 <= k < |Cleared(events)| ensures Cleared(events)[k].Ends() <= now {
        assert !Cleared(events)[k].Holds(now);
      }
    }
  }

  /** With a clock that never runs backwards it is never too early: the status is active if and only if
      some trip since the last confirmed reset needs a reset or has not run out. */
  lemma {:induction false} LazyClearingIsInvisible(events: seq<Event>, now: int)
    requires Ordered(events, now)
    ensures Settle(AfterAll(Idle, events), now).reasons != {} <==> !Over(SinceReset(events), now)
  {
    AgreesWithResetsExactly(events, now);
    ClearedRanOut(events);
    assert forall k :: 0 <= k < |Cleared(events)| ==> !Cleared(events)[k].Holds(now);
  }

  const Late := Trip(DailyLoss, 0, false, 60, "")

  /** With a clock that does run backwards it can be seen: the early trip still holds at 10 but is gone. */
  lemma {:induction false} ClearedTooEarly()
    ensures var events := [Tripped(Late), Asked(100)];
            && Settle(AfterAll(Idle, events), 10).reasons == {}
            && !Over(SinceReset(events), 10)
  {
    var events := [Tripped(Late), Asked(100)];
    assert events[..1] == [Tripped(Late)] && [Tripped(Late)][..0] == [];
    assert AfterAll(Idle, [Tripped(Late)]) == AddTrip(Idle, Late);
    assert AfterAll(Idle, events) == Settle(AddTrip(Idle, Late), 100);
    assert SinceReset([Tripped(Late)]) == [] + [Late] == [Late];
    assert SinceReset(events) == [Late] && [Late][0].Holds(10);
  }

  // ---------- Latching ----------

  /** The breaker halts trading at every time up to `t`. */
  predicate Halts(b: Breaker, t: int) {
    b.reasons != {} && (b.manual || (b.resumeAt.Some? && t < b.resumeAt.value))
  }

  /** No trip and no status call up to `t` lifts a halt; only a confirmed reset does. */
  lemma {:induction false} HaltIsKept(b: Breaker, events: seq<Event>, t: int)
    requires Halts(b, t)
    requires forall k :: 0 <= k < |events| ==> !events[k].WasReset? && (b.manual || events[k].Time() <= t)
    ensures Halts(AfterAll(b, events), t) && (b.manual ==> AfterAll(b, events).manual)
    decreases |events|
  {
    if events != [] {
      HaltIsKept(b, events[..|events| - 1], t);
    }
  }
}

module BreakerObjects {
  import opened Common
  import opened Breakers

  const ResetConfirmation := "RESET_KILL_SWITCH"

  class CircuitBreaker {
    const defaultCooldown: Seconds
    var reasons: set<HaltReason>
    var details: map<HaltReason, string>
    var trippedAt: Option<int>
    var resumeAt: Option<int>
    var manualResetRequired: bool
    var lastResetAt: Option<int>

    function State(): Breaker
      reads this
    {
      Breaker(reasons, details, trippedAt, resumeAt, manualResetRequired, lastResetAt)
    }

    constructor (defaultCooldown: Seconds)
      ensures this.defaultCooldown == defaultCooldown && State() == Idle
    {
      this.defaultCooldown := defaultCooldown;
      reasons, details, trippedAt, resumeAt, manualResetRequired, lastResetAt := {}, map[], None, None, false, None;
    }

    /** A cooldown that is not positive is refused and changes nothing. */
    method Trip(reason: HaltReason, at: int, manual: bool, cooldownSeconds: Option<int>, detail: string) returns (ok: bool)
      modifies this
      ensures ok <==> cooldownSeconds.GetOr(defaultCooldown) > 0
      ensures !ok ==> State() == old(State())
      ensures ok ==> State() == After(old(State()), Tripped(Breakers.Trip(reason, at, manual, cooldownSeconds.GetOr(defaultCooldown), detail)))
    {
      var cooldown := cooldownSeconds.GetOr(defaultCooldown);
      if cooldown <= 0 {
        return false;
      }
      reasons := reasons + {reason};
      if detail != "" {
        details := details[reason := detail];
      }
      if trippedAt.None? || at < trippedAt.value {
        trippedAt := Some(at);
      }
      manualResetRequired := manualResetRequired || manual;
      if manualResetRequired {
        resumeAt := None;
        return true;
      }
      var candidate := at + cooldown;
      if resumeAt.None? || candidate > resumeAt.value {
        resumeAt := Some(candidate);
      }
      return true;
    }

    method ClearAt(at: int)
      modifies this
      ensures State() == Clear(at)
    {
      reasons, details, trippedAt, resumeAt, manualResetRequired := {}, map[], None, None, false;
      lastResetAt := Some(at);
    }

    method Status(at: int) returns (active: bool)
      modifies this
      ensures State() == After(old(State()), Asked(at))
      ensures active <==> reasons != {}
    {
      if reasons != {} && !manualResetRequired && resumeAt.Some? && at >= resumeAt.value {
        ClearAt(at);
      }
      return reasons != {};
    }

    method Reset(confirmation: string, at: int) returns (ok: bool)
      modifies this
      ensures ok <==> confirmation == ResetConfirmation
      ensures State() == if ok then After(old(State()), WasReset(at)) else old(State())
    {
      if confirmation != ResetConfirmation {
        return false;
      }
      ClearAt(at);
      return true;
    }
  }
}

/**
 Backtest events and the queue that orders them by (timestamp, priority, push sequence).

 `Queue` is the simple form: a sorted sequence with stable insertion. `EventQueue` is the object
 of the program: an unordered heap from which the least entry is popped. It refines `Queue`.
 */
module Events {
  import opened Common
  import opened Execution

  datatype Signal_ = Signal(
    timestamp: int,
    signalId: string,
    instrument: Instrument,
    side: Side,
    quantity: real,
    orderType: OrderType,
    timeInForce: TimeInForce,
    limitPrice: Option<real>,
    calculationDelay: int,
    submissionDelay: int,
    postOnly: bool,
    reduceOnly: bool,
    expiresAt: Option<int>,
    stopLoss: Option<real>,
    takeProfit: Option<real>)
  {
    predicate Valid() {
      && signalId != []
      && quantity > 0.0
      && calculationDelay >= 0 && submissionDelay >= 0
      && orderType.Limit? == limitPrice.Some?
      && (expiresAt.Some? ==> expiresAt.value > timestamp + calculationDelay + submissionDelay)
    }
  }

  type Signal = s: Signal_ | s.Valid()
    witness Signal(0, "s", Instrument("", ""), Buy, 1.0, Market, Gtc, None, 0, 0, false, false, None, None, None)

  datatype Event_ =
    | MarketEvent(snapshot: MarketSnapshot)
    | FundingEvent(at: int, instrument: Instrument, rate: real, mark: real)
    | SignalEvent(signal: Signal)
    | OrderCreationEvent(at: int, signal: Signal)
    | OrderSubmissionEvent(at: int, order: Order)
  {
    predicate Valid() {
      && (FundingEvent? ==> mark > 0.0)
      && (OrderSubmissionEvent? ==> order.Fresh())
    }

    function Timestamp(): int {
      match this
      case MarketEvent(s) => s.timestamp
      case SignalEvent(s) => s.timestamp
      case FundingEvent(at, _, _, _) => at
      case OrderCreationEvent(at, _) => at
      case OrderSubmissionEvent(at, _) => at
    }

    /** Market data wins ties, so a signal cannot consume its own source event. */
    function Priority(): int {
      match this
      case MarketEvent(_) => 10
      case FundingEvent(_, _, _, _) => 20
      case SignalEvent(_) => 30
      case OrderCreationEvent(_, _) => 40
      case OrderSubmissionEvent(_, _) => 50
    }

    /** The order on (timestamp, priority) alone. */
    predicate Precedes(other: Event_) {
      Timestamp() < other.Timestamp() || (Timestamp() == other.Timestamp() && Priority() < other.Priority())
    }
  }

  type Event = e: Event_ | e.Valid()
    witness MarketEvent(MarketSnapshot(Instrument("", ""), 0, 1.0, 2.0, 0.0, 0.0, None, None, None))

  /** At equal times market data comes first, then funding, then the life of an order from signal to submission. */
  lemma {:induction false} TieOrder(a: Event, b: Event)
    requires a.Timestamp() == b.Timestamp()
    ensures a.MarketEvent? ==> (a.Precedes(b) <==> !b.MarketEvent?)
    ensures a.FundingEvent? ==> (a.Precedes(b) <==> !b.MarketEvent? && !b.FundingEvent?)
    ensures a.SignalEvent? ==> (a.Precedes(b) <==> b.OrderCreationEvent? || b.OrderSubmissionEvent?)
    ensures a.OrderCreationEvent? ==> (a.Precedes(b) <==> b.OrderSubmissionEvent?)
    ensures a.OrderSubmissionEvent? ==> !a.Precedes(b)
  {
  }

  datatype Queued = Queued(sequence: nat, event: Event) {
    /** The order of the heap: timestamp, then priority, then push sequence. */
    predicate Before(other: Queued) {
      || event.Precedes(other.event)
      || (event.Timestamp() == other.event.Timestamp() && event.Priority() == other.event.Priority() && sequence < other.sequence)
    }
  }

  // ---------- The simple queue ----------

  datatype Queue = Queue(entries: seq<Queued>, sequence: nat)

  ghost predicate Sorted(q: seq<Queued>) {
    forall i, j :: 0 <= i < j < |q| ==> q[i].Before(q[j])
  }

  ghost predicate WellFormed(queue: Queue) {
    && Sorted(queue.entries)
    && forall i :: 0 <= i < |queue.entries| ==> queue.entries[i].sequence <= queue.sequence
  }

  /** Stable insertion: behind every entry that does not come strictly later. */
  function Insert(q: seq<Queued>, x: Queued): seq<Queued> {
    if q == [] then [x]
    else if x.event.Precedes(q[0].event) then [x] + q
    else [q[0]] + Insert(q[1..], x)
  }

  function Push(queue: Queue, e: Event): Queue {
    Queue(Insert(queue.entries, Queued(queue.sequence + 1, e)), queue.sequence + 1)
  }

  function PushAll(queue: Queue, events: seq<Event>): Queue
    decreases |events|
  {
    if events == [] then queue else PushAll(Push(queue, events[0]), events[1..])
  }

  lemma {:induction false} InsertAddsOne(q: seq<Queued>, x: Queued)
    ensures multiset(Insert(q, x)) == multiset(q) + multiset{x}
  {
    if q != [] && !x.event.Precedes(q[0].event) {
      var rest := Insert(q[1..], x);
      InsertAddsOne(q[1..], x);
      assert multiset(q) == multiset{q[0]} + multiset(q[1..]) by { assert q == [q[0]] + q[1..]; }
      assert multiset([q[0]] + rest) == multiset{q[0]} + multiset(rest);
    }
  }

  lemma {:induction false} InsertMembers(q: seq<Queued>, x: Queued, y: Queued)
    requires y in Insert(q, x)
    ensures y in q || y == x
  {
    InsertAddsOne(q, x);
    assert y in multiset(Insert(q, x));
  }

  lemma {:induction false} SortedFrom(head: Queued, rest: seq<Queued>)
    requires Sorted(rest)
    requires forall j :: 0 <= j < |rest| ==> head.Before(rest[j])
    ensures Sorted([head] + rest)
  {
  }

  lemma {:induction false} InsertKeepsSorted(q: seq<Queued>, x: Queued)
    requires Sorted(q)
    requires forall i :: 0 <= i < |q| ==> q[i].sequence < x.sequence
    ensures Sorted(Insert(q, x))
  {
    if q == [] {
    } else if x.event.Precedes(q[0].event) {
      forall j | 0 <= j < |q|
        ensures x.Before(q[j])
      {
        assert j > 0 ==> q[0].Before(q[j]);
      }
      SortedFrom(x, q);
    } else {
      var r := Insert(q[1..], x);
      InsertKeepsSorted(q[1..], x);
      assert q[0].Before(x);
      forall j | 0 <= j < |r|
        ensures q[0].Before(r[j])
      {
        InsertMembers(q[1..], x, r[j]);
      }
      SortedFrom(q[0], r);
    }
  }

  lemma {:induction false} PushKeepsWellFormed(queue: Queue, e: Event)
    requires WellFormed(queue)
    ensures WellFormed(Push(queue, e))
    ensures multiset(Push(queue, e).entries) == multiset(queue.entries) + multiset{Queued(queue.sequence + 1, e)}
  {
    var x := Queued(queue.sequence + 1, e);
    var r := Push(queue, e).entries;
    InsertKeepsSorted(queue.entries, x);
    InsertAddsOne(queue.entries, x);
    forall i | 0 <= i < |r|
      ensures r[i].sequence <= queue.sequence + 1
    {
      InsertMembers(queue.entries, x, r[i]);
    }
  }

  lemma {:induction false} PushAllKeepsWellFormed(queue: Queue, events: seq<Event>)
    requires WellFormed(queue)
    ensures WellFormed(PushAll(queue, events))
    decreases |events|
  {
    if events != [] {
      PushKeepsWellFormed(queue, events[0]);
      PushAllKeepsWellFormed(Push(queue, events[0]), events[1..]);
    }
  }

  lemma {:induction false} TailKeepsWellFormed(queue: Queue)
    requires WellFormed(queue) && queue.entries != []
    ensures WellFormed(Queue(queue.entries[1..], queue.sequence))
  {
  }

  // ---------- What a queue holds up to a time ----------

  /** The events due by `t`, in the order they will be popped. */
  function DueBy(q: seq<Queued>, t: int): seq<Event> {
    if q == [] then []
    else (if q[0].event.Timestamp() <= t then [q[0].event] else []) + DueBy(q[1..], t)
  }

  /** The sub-list of external events due by `t`. */
  function FilterDue(events: seq<Event>, t: int): seq<Event> {
    if events == [] then []
    else (if events[0].Timestamp() <= t then [events[0]] else []) + FilterDue(events[1..], t)
  }

  function InsertEvent(events: seq<Event>, e: Event): seq<Event> {
    if events == [] then [e]
    else if e.Precedes(events[0]) then [e] + events
    else [events[0]] + InsertEvent(events[1..], e)
  }

  lemma {:induction false} NothingDueLater(q: seq<Queued>, t: int)
    requires Sorted(q)
    ensures DueBy(q, t) == [] <==> (q == [] || q[0].event.Timestamp() > t)
  {
    if q != [] && q[0].event.Timestamp() > t {
      if |q| > 1 {
        assert q[0].Before(q[1]);
      }
      NothingDueLater(q[1..], t);
    }
  }

  /** Sequence numbers do not matter for what is due: insertion commutes with the cut at `t`. */
  lemma {:induction false} DueAfterInsert(q: seq<Queued>, x: Queued, t: int)
    requires Sorted(q)
    ensures DueBy(Insert(q, x), t)
            == if x.event.Timestamp() <= t then InsertEvent(DueBy(q, t), x.event) else DueBy(q, t)
  {
    if q == [] {
    } else if x.event.Precedes(q[0].event) {
      NothingDueLater(q, t);
      assert ([x] + q)[1..] == q;
    } else {
      DueAfterInsert(q[1..], x, t);
      assert ([q[0]] + Insert(q[1..], x))[1..] == Insert(q[1..], x);
      NothingDueLater(q, t);
    }
  }

  lemma {:induction false} DueAfterPush(a: Queue, b: Queue, e: Event, t: int)
    requires WellFormed(a) && WellFormed(b)
    requires DueBy(a.entries, t) == DueBy(b.entries, t)
    ensures WellFormed(Push(a, e)) && WellFormed(Push(b, e))
    ensures DueBy(Push(a, e).entries, t) == DueBy(Push(b, e).entries, t)
  {
    assert WellFormed(Push(a, e)) by { PushKeepsWellFormed(a, e); }
    assert WellFormed(Push(b, e)) by { PushKeepsWellFormed(b, e); }
    DueAfterInsert(a.entries, Queued(a.sequence + 1, e), t);
    DueAfterInsert(b.entries, Queued(b.sequence + 1, e), t);
  }

  lemma {:induction false} LaterPushIsNotDue(a: Queue, e: Event, t: int)
    requires WellFormed(a) && e.Timestamp() > t
    ensures WellFormed(Push(a, e)) && DueBy(Push(a, e).entries, t) == DueBy(a.entries, t)
  {
    assert WellFormed(Push(a, e)) by { PushKeepsWellFormed(a, e); }
    var x := Queued(a.sequence + 1, e);
    assert DueBy(Insert(a.entries, x), t) == DueBy(a.entries, t) by { DueAfterInsert(a.entries, x, t); }
  }

  /** Two queues that agree on what is due by `t` still agree after the same pushes. */
  lemma {:induction false} DueAfterPushAll(a: Queue, b: Queue, events: seq<Event>, t: int)
    requires WellFormed(a) && WellFormed(b)
    requires DueBy(a.entries, t) == DueBy(b.entries, t)
    ensures DueBy(PushAll(a, events).entries, t) == DueBy(PushAll(b, events).entries, t)
    decreases |events|
  {
    if events != [] {
      DueAfterPush(a, b, events[0], t);
      DueAfterPushAll(Push(a, events[0]), Push(b, events[0]), events[1..], t);
    }
  }

  /** Events later than `t` leave no trace in what is due by `t`. */
  lemma {:induction false} DueDependsOnFilter(a: Queue, b: Queue, xs: seq<Event>, ys: seq<Event>, t: int)
    requires WellFormed(a) && WellFormed(b) && DueBy(a.entries, t) == DueBy(b.entries, t)
    requires FilterDue(xs, t) == FilterDue(ys, t)
    ensures DueBy(PushAll(a, xs).entries, t) == DueBy(PushAll(b, ys).entries, t)
    decreases |xs| + |ys|
  {
    if xs != [] && xs[0].Timestamp() > t {
      LaterPushIsNotDue(a, xs[0], t);
      DueDependsOnFilter(Push(a, xs[0]), b, xs[1..], ys, t);
    } else if ys != [] && ys[0].Timestamp() > t {
      LaterPushIsNotDue(b, ys[0], t);
      DueDependsOnFilter(a, Push(b, ys[0]), xs, ys[1..], t);
    } else if xs != [] && ys != [] {
      assert xs[0] == FilterDue(xs, t)[0] == FilterDue(ys, t)[0] == ys[0];
      assert FilterDue(xs[1..], t) == FilterDue(xs, t)[1..] == FilterDue(ys, t)[1..] == FilterDue(ys[1..], t);
      DueAfterPush(a, b, xs[0], t);
      DueDependsOnFilter(Push(a, xs[0]), Push(b, ys[0]), xs[1..], ys[1..], t);
    }
  }
}

/** The queue object of the program. */
module EventQueues {
  import opened Events

  class EventQueue {
    var heap: seq<Queued>
    var sequence: nat
    ghost var contents: seq<Queued>

    ghost predicate Valid()
      reads this
    {
      multiset(heap) == multiset(contents) && WellFormed(Queue(contents, sequence))
    }

    ghost function State(): Queue
      reads this
    {
      Queue(contents, sequence)
    }

    constructor ()
      ensures Valid() && State() == Queue([], 0)
    {
      heap, sequence, contents := [], 0, [];
    }

    method Push(e: Event)
      requires Valid()
      modifies this
      ensures Valid() && State() == Events.Push(old(State()), e)
    {
      ghost var pushed := Events.Push(State(), e);
      PushKeepsWellFormed(State(), e);
      sequence := sequence + 1;
      heap := heap + [Queued(sequence, e)];
      contents := pushed.entries;
      assert State() == pushed;
    }

    predicate IsEmpty()
      reads this
    {
      heap == []
    }

    /** Popping the least heap entry removes the head of the sorted queue. */
    method Pop() returns (e: Event)
      requires Valid() && heap != []
      modifies this
      ensures Valid()
      ensures old(contents) != [] && e == old(contents)[0].event
      ensures State() == Queue(old(contents)[1..], old(sequence))
    {
      var least := 0;
      for i := 1 to |heap|
        invariant 0 <= least < |heap|
        invariant forall j :: 0 <= j < i ==> !heap[j].Before(heap[least])
      {
        if heap[i].Before(heap[least]) {
          least := i;
        }
      }
      LeastIsHead(heap, contents, least);
      e := heap[least].event;
      RemoveSame(heap, contents, least);
      TailKeepsWellFormed(State());
      heap := heap[..least] + heap[least + 1..];
      contents := contents[1..];
    }
  }

  lemma {:induction false} RemoveSame(heap: seq<Queued>, contents: seq<Queued>, least: nat)
    requires multiset(heap) == multiset(contents) && least < |heap|
    requires contents != [] && contents[0] == heap[least]
    ensures multiset(heap[..least] + heap[least + 1..]) == multiset(contents[1..])
  {
    assert heap == heap[..least] + [heap[least]] + heap[least + 1..];
    assert contents == [contents[0]] + contents[1..];
    var rest := heap[..least] + heap[least + 1..];
    assert multiset(heap) == multiset(rest) + multiset{heap[least]};
    assert multiset(contents) == multiset(contents[1..]) + multiset{contents[0]};
    assert multiset(rest) == multiset(heap) - multiset{heap[least]};
    assert multiset(contents[1..]) == multiset(contents) - multiset{contents[0]};
  }

  lemma {:induction false} LeastIsHead(heap: seq<Queued>, contents: seq<Queued>, least: nat)
    requires multiset(heap) == multiset(contents) && Sorted(contents)
    requires least < |heap|
    requires forall j :: 0 <= j < |heap| ==> !heap[j].Before(heap[least])
    ensures contents != [] && heap[least] == contents[0]
  {
    assert heap[least] in multiset(heap);
    assert heap[least] in contents;
    assert contents[0] in multiset(contents);
    assert contents[0] in heap;
  }
}

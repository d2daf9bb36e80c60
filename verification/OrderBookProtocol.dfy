/**
 The message loop of an order-book stream without a REST loader, over any number of reconnects.
 One book is shared by all connections; each connection has its own sequences, buffer and digests.
 */
module OrderBookProtocol {
  import opened Common
  import opened OrderBook

  datatype ReconciliationState =
    | Disconnected | WaitingForSnapshot | BufferingDeltas | ApplyingSnapshot | ReplayingDeltas | GapDetected
    | SnapshotLoading | DeltaReplaying | Synchronized | Degraded

  datatype Config = Config(maximumBuffered: nat, cacheSize: nat)

  /**
   `base`, `replayed` and `live` record which snapshot and deltas the book was last built from;
   they are bookkeeping for the proofs and influence nothing.
   */
  datatype Session = Session(
    connected: bool,
    book: Book,
    state: ReconciliationState,
    previous: Option<int>,
    snapshotSequence: Option<int>,
    buffered: seq<Buffered>,
    digests: seq<nat>,
    base: Option<Snapshot>,
    replayed: seq<Delta>,
    live: seq<Delta>)

  const Initial := Session(false, EmptyBook, Disconnected, None, None, [], [], None, [], [])

  datatype Error =
    | InvalidSnapshot | MissingSequence | ReplayGap | BufferOverflow | SequenceGap | UnknownPayload

  datatype Output =
    | Nothing
    | Yield(book: Book, state: ReconciliationState, snapshotSequence: Option<int>)
    | Lost(error: Error)

  datatype Input = Connect | Receive(digest: nat, message: Message)

  /** A new connection starts from nothing, except that the shared book keeps its content. */
  function Reconnect(s: Session): Session {
    Session(true, s.book, WaitingForSnapshot, None, None, [], [], None, [], [])
  }

  /** The most recent distinct digests, at most `cacheSize` of them. */
  function Remember(digests: seq<nat>, digest: nat, cacheSize: nat): seq<nat> {
    (if |digests| >= cacheSize && digests != [] then digests[1..] else digests) + [digest]
  }

  function BufferDelta(config: Config, s: Session, d: Delta): (Session, Option<Error>) {
    if d.sequence.None? then (s, Some(MissingSequence))
    else if |s.buffered| >= config.maximumBuffered then (s.(state := Degraded), Some(BufferOverflow))
    else (s.(state := BufferingDeltas, buffered := s.buffered + [Buffered(d.sequence.value, d)]), None)
  }

  function ApplyStreamSnapshot(s: Session, snapshot: Snapshot): (Session, Option<Error>) {
    if !snapshot.accepted then (s.(state := Degraded), Some(InvalidSnapshot))
    else if snapshot.sequence.None? then (s.(state := Degraded, book := ApplySnapshot(snapshot)), Some(MissingSequence))
    else
      var r := ReplayStream(Replay(ApplySnapshot(snapshot), snapshot.sequence, [], true), SortBySequence(s.buffered));
      var replayed := s.(book := r.book, previous := r.previous, snapshotSequence := snapshot.sequence,
                         base := Some(snapshot), replayed := r.applied, live := []);
      if !r.ok then (replayed.(state := Degraded), Some(ReplayGap))
      else (replayed.(state := Synchronized, buffered := []), None)
  }

  function Raise(s: Session, error: Error): (Session, Output) {
    (s.(connected := false), Lost(error))
  }

  function Emit(s: Session): (Session, Output) {
    (s, Yield(s.book, s.state, s.snapshotSequence))
  }

  function OnSnapshot(s: Session, snapshot: Snapshot): (Session, Output) {
    var (s', error) := ApplyStreamSnapshot(s, snapshot);
    if error.Some? then Raise(s', error.value)
    // The loop sets the sequence back to the snapshot's own, also after a replay.
    else Emit(s'.(previous := snapshot.sequence))
  }

  function OnDelta(config: Config, s: Session, d: Delta): (Session, Output) {
    if s.state != Synchronized then
      var (s', error) := BufferDelta(config, s, d);
      if error.Some? then Raise(s', error.value) else (s', Nothing)
    else if !IsContiguous(s.previous, d) then
      if d.sequence.None? then Raise(s, MissingSequence)
      else
        var (s', error) := BufferDelta(config, s.(state := GapDetected), d);
        Raise(s', if error.Some? then error.value else SequenceGap)
    else
      Emit(s.(book := ApplyDelta(s.book, d), previous := d.sequence, live := s.live + [d]))
  }

  function Step(config: Config, s: Session, input: Input): (Session, Output) {
    match input
    case Connect => (Reconnect(s), Nothing)
    case Receive(digest, message) =>
      if !s.connected || digest in s.digests then (s, Nothing)
      else
        var s' := s.(digests := Remember(s.digests, digest, config.cacheSize));
        match message
        case SnapshotMessage(snapshot) => OnSnapshot(s', snapshot)
        case DeltaMessage(d) => OnDelta(config, s', d)
        case OtherMessage => Raise(s', UnknownPayload)
  }

  function Run(config: Config, inputs: seq<Input>): Session {
    if inputs == [] then Initial
    else Step(config, Run(config, inputs[..|inputs| - 1]), inputs[|inputs| - 1]).0
  }

  /** The messages of the current connection. */
  function SinceConnect(inputs: seq<Input>): seq<Message> {
    if inputs == [] then []
    else match inputs[|inputs| - 1]
         case Connect => []
         case Receive(_, m) => SinceConnect(inputs[..|inputs| - 1]) + [m]
  }

  // ---------- Invariant ----------

  ghost predicate FromConnection(deltas: seq<Delta>, received: seq<Message>) {
    forall i :: 0 <= i < |deltas| ==> DeltaMessage(deltas[i]) in received
  }

  /**
   A book explained by one snapshot and deltas of the connection: a gap-free replay behind the
   snapshot, and live deltas that continue from the snapshot's own sequence.
   */
  ghost predicate Explained(book: Book, base: Snapshot, replayed: seq<Delta>, live: seq<Delta>, received: seq<Message>) {
    && base.sequence.Some? && SnapshotMessage(base) in received
    && FromConnection(replayed, received) && FromConnection(live, received)
    && GapFree(base.sequence, replayed) && GapFree(base.sequence, live)
    && book == Fold(Fold(ApplySnapshot(base), replayed), live)
  }

  ghost predicate BufferOk(buffered: seq<Buffered>, received: seq<Message>) {
    forall i :: 0 <= i < |buffered| ==> buffered[i].Valid() && DeltaMessage(buffered[i].delta) in received
  }

  ghost predicate SynchronizedOk(s: Session, received: seq<Message>) {
    && s.buffered == [] && s.base.Some?
    && s.snapshotSequence == s.base.value.sequence
    && s.previous == Reached(s.base.value.sequence, s.live)
    && Explained(s.book, s.base.value, s.replayed, s.live, received)
  }

  ghost predicate Inv(s: Session, received: seq<Message>) {
    && BufferOk(s.buffered, received)
    && (s.connected && s.state == Synchronized ==> SynchronizedOk(s, received))
  }

  lemma {:induction false} InvGrows(s: Session, received: seq<Message>, m: Message)
    requires Inv(s, received)
    ensures Inv(s, received + [m])
  {
  }

  lemma {:induction false} SortedBufferIsValid(buffered: seq<Buffered>, received: seq<Message>)
    requires BufferOk(buffered, received)
    ensures BufferOk(SortBySequence(buffered), received)
  {
    var sorted := SortBySequence(buffered);
    forall i | 0 <= i < |sorted|
      ensures sorted[i].Valid() && DeltaMessage(sorted[i].delta) in received
    {
      SortMembers(buffered, sorted[i]);
      assert sorted[i] in sorted;
      var k :| 0 <= k < |buffered| && buffered[k] == sorted[i];
    }
  }

  lemma {:induction false} SnapshotKeepsInv(s: Session, snapshot: Snapshot, received: seq<Message>)
    requires Inv(s, received) && SnapshotMessage(snapshot) in received
    ensures Inv(OnSnapshot(s, snapshot).0, received)
  {
    if snapshot.accepted && snapshot.sequence.Some? {
      var start := Replay(ApplySnapshot(snapshot), snapshot.sequence, [], true);
      var sorted := SortBySequence(s.buffered);
      var r := ReplayStream(start, sorted);
      SortedBufferIsValid(s.buffered, received);
      ReplayStreamExplains(ApplySnapshot(snapshot), snapshot.sequence, start, sorted);
      ReplayStreamDraws(start, sorted);
      forall i | 0 <= i < |r.applied|
        ensures DeltaMessage(r.applied[i]) in received
      {
        var d := r.applied[i];
        assert d in r.applied;
        var k :| 0 <= k < |sorted| && sorted[k].delta == d;
      }
    }
  }

  lemma {:induction false} DeltaKeepsInv(config: Config, s: Session, d: Delta, received: seq<Message>)
    requires Inv(s, received) && s.connected && DeltaMessage(d) in received
    ensures Inv(OnDelta(config, s, d).0, received)
  {
    if s.state == Synchronized && IsContiguous(s.previous, d) {
      GapFreeAppend(s.base.value.sequence, s.live, d);
      FoldAppend(Fold(ApplySnapshot(s.base.value), s.replayed), s.live, d);
    }
  }

  lemma {:induction false} StepKeepsInv(config: Config, s: Session, input: Input, received: seq<Message>)
    requires Inv(s, received)
    ensures Inv(Step(config, s, input).0, if input.Connect? then [] else received + [input.message])
  {
    if input.Receive? {
      InvGrows(s, received, input.message);
      if s.connected && input.digest !in s.digests {
        var s' := s.(digests := Remember(s.digests, input.digest, config.cacheSize));
        match input.message
        case SnapshotMessage(snapshot) => SnapshotKeepsInv(s', snapshot, received + [input.message]);
        case DeltaMessage(d) => DeltaKeepsInv(config, s', d, received + [input.message]);
        case OtherMessage =>
      }
    }
  }

  lemma {:induction false} RunKeepsInv(config: Config, inputs: seq<Input>)
    ensures Inv(Run(config, inputs), SinceConnect(inputs))
  {
    if inputs != [] {
      var n := |inputs| - 1;
      RunKeepsInv(config, inputs[..n]);
      StepKeepsInv(config, Run(config, inputs[..n]), inputs[n], SinceConnect(inputs[..n]));
    }
  }

  // ---------- What the stream yields ----------

  lemma {:induction false} YieldIsSynchronized(config: Config, s: Session, input: Input)
    requires Step(config, s, input).1.Yield?
    ensures var (s', output) := Step(config, s, input);
            && s'.connected && s'.state == Synchronized
            && output == Yield(s'.book, Synchronized, s'.snapshotSequence)
            && input.Receive?
  {
  }

  /**
   Over every run with any number of reconnects, a yielded book is marked synchronized, leaves an
   empty buffer, and is explained by one snapshot of the current connection, the deltas replayed
   behind it and the live deltas after it. Nothing from an earlier connection or a failed replay
   is left in it.
   */
  lemma {:induction false} EveryYieldIsExplained(config: Config, inputs: seq<Input>, input: Input)
    requires Step(config, Run(config, inputs), input).1.Yield?
    ensures var (s, output) := Step(config, Run(config, inputs), input);
            && output.state == Synchronized && s.buffered == []
            && exists base: Snapshot, replayed: seq<Delta>, live: seq<Delta> ::
                 Explained(output.book, base, replayed, live, SinceConnect(inputs + [input])) && output.snapshotSequence == base.sequence
  {
    var all := inputs + [input];
    assert all[..|all| - 1] == inputs;
    RunKeepsInv(config, all);
    YieldIsSynchronized(config, Run(config, inputs), input);
    var s := Run(config, all);
    assert Explained(s.book, s.base.value, s.replayed, s.live, SinceConnect(all));
  }

  // ---------- When the chain is unbroken ----------

  /** A gap-free chain cannot continue from its own start. */
  lemma {:induction false} FirstLink(start: Option<int>, deltas: seq<Delta>)
    requires GapFree(start, deltas) && deltas != []
    ensures IsContiguous(start, deltas[0])
  {
    if |deltas| > 1 {
      FirstLink(start, deltas[..|deltas| - 1]);
    }
  }

  lemma {:induction false} TwoStarts(a: Option<int>, b: Option<int>, d: Delta)
    requires IsContiguous(a, d) && IsContiguous(b, d)
    ensures a == b
  {
  }

  /**
   Replayed and live deltas together form one gap-free chain from the snapshot exactly when one of
   the two parts is empty: after a replay the loop forgets how far the replay had got.
   */
  lemma {:induction false} UnbrokenExactly(base: Snapshot, replayed: seq<Delta>, live: seq<Delta>)
    requires base.sequence.Some? && GapFree(base.sequence, replayed) && GapFree(base.sequence, live)
    ensures GapFree(base.sequence, replayed + live) <==> replayed == [] || live == []
  {
    GapFreeJoin(base.sequence, replayed, live);
    if replayed == [] {
      assert replayed + live == live;
    } else if live == [] {
      assert replayed + live == replayed;
    } else if GapFree(base.sequence, replayed + live) {
      GapFreeGrows(base.sequence, replayed);
      FirstLink(base.sequence, live);
      FirstLink(Reached(base.sequence, replayed), live);
    }
  }

  // ---------- When the stream yields ----------

  /** The deltas that a snapshot of sequence s has to replay: the newer ones by sequence, each sequence once. */
  function ToReplay(buffered: seq<Buffered>, s: int): seq<Delta> {
    Deltas(DropRepeats(SortBySequence(Above(buffered, s))))
  }

  lemma {:induction false} ZeroClearSorted(buffered: seq<Buffered>, s: int)
    requires s > 0
    ensures ZeroClear(SortBySequence(buffered), s)
  {
  }

  lemma {:induction false} SnapshotReplays(s: Session, snapshot: Snapshot, n: int, received: seq<Message>)
    requires BufferOk(s.buffered, received) && snapshot.sequence == Some(n)
    ensures var sorted := SortBySequence(s.buffered);
            var r := ReplayStream(Replay(ApplySnapshot(snapshot), Some(n), [], true), sorted);
            && (r.ok <==> GapFree(Some(n), ToReplay(s.buffered, n)) && ZeroClear(sorted, n))
            && (r.ok ==> r.applied == ToReplay(s.buffered, n) && r.book == Fold(ApplySnapshot(snapshot), ToReplay(s.buffered, n)))
  {
    var sorted := SortBySequence(s.buffered);
    SortedBufferIsValid(s.buffered, received);
    assert Ascending(sorted) by { SortIsCorrect(s.buffered); }
    assert Above(sorted, n) == SortBySequence(Above(s.buffered, n)) by { SortAbove(s.buffered, n); }
    SortedReplays(Replay(ApplySnapshot(snapshot), Some(n), [], true), n, sorted);
  }

  /**
   A snapshot message is answered with a book if and only if it is accepted, has a sequence, and the newer
   buffered deltas, sorted and with repeats of a sequence dropped, form a gap-free chain from it; at
   sequence 0 and below it also matters that sequence 0 counts as absent. The book is then the snapshot
   folded with exactly those deltas.
   */
  lemma {:induction false} SnapshotYieldsExactly(s: Session, snapshot: Snapshot, received: seq<Message>)
    requires BufferOk(s.buffered, received)
    ensures OnSnapshot(s, snapshot).1.Yield? <==>
            && snapshot.accepted && snapshot.sequence.Some?
            && GapFree(snapshot.sequence, ToReplay(s.buffered, snapshot.sequence.value))
            && ZeroClear(SortBySequence(s.buffered), snapshot.sequence.value)
    ensures OnSnapshot(s, snapshot).1.Yield? ==>
              OnSnapshot(s, snapshot).1.book == Fold(ApplySnapshot(snapshot), ToReplay(s.buffered, snapshot.sequence.value))
  {
    if snapshot.accepted && snapshot.sequence.Some? {
      SnapshotReplays(s, snapshot, snapshot.sequence.value, received);
    }
  }

  /** For a positive sequence the condition is the chain alone. */
  lemma {:induction false} PositiveSnapshotYieldsExactly(s: Session, snapshot: Snapshot, received: seq<Message>)
    requires BufferOk(s.buffered, received) && snapshot.accepted && snapshot.sequence.Some? && snapshot.sequence.value > 0
    ensures OnSnapshot(s, snapshot).1.Yield? <==> GapFree(snapshot.sequence, ToReplay(s.buffered, snapshot.sequence.value))
  {
    SnapshotYieldsExactly(s, snapshot, received);
    ZeroClearSorted(s.buffered, snapshot.sequence.value);
  }

  /** Away from sequence 0 the buffered deltas at or below a snapshot change neither the answer to it nor the book. */
  lemma {:induction false} StaleDeltasNeverMatter(s: Session, snapshot: Snapshot)
    requires snapshot.sequence.Some? && snapshot.sequence.value != 0
    ensures var fresher := s.(buffered := Above(s.buffered, snapshot.sequence.value));
            && OnSnapshot(s, snapshot).1 == OnSnapshot(fresher, snapshot).1
            && OnSnapshot(s, snapshot).0.book == OnSnapshot(fresher, snapshot).0.book
            && (OnSnapshot(s, snapshot).1.Yield? ==> OnSnapshot(s, snapshot).0 == OnSnapshot(fresher, snapshot).0)
  {
    var n, start := snapshot.sequence.value, Replay(ApplySnapshot(snapshot), snapshot.sequence, [], true);
    SortIsCorrect(s.buffered);
    StaleNeverMatters(start, SortBySequence(s.buffered), n);
    SortAbove(s.buffered, n);
  }

  /**
   Which inputs are answered with a book: on a live connection a new snapshot as above, and a new delta
   exactly when the connection is synchronized and the delta continues where it stands.
   */
  lemma {:induction false} StepYieldsExactly(config: Config, s: Session, input: Input, received: seq<Message>)
    requires BufferOk(s.buffered, received)
    ensures Step(config, s, input).1.Yield? <==>
            && input.Receive? && s.connected && input.digest !in s.digests
            && match input.message
               case SnapshotMessage(snapshot) =>
                 && snapshot.accepted && snapshot.sequence.Some?
                 && GapFree(snapshot.sequence, ToReplay(s.buffered, snapshot.sequence.value))
                 && ZeroClear(SortBySequence(s.buffered), snapshot.sequence.value)
               case DeltaMessage(d) => s.state == Synchronized && IsContiguous(s.previous, d)
               case OtherMessage => false
    ensures Step(config, s, input).1.Yield? && input.message.DeltaMessage? ==>
              Step(config, s, input).1.book == ApplyDelta(s.book, input.message.delta)
  {
    if input.Receive? && s.connected && input.digest !in s.digests && input.message.SnapshotMessage? {
      SnapshotYieldsExactly(s.(digests := Remember(s.digests, input.digest, config.cacheSize)), input.message.snapshot, received);
    }
  }

  /** While waiting for a snapshot, a new delta with a sequence is kept in order of arrival as long as there is room. */
  lemma {:induction false} WaitingDeltasAreKept(config: Config, s: Session, digest: nat, d: Delta)
    requires s.connected && digest !in s.digests && s.state != Synchronized
    ensures var (s', output) := Step(config, s, Receive(digest, DeltaMessage(d)));
            && (output == Nothing <==> d.sequence.Some? && |s.buffered| < config.maximumBuffered)
            && (output == Nothing ==> s'.buffered == s.buffered + [Buffered(d.sequence.value, d)] && s'.book == s.book && s'.connected)
            && (output != Nothing ==> output.Lost? && !s'.connected && s'.buffered == s.buffered)
  {
  }

  /** A new connection starts without sequence, buffer or remembered payloads; the shared book stays until a
      snapshot replaces it. */
  lemma {:induction false} ConnectForgets(config: Config, s: Session)
    ensures var (s', output) := Step(config, s, Connect);
            && output == Nothing && s'.connected && s'.state == WaitingForSnapshot && s'.book == s.book
            && s'.previous.None? && s'.snapshotSequence.None? && s'.buffered == [] && s'.digests == []
  {
  }

  /** A remembered payload is dropped; the last `cacheSize` new ones are remembered, the newest last. */
  lemma {:induction false} RecentPayloadsAreDropped(config: Config, s: Session, digest: nat, message: Message)
    requires s.connected && digest !in s.digests && config.cacheSize >= 1 && |s.digests| <= config.cacheSize
    ensures var s' := Step(config, s, Receive(digest, message)).0;
            && (forall again :: Step(config, s', Receive(digest, again)) == (s', Nothing))
            && |s'.digests| <= config.cacheSize && s'.digests[|s'.digests| - 1] == digest
            && (|s.digests| < config.cacheSize ==> s'.digests == s.digests + [digest])
            && (|s.digests| == config.cacheSize ==> s'.digests == s.digests[1..] + [digest])
  {
    assert digest in Remember(s.digests, digest, config.cacheSize);
  }

  /** No buffered delta is newer than the snapshot. */
  predicate NothingAhead(s: Session, snapshot: Snapshot) {
    snapshot.sequence.Some? ==> forall i :: 0 <= i < |s.buffered| ==> s.buffered[i].sequence <= snapshot.sequence.value
  }

  /**
   When a snapshot is accepted, nothing was replayed behind it exactly when no buffered delta was
   newer; that is also exactly when the connection still stands where its book stands.
   */
  lemma {:induction false} ReplaysExactlyAhead(s: Session, snapshot: Snapshot, received: seq<Message>)
    requires BufferOk(s.buffered, received)
    requires OnSnapshot(s, snapshot).1.Yield?
    ensures var s' := OnSnapshot(s, snapshot).0;
            && (s'.replayed == [] <==> NothingAhead(s, snapshot))
            && (s'.previous == Reached(snapshot.sequence, s'.replayed) <==> NothingAhead(s, snapshot))
  {
    var start := Replay(ApplySnapshot(snapshot), snapshot.sequence, [], true);
    var sorted := SortBySequence(s.buffered);
    forall x
      ensures x in sorted <==> x in s.buffered
    {
      SortMembers(s.buffered, x);
    }
    SortedBufferIsValid(s.buffered, received);
    if NothingAhead(s, snapshot) {
      forall i | 0 <= i < |sorted|
        ensures sorted[i].sequence <= snapshot.sequence.value
      {
        assert sorted[i] in s.buffered;
      }
      StaleIsSkipped(start, sorted);
    } else {
      var i :| 0 <= i < |s.buffered| && s.buffered[i].sequence > snapshot.sequence.value;
      assert s.buffered[i] in sorted;
      NewerIsReplayed(start, sorted);
      ReplayStreamExplains(ApplySnapshot(snapshot), snapshot.sequence, start, sorted);
      GapFreeGrows(snapshot.sequence, OnSnapshot(s, snapshot).0.replayed);
    }
  }

  /** The consequence: the delta that continues a replayed book is refused and the connection is lost. */
  lemma {:induction false} ContinuationIsRefused(config: Config, s: Session, snapshot: Snapshot, digest: nat, d: Delta, received: seq<Message>)
    requires BufferOk(s.buffered, received) && s.connected
    requires OnSnapshot(s, snapshot).1.Yield? && OnSnapshot(s, snapshot).0.replayed != []
    requires digest !in s.digests && IsContiguous(Reached(snapshot.sequence, OnSnapshot(s, snapshot).0.replayed), d)
    ensures Step(config, OnSnapshot(s, snapshot).0, Receive(digest, DeltaMessage(d))).1.Lost?
  {
    var s' := OnSnapshot(s, snapshot).0;
    var start := Replay(ApplySnapshot(snapshot), snapshot.sequence, [], true);
    SortedBufferIsValid(s.buffered, received);
    ReplayStreamExplains(ApplySnapshot(snapshot), snapshot.sequence, start, SortBySequence(s.buffered));
    GapFreeGrows(snapshot.sequence, s'.replayed);
    if IsContiguous(s'.previous, d) {
      TwoStarts(s'.previous, Reached(snapshot.sequence, s'.replayed), d);
    }
  }

  /** The last snapshot that the current connection accepted found no newer delta in the buffer. */
  predicate FoundNothingAhead(config: Config, inputs: seq<Input>) {
    if inputs == [] then true
    else
      var n := |inputs| - 1;
      var s := Run(config, inputs[..n]);
      match inputs[n]
      case Connect => true
      case Receive(_, message) =>
        if message.SnapshotMessage? && Step(config, s, inputs[n]).1.Yield? then NothingAhead(s, message.snapshot)
        else FoundNothingAhead(config, inputs[..n])
  }

  lemma {:induction false} ReplaysExactlyOverRuns(config: Config, inputs: seq<Input>)
    requires Run(config, inputs).connected && Run(config, inputs).state == Synchronized
    ensures Run(config, inputs).replayed == [] <==> FoundNothingAhead(config, inputs)
  {
    var n := |inputs| - 1;
    var s, x := Run(config, inputs[..n]), inputs[n];
    if x.Receive? && x.message.SnapshotMessage? && Step(config, s, x).1.Yield? {
      var s' := s.(digests := Remember(s.digests, x.digest, config.cacheSize));
      RunKeepsInv(config, inputs[..n]);
      ReplaysExactlyAhead(s', x.message.snapshot, SinceConnect(inputs[..n]));
    } else {
      ReplaysExactlyOverRuns(config, inputs[..n]);
    }
  }

  /**
   Over every run with any reconnects: whenever the connection is synchronized, the deltas behind its
   book, replayed and live, form one gap-free chain from the snapshot if and only if no live delta
   has come yet or the last accepted snapshot of this connection found nothing ahead of it.
   */
  lemma {:induction false} ChainIsUnbrokenExactly(config: Config, inputs: seq<Input>)
    requires Run(config, inputs).connected && Run(config, inputs).state == Synchronized
    ensures var s := Run(config, inputs);
            && s.base.Some? && Explained(s.book, s.base.value, s.replayed, s.live, SinceConnect(inputs))
            && (GapFree(s.base.value.sequence, s.replayed + s.live) <==> s.live == [] || FoundNothingAhead(config, inputs))
  {
    var s := Run(config, inputs);
    RunKeepsInv(config, inputs);
    UnbrokenExactly(s.base.value, s.replayed, s.live);
    ReplaysExactlyOverRuns(config, inputs);
  }

  /** The book is a snapshot of the connection followed by a gap-free chain of its deltas. */
  ghost predicate Unbroken(book: Book, base: Snapshot, chain: seq<Delta>, received: seq<Message>) {
    && base.sequence.Some? && SnapshotMessage(base) in received
    && FromConnection(chain, received) && GapFree(base.sequence, chain)
    && book == Fold(ApplySnapshot(base), chain)
  }

  lemma {:induction false} FoldJoins(b: Book, first: seq<Delta>, then_: seq<Delta>)
    ensures Fold(b, first + then_) == Fold(Fold(b, first), then_)
    decreases |then_|
  {
    if then_ == [] {
      assert first + then_ == first;
    } else {
      var n := |then_| - 1;
      FoldJoins(b, first, then_[..n]);
      assert first + then_ == (first + then_[..n]) + [then_[n]];
      FoldAppend(b, first + then_[..n], then_[n]);
      assert then_ == then_[..n] + [then_[n]];
      FoldAppend(Fold(b, first), then_[..n], then_[n]);
    }
  }

  /**
   Under that condition, which looks at the current connection only, every yielded book is the
   last-write-wins result of one snapshot of the connection followed by a gap-free chain of its deltas.
   */
  lemma {:induction false} EveryYieldIsUnbroken(config: Config, inputs: seq<Input>, input: Input)
    requires Step(config, Run(config, inputs), input).1.Yield?
    requires Step(config, Run(config, inputs), input).0.live == [] || FoundNothingAhead(config, inputs + [input])
    ensures var output := Step(config, Run(config, inputs), input).1;
            exists base: Snapshot, chain: seq<Delta> :: Unbroken(output.book, base, chain, SinceConnect(inputs + [input]))
  {
    var all := inputs + [input];
    assert all[..|all| - 1] == inputs;
    YieldIsSynchronized(config, Run(config, inputs), input);
    ChainIsUnbrokenExactly(config, all);
    var s := Run(config, all);
    FoldJoins(ApplySnapshot(s.base.value), s.replayed, s.live);
    assert Unbroken(s.book, s.base.value, s.replayed + s.live, SinceConnect(all));
  }

  // ---------- A run with a broken chain ----------

  const EarlyDelta := Delta(Some(2), Some(1), [Level(10.0, 5.0)], [])
  const LateDelta := Delta(Some(3), Some(1), [Level(11.0, 6.0)], [])
  const LateSnapshot := Snapshot(Some(1), true, [Level(9.0, 1.0)], [Level(12.0, 1.0)])
  const BrokenInputs: seq<Input> :=
    [Connect, Receive(1, DeltaMessage(EarlyDelta)), Receive(2, SnapshotMessage(LateSnapshot))]

  lemma {:induction false} AfterBuffering(config: Config)
    requires config.maximumBuffered > 0 && config.cacheSize > 1
    ensures Run(config, BrokenInputs[..2])
            == Session(true, EmptyBook, BufferingDeltas, None, None, [Buffered(2, EarlyDelta)], [1], None, [], [])
  {
    assert BrokenInputs[..2][..1] == [Connect];
    assert BrokenInputs[..2][1] == Receive(1, DeltaMessage(EarlyDelta));
    assert Run(config, []) == Initial;
    assert [Connect][..0] == [];
    assert Run(config, [Connect]) == Reconnect(Initial);
  }

  lemma {:induction false} AfterReplay(config: Config)
    requires config.maximumBuffered > 0 && config.cacheSize > 1
    ensures var s := Run(config, BrokenInputs);
            && s.connected && s.state == Synchronized && s.previous == Some(1) && s.digests == [1, 2]
            && s.book == ApplyDelta(ApplySnapshot(LateSnapshot), EarlyDelta)
  {
    AfterBuffering(config);
    var item := Buffered(2, EarlyDelta);
    assert [item][..0] == [] && [item][1..] == [];
    assert SortBySequence([item]) == [item];
    var start := Replay(ApplySnapshot(LateSnapshot), Some(1), [], true);
    var next := Replay(ApplyDelta(start.book, EarlyDelta), Some(2), [EarlyDelta], true);
    assert ReplayStream(next, []) == next;
    assert ReplayStream(start, [item]) == next;
  }

  lemma {:induction false} BidsOf(levels: seq<Level>, m: Levels, price: real)
    requires LastWrite(levels, price).None?
    ensures price in ApplyLevels(m, levels) <==> price in m
  {
    LastWriteWins(m, levels, price);
    assert Holds(ApplyLevels(m, levels), price).Some? <==> Holds(m, price).Some?;
  }

  /** No gap-free chain over the two deltas is longer than one delta. */
  lemma {:induction false} ChainsAreShort(chain: seq<Delta>)
    requires forall i :: 0 <= i < |chain| ==> chain[i] == EarlyDelta || chain[i] == LateDelta
    requires GapFree(Some(1), chain)
    ensures |chain| <= 1
  {
  }

  lemma {:induction false} ShortChainsMissALevel(chain: seq<Delta>)
    requires forall i :: 0 <= i < |chain| ==> chain[i] == EarlyDelta || chain[i] == LateDelta
    requires |chain| <= 1
    ensures !(10.0 in Fold(ApplySnapshot(LateSnapshot), chain).bids && 11.0 in Fold(ApplySnapshot(LateSnapshot), chain).bids)
  {
    var base := ApplySnapshot(LateSnapshot);
    BidsOf(LateSnapshot.bids, map[], 10.0);
    BidsOf(LateSnapshot.bids, map[], 11.0);
    if chain != [] {
      assert chain[..0] == [] && Fold(base, []) == base;
      BidsOf(EarlyDelta.bids, base.bids, 11.0);
      BidsOf(LateDelta.bids, base.bids, 10.0);
    }
  }

  /**
   Without that restriction the property fails: a delta buffered ahead of the snapshot is replayed,
   and then a delta that continues the snapshot, not the replayed delta, is accepted too.
   */
  lemma {:induction false} BrokenChain(config: Config)
    requires config.maximumBuffered > 0 && config.cacheSize > 1
    ensures var output := Step(config, Run(config, BrokenInputs), Receive(3, DeltaMessage(LateDelta))).1;
            && output.Yield?
            && !exists base: Snapshot, chain: seq<Delta> ::
                  Unbroken(output.book, base, chain, SinceConnect(BrokenInputs + [Receive(3, DeltaMessage(LateDelta))]))
  {
    AfterReplay(config);
    var last := Receive(3, DeltaMessage(LateDelta));
    var s := Run(config, BrokenInputs);
    var output := Step(config, s, last).1;
    assert output.book == ApplyDelta(s.book, LateDelta);
    var all := BrokenInputs + [last];
    var received := SinceConnect(all);
    assert received == [DeltaMessage(EarlyDelta), SnapshotMessage(LateSnapshot), DeltaMessage(LateDelta)] by {
      assert all[..3] == BrokenInputs && all[3] == last;
      assert all[..3][..2] == BrokenInputs[..2] && all[..3][2] == BrokenInputs[2];
      assert BrokenInputs[..2][..1] == [Connect];
      assert SinceConnect([Connect]) == [];
      assert SinceConnect(BrokenInputs[..2]) == [DeltaMessage(EarlyDelta)];
      assert SinceConnect(BrokenInputs) == [DeltaMessage(EarlyDelta), SnapshotMessage(LateSnapshot)];
    }
    var base := ApplySnapshot(LateSnapshot).bids;
    LastWriteWins(base, EarlyDelta.bids, 10.0);
    LastWriteWins(ApplyLevels(base, EarlyDelta.bids), LateDelta.bids, 10.0);
    LastWriteWins(ApplyLevels(base, EarlyDelta.bids), LateDelta.bids, 11.0);
    assert 10.0 in output.book.bids && 11.0 in output.book.bids;
    forall base: Snapshot, chain: seq<Delta> | Unbroken(output.book, base, chain, received)
      ensures false
    {
      assert base == LateSnapshot;
      ChainsAreShort(chain);
      ShortChainsMissALevel(chain);
    }
  }
}

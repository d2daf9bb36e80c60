/** The stream object: the shared book, the connection context and the message loop body. */
module OrderBookObjects {
  import opened Common
  import opened OrderBook
  import opened OrderBookProtocol

  /** Applies level updates one by one. */
  method UpdateLevels(target: Levels, levels: seq<Level>) returns (r: Levels)
    ensures r == ApplyLevels(target, levels)
    ensures forall price :: Holds(r, price) == match LastWrite(levels, price)
                                               case None => Holds(target, price)
                                               case Some(q) => if q == 0.0 then None else Some(q)
  {
    r := target;
    for i := 0 to |levels|
      invariant r == ApplyLevels(target, levels[..i])
    {
      if levels[i].quantity == 0.0 {
        r := r - {levels[i].price};
      } else {
        r := r[levels[i].price := levels[i].quantity];
      }
      assert levels[..i + 1][..i] == levels[..i];
    }
    assert levels[..|levels|] == levels;
    forall price {
      LastWriteWins(target, levels, price);
    }
  }

  class OrderBookStream {
    const config: Config
    var bids: Levels
    var asks: Levels
    var connected: bool
    var state: ReconciliationState
    var previousSequence: Option<int>
    var snapshotSequence: Option<int>
    var bufferedDeltas: seq<Buffered>
    var payloadHashes: set<nat>
    var payloadHashOrder: seq<nat>
    ghost var base: Option<Snapshot>
    ghost var replayed: seq<Delta>
    ghost var live: seq<Delta>

    /** The digest set mirrors the digest queue, which is bounded and free of repetitions. */
    ghost predicate Valid()
      reads this
    {
      && config.cacheSize >= 1
      && payloadHashes == (set d | d in payloadHashOrder)
      && |payloadHashOrder| <= config.cacheSize
      && forall i, j :: 0 <= i < j < |payloadHashOrder| ==> payloadHashOrder[i] != payloadHashOrder[j]
    }

    ghost function Session(): Session
      reads this
    {
      OrderBookProtocol.Session.Session(connected, Book(bids, asks), state, previousSequence, snapshotSequence, bufferedDeltas,
                                        payloadHashOrder, base, replayed, live)
    }

    constructor (config: Config)
      requires config.cacheSize >= 1
      ensures Valid() && Session() == Initial
    {
      this.config := config;
      bids, asks, connected, state := map[], map[], false, Disconnected;
      previousSequence, snapshotSequence, bufferedDeltas := None, None, [];
      payloadHashes, payloadHashOrder := {}, [];
      base, replayed, live := None, [], [];
    }

    method Connect()
      requires Valid()
      modifies this
      ensures Valid() && Session() == Reconnect(old(Session()))
    {
      connected, state := true, WaitingForSnapshot;
      payloadHashes, payloadHashOrder := {}, [];
      ForgetSequences();
    }

    method ForgetSequences()
      modifies this`previousSequence, this`snapshotSequence, this`bufferedDeltas, this`base, this`replayed, this`live
      ensures previousSequence == None && snapshotSequence == None && bufferedDeltas == []
      ensures base == None && replayed == [] && live == []
    {
      previousSequence, snapshotSequence, bufferedDeltas := None, None, [];
      base, replayed, live := None, [], [];
    }

    /** A payload is dropped exactly when its digest is among the remembered ones. */
    method SeenPayload(digest: nat) returns (seen: bool)
      requires Valid()
      modifies this`payloadHashes, this`payloadHashOrder
      ensures Valid() && seen == (digest in old(payloadHashOrder))
      ensures payloadHashOrder == if seen then old(payloadHashOrder) else Remember(old(payloadHashOrder), digest, config.cacheSize)
    {
      if digest in payloadHashes {
        return true;
      }
      if |payloadHashOrder| >= config.cacheSize {
        var expired := payloadHashOrder[0];
        assert payloadHashOrder == [expired] + payloadHashOrder[1..];
        payloadHashOrder := payloadHashOrder[1..];
        payloadHashes := payloadHashes - {expired};
      }
      payloadHashOrder := payloadHashOrder + [digest];
      payloadHashes := payloadHashes + {digest};
      return false;
    }

    method BufferDelta(d: Delta) returns (error: Option<Error>)
      modifies this`state, this`bufferedDeltas
      ensures (Session(), error) == OrderBookProtocol.BufferDelta(config, old(Session()), d)
    {
      if d.sequence.None? {
        return Some(MissingSequence);
      }
      if |bufferedDeltas| >= config.maximumBuffered {
        state := Degraded;
        return Some(BufferOverflow);
      }
      state := BufferingDeltas;
      bufferedDeltas := bufferedDeltas + [Buffered(d.sequence.value, d)];
      return None;
    }

    method LoadSnapshot(snapshot: Snapshot)
      modifies this`bids, this`asks
      ensures Book(bids, asks) == ApplySnapshot(snapshot)
    {
      bids := UpdateLevels(map[], snapshot.bids);
      asks := UpdateLevels(map[], snapshot.asks);
    }

    method LoadDelta(d: Delta)
      modifies this`bids, this`asks
      ensures Book(bids, asks) == ApplyDelta(old(Book(bids, asks)), d)
    {
      bids := UpdateLevels(bids, d.bids);
      asks := UpdateLevels(asks, d.asks);
    }

    /** The replay loop behind a stream snapshot. */
    method ReplayBuffered(replay: seq<Buffered>) returns (ok: bool)
      modifies this`bids, this`asks, this`previousSequence, this`replayed
      ensures Replay(Book(bids, asks), previousSequence, replayed, ok)
              == ReplayStream(old(Replay(Book(bids, asks), previousSequence, replayed, true)), replay)
    {
      ghost var whole := ReplayStream(Replay(Book(bids, asks), previousSequence, replayed, true), replay);
      for i := 0 to |replay|
        invariant ReplayStream(Replay(Book(bids, asks), previousSequence, replayed, true), replay[i..]) == whole
      {
        assert replay[i..][0] == replay[i] && replay[i..][1..] == replay[i + 1..];
        var current, d := replay[i].sequence, replay[i].delta;
        if current <= SkipThrough(previousSequence, current) {
          continue;
        }
        if !IsContiguous(previousSequence, d) {
          return false;
        }
        LoadDelta(d);
        previousSequence := Some(current);
        replayed := replayed + [d];
      }
      return true;
    }

    method StandAt(snapshot: Snapshot)
      modifies this`previousSequence, this`snapshotSequence, this`base, this`replayed, this`live
      ensures snapshotSequence == previousSequence == snapshot.sequence
      ensures base == Some(snapshot) && replayed == [] && live == []
    {
      snapshotSequence, previousSequence := snapshot.sequence, snapshot.sequence;
      base, replayed, live := Some(snapshot), [], [];
    }

    method ApplyStreamSnapshot(snapshot: Snapshot) returns (error: Option<Error>)
      modifies this`bids, this`asks, this`state, this`previousSequence, this`snapshotSequence, this`bufferedDeltas, this`base, this`replayed, this`live
      ensures (Session(), error) == OrderBookProtocol.ApplyStreamSnapshot(old(Session()), snapshot)
    {
      if !snapshot.accepted {
        state := Degraded;
        return Some(InvalidSnapshot);
      }
      state := ApplyingSnapshot;
      LoadSnapshot(snapshot);
      if snapshot.sequence.None? {
        state := Degraded;
        return Some(MissingSequence);
      }
      StandAt(snapshot);
      var replay := SortBySequence(bufferedDeltas);
      state := ReplayingDeltas;
      var ok := ReplayBuffered(replay);
      if !ok {
        state := Degraded;
        return Some(ReplayGap);
      }
      bufferedDeltas := [];
      state := Synchronized;
      return None;
    }

    /** Loads a REST snapshot and replays the deltas buffered above it. */
    method ApplySnapshotAndReplay(snapshot: Snapshot) returns (error: Option<Error>)
      modifies this`bids, this`asks, this`state, this`previousSequence, this`snapshotSequence, this`bufferedDeltas
      ensures var spec := Recover(snapshot, old(bufferedDeltas));
              && Book(bids, asks) == spec.book
              && error == (if spec.ok then None else if snapshot.sequence.None? then Some(MissingSequence) else Some(ReplayGap))
              && (spec.ok ==> previousSequence == spec.previous && snapshotSequence == snapshot.sequence
                              && bufferedDeltas == [] && state == Synchronized)
              && (!spec.ok ==> bufferedDeltas == old(bufferedDeltas) && previousSequence == old(previousSequence) && state != Synchronized)
    {
      state := SnapshotLoading;
      LoadSnapshot(snapshot);
      if snapshot.sequence.None? {
        return Some(MissingSequence);
      }
      var s := snapshot.sequence.value;
      snapshotSequence := snapshot.sequence;
      var replay := SortBySequence(Above(bufferedDeltas, s));
      state := DeltaReplaying;
      var expected := s + 1;
      ghost var applied: seq<Delta> := [];
      ghost var whole := ReplayRest(Replay(ApplySnapshot(snapshot), Some(s), [], true), replay);
      for i := 0 to |replay|
        invariant bufferedDeltas == old(bufferedDeltas) && snapshotSequence == snapshot.sequence && previousSequence == old(previousSequence)
        invariant ReplayRest(Replay(Book(bids, asks), Some(expected - 1), applied, true), replay[i..]) == whole
      {
        assert replay[i..][0] == replay[i] && replay[i..][1..] == replay[i + 1..];
        if replay[i].sequence != expected {
          state := Degraded;
          return Some(ReplayGap);
        }
        LoadDelta(replay[i].delta);
        applied := applied + [replay[i].delta];
        expected := expected + 1;
      }
      previousSequence := Some(expected - 1);
      bufferedDeltas := [];
      state := Synchronized;
      return None;
    }

    method Fail(error: Error) returns (output: Output)
      modifies this`connected
      ensures (Session(), output) == Raise(old(Session()), error)
    {
      connected := false;
      output := Lost(error);
    }

    method OnSnapshot(snapshot: Snapshot) returns (output: Output)
      requires Valid()
      modifies this
      ensures Valid() && (Session(), output) == OrderBookProtocol.OnSnapshot(old(Session()), snapshot)
    {
      var error := ApplyStreamSnapshot(snapshot);
      if error.Some? {
        output := Fail(error.value);
        return;
      }
      previousSequence := snapshot.sequence;
      output := Yield(Book(bids, asks), state, snapshotSequence);
    }

    method OnDelta(d: Delta) returns (output: Output)
      requires Valid()
      modifies this
      ensures Valid() && (Session(), output) == OrderBookProtocol.OnDelta(config, old(Session()), d)
    {
      if state != Synchronized {
        var error := BufferDelta(d);
        if error.Some? {
          output := Fail(error.value);
          return;
        }
        return Nothing;
      }
      if !IsContiguous(previousSequence, d) {
        if d.sequence.None? {
          output := Fail(MissingSequence);
          return;
        }
        state := GapDetected;
        var error := BufferDelta(d);
        output := Fail(if error.Some? then error.value else SequenceGap);
        return;
      }
      LoadDelta(d);
      previousSequence := d.sequence;
      live := live + [d];
      output := Yield(Book(bids, asks), state, snapshotSequence);
    }

    /** One turn of the message loop. */
    method Receive(digest: nat, message: Message) returns (output: Output)
      requires Valid()
      modifies this
      ensures Valid() && (Session(), output) == Step(config, old(Session()), Input.Receive(digest, message))
    {
      if !connected {
        return Nothing;
      }
      var seen := SeenPayload(digest);
      if seen {
        return Nothing;
      }
      match message
      case SnapshotMessage(snapshot) => output := OnSnapshot(snapshot);
      case DeltaMessage(d) => output := OnDelta(d);
      case OtherMessage => output := Fail(UnknownPayload);
    }
  }
}

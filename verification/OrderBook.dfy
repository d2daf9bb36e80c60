/**
 Order books kept from snapshots and deltas, and the connection that decides which of them to
 apply: buffering before a snapshot, replay, sequence checks and reconnects.
 */
module OrderBook {
  import opened Common

  // ---------- Books ----------

  datatype Level = Level(price: real, quantity: real)

  type Levels = map<real, real>

  datatype Book = Book(bids: Levels, asks: Levels)

  const EmptyBook := Book(map[], map[])

  function ApplyLevel(m: Levels, l: Level): Levels {
    if l.quantity == 0.0 then m - {l.price} else m[l.price := l.quantity]
  }

  function ApplyLevels(m: Levels, levels: seq<Level>): Levels {
    if levels == [] then m
    else ApplyLevel(ApplyLevels(m, levels[..|levels| - 1]), levels[|levels| - 1])
  }

  /** The quantity last written at a price, if any. */
  function LastWrite(levels: seq<Level>, price: real): Option<real> {
    if levels == [] then None
    else if levels[|levels| - 1].price == price then Some(levels[|levels| - 1].quantity)
    else LastWrite(levels[..|levels| - 1], price)
  }

  /** What a price holds after writes: the last write wins, and a zero removes the level. */
  function Holds(m: Levels, price: real): Option<real> {
    if price in m then Some(m[price]) else None
  }

  lemma {:induction false} LastWriteWins(m: Levels, levels: seq<Level>, price: real)
    ensures Holds(ApplyLevels(m, levels), price)
            == match LastWrite(levels, price)
               case None => Holds(m, price)
               case Some(quantity) => if quantity == 0.0 then None else Some(quantity)
  {
    if levels != [] {
      LastWriteWins(m, levels[..|levels| - 1], price);
    }
  }

  // ---------- Messages ----------

  datatype Snapshot = Snapshot(sequence: Option<int>, accepted: bool, bids: seq<Level>, asks: seq<Level>)

  datatype Delta = Delta(sequence: Option<int>, predecessor: Option<int>, bids: seq<Level>, asks: seq<Level>)

  datatype Message = SnapshotMessage(snapshot: Snapshot) | DeltaMessage(delta: Delta) | OtherMessage

  function ApplySnapshot(s: Snapshot): Book {
    Book(ApplyLevels(map[], s.bids), ApplyLevels(map[], s.asks))
  }

  function ApplyDelta(b: Book, d: Delta): Book {
    Book(ApplyLevels(b.bids, d.bids), ApplyLevels(b.asks, d.asks))
  }

  function Fold(b: Book, deltas: seq<Delta>): Book {
    if deltas == [] then b else ApplyDelta(Fold(b, deltas[..|deltas| - 1]), deltas[|deltas| - 1])
  }

  lemma {:induction false} LevelsJoin(m: Levels, a: seq<Level>, b: seq<Level>)
    ensures ApplyLevels(m, a + b) == ApplyLevels(ApplyLevels(m, a), b)
  {
    if b == [] {
      assert a + b == a;
    } else {
      var n := |b| - 1;
      LevelsJoin(m, a, b[..n]);
      assert (a + b)[..|a| + n] == a + b[..n] && (a + b)[|a| + n] == b[n];
    }
  }

  /** All writes to one side of a book, in order: the snapshot's and then those of the deltas. */
  function Writes(base: Snapshot, deltas: seq<Delta>, bids: bool): seq<Level> {
    if deltas == [] then if bids then base.bids else base.asks
    else
      var last := deltas[|deltas| - 1];
      Writes(base, deltas[..|deltas| - 1], bids) + if bids then last.bids else last.asks
  }

  lemma {:induction false} FoldIsWrites(base: Snapshot, deltas: seq<Delta>)
    ensures Fold(ApplySnapshot(base), deltas).bids == ApplyLevels(map[], Writes(base, deltas, true))
    ensures Fold(ApplySnapshot(base), deltas).asks == ApplyLevels(map[], Writes(base, deltas, false))
  {
    if deltas != [] {
      var n := |deltas| - 1;
      FoldIsWrites(base, deltas[..n]);
      LevelsJoin(map[], Writes(base, deltas[..n], true), deltas[n].bids);
      LevelsJoin(map[], Writes(base, deltas[..n], false), deltas[n].asks);
    }
  }

  function Remains(written: Option<real>): Option<real> {
    if written.Some? && written.value != 0.0 then written else None
  }

  /** A folded book holds, at every price of either side, what was last written there, and nothing after a zero. */
  lemma {:induction false} BookHoldsLastWrites(base: Snapshot, deltas: seq<Delta>, price: real)
    ensures Holds(Fold(ApplySnapshot(base), deltas).bids, price) == Remains(LastWrite(Writes(base, deltas, true), price))
    ensures Holds(Fold(ApplySnapshot(base), deltas).asks, price) == Remains(LastWrite(Writes(base, deltas, false), price))
  {
    FoldIsWrites(base, deltas);
    LastWriteWins(map[], Writes(base, deltas, true), price);
    LastWriteWins(map[], Writes(base, deltas, false), price);
  }

  // ---------- Sequences ----------

  /** The delta continues a book that stands at sequence `previous`. */
  predicate IsContiguous(previous: Option<int>, d: Delta) {
    && previous.Some? && d.sequence.Some?
    && match d.predecessor
       case Some(p) => d.sequence.value > previous.value && p == previous.value
       case None => d.sequence.value == previous.value + 1
  }

  /** Sequence at which a book stands after the deltas. */
  function Reached(start: Option<int>, deltas: seq<Delta>): Option<int> {
    if deltas == [] then start else deltas[|deltas| - 1].sequence
  }

  /** Every delta continues the one before it, from `start` on. */
  predicate GapFree(start: Option<int>, deltas: seq<Delta>) {
    if deltas == [] then true
    else
      var n := |deltas| - 1;
      GapFree(start, deltas[..n]) && IsContiguous(Reached(start, deltas[..n]), deltas[n])
  }

  lemma {:induction false} GapFreeAppend(start: Option<int>, deltas: seq<Delta>, d: Delta)
    requires GapFree(start, deltas) && IsContiguous(Reached(start, deltas), d)
    ensures GapFree(start, deltas + [d]) && Reached(start, deltas + [d]) == d.sequence
  {
    assert (deltas + [d])[..|deltas|] == deltas;
  }

  lemma {:induction false} FoldAppend(b: Book, deltas: seq<Delta>, d: Delta)
    ensures Fold(b, deltas + [d]) == ApplyDelta(Fold(b, deltas), d)
  {
    assert (deltas + [d])[..|deltas|] == deltas;
  }

  /** Sequences only grow along a gap-free chain. */
  lemma {:induction false} GapFreeGrows(start: Option<int>, deltas: seq<Delta>)
    requires GapFree(start, deltas) && deltas != []
    ensures start.Some? && Reached(start, deltas).Some? && Reached(start, deltas).value > start.value
  {
    if |deltas| > 1 {
      GapFreeGrows(start, deltas[..|deltas| - 1]);
    }
  }

  lemma {:induction false} GapFreeJoin(start: Option<int>, a: seq<Delta>, b: seq<Delta>)
    ensures GapFree(start, a + b) <==> GapFree(start, a) && GapFree(Reached(start, a), b)
    ensures Reached(start, a + b) == Reached(Reached(start, a), b)
  {
    if b == [] {
      assert a + b == a;
    } else {
      var n := |b| - 1;
      GapFreeJoin(start, a, b[..n]);
      assert (a + b)[..|a| + n] == a + b[..n];
      assert (a + b)[|a| + n] == b[n];
    }
  }

  // ---------- Buffered deltas ----------

  /** A buffered delta with its sequence. */
  datatype Buffered = Buffered(sequence: int, delta: Delta) {
    predicate Valid() {
      delta.sequence == Some(sequence)
    }
  }

  function InsertSorted(items: seq<Buffered>, x: Buffered): seq<Buffered> {
    if items == [] then [x]
    else if x.sequence < items[0].sequence then [x] + items
    else [items[0]] + InsertSorted(items[1..], x)
  }

  /** Stable sort by sequence. */
  function SortBySequence(items: seq<Buffered>): seq<Buffered> {
    if items == [] then [] else InsertSorted(SortBySequence(items[..|items| - 1]), items[|items| - 1])
  }

  ghost predicate Ascending(items: seq<Buffered>) {
    forall i, j :: 0 <= i < j < |items| ==> items[i].sequence <= items[j].sequence
  }

  lemma {:induction false} InsertSortedAddsOne(items: seq<Buffered>, x: Buffered)
    ensures multiset(InsertSorted(items, x)) == multiset(items) + multiset{x}
  {
    if items != [] && x.sequence >= items[0].sequence {
      InsertSortedAddsOne(items[1..], x);
      assert items == [items[0]] + items[1..];
    }
  }

  lemma {:induction false} InsertSortedMembers(items: seq<Buffered>, x: Buffered, y: Buffered)
    requires y in InsertSorted(items, x)
    ensures y in items || y == x
  {
    InsertSortedAddsOne(items, x);
    assert y in multiset(InsertSorted(items, x));
  }

  lemma {:induction false} AscendingFrom(head: Buffered, rest: seq<Buffered>)
    requires Ascending(rest) && forall j :: 0 <= j < |rest| ==> head.sequence <= rest[j].sequence
    ensures Ascending([head] + rest)
  {
  }

  lemma {:induction false} InsertSortedAscends(items: seq<Buffered>, x: Buffered)
    requires Ascending(items)
    ensures Ascending(InsertSorted(items, x))
  {
    if items != [] && x.sequence >= items[0].sequence {
      var r := InsertSorted(items[1..], x);
      InsertSortedAscends(items[1..], x);
      forall j | 0 <= j < |r|
        ensures items[0].sequence <= r[j].sequence
      {
        InsertSortedMembers(items[1..], x, r[j]);
      }
      AscendingFrom(items[0], r);
    } else if items != [] {
      AscendingFrom(x, items);
    }
  }

  lemma {:induction false} SortIsCorrect(items: seq<Buffered>)
    ensures Ascending(SortBySequence(items)) && multiset(SortBySequence(items)) == multiset(items)
  {
    if items != [] {
      var n := |items| - 1;
      SortIsCorrect(items[..n]);
      InsertSortedAscends(SortBySequence(items[..n]), items[n]);
      InsertSortedAddsOne(SortBySequence(items[..n]), items[n]);
      assert items == items[..n] + [items[n]];
    }
  }

  lemma {:induction false} SortMembers(items: seq<Buffered>, x: Buffered)
    ensures x in SortBySequence(items) <==> x in items
  {
    SortIsCorrect(items);
    assert x in multiset(SortBySequence(items)) <==> x in multiset(items);
  }

  // ---------- Replay ----------

  datatype Replay = Replay(book: Book, previous: Option<int>, applied: seq<Delta>, ok: bool)

  /** `previous or current - 1`: sequence 0 counts as absent. */
  function SkipThrough(previous: Option<int>, current: int): int {
    if previous.None? || previous.value == 0 then current - 1 else previous.value
  }

  /** Replay behind a stream snapshot: stale deltas are skipped, the first gap fails. */
  function ReplayStream(r: Replay, items: seq<Buffered>): Replay
    decreases |items|
  {
    if items == [] || !r.ok then r
    else
      var x := items[0];
      if x.sequence <= SkipThrough(r.previous, x.sequence) then ReplayStream(r, items[1..])
      else if !IsContiguous(r.previous, x.delta) then r.(ok := false)
      else ReplayStream(Replay(ApplyDelta(r.book, x.delta), Some(x.sequence), r.applied + [x.delta], true), items[1..])
  }

  /** Replay behind a REST snapshot: consecutive sequences only. */
  function ReplayRest(r: Replay, items: seq<Buffered>): Replay
    decreases |items|
  {
    if items == [] || !r.ok then r
    else
      var x := items[0];
      if r.previous.None? || x.sequence != r.previous.value + 1 then r.(ok := false)
      else ReplayRest(Replay(ApplyDelta(r.book, x.delta), Some(x.sequence), r.applied + [x.delta], true), items[1..])
  }

  function Above(items: seq<Buffered>, s: int): seq<Buffered> {
    if items == [] then []
    else Above(items[..|items| - 1], s) + if items[|items| - 1].sequence > s then [items[|items| - 1]] else []
  }

  /** What a replay has done: the book is the start folded with the applied deltas, which have no gap. */
  ghost predicate Explains(start: Book, sequence: Option<int>, r: Replay) {
    r.book == Fold(start, r.applied) && GapFree(sequence, r.applied) && r.previous == Reached(sequence, r.applied)
  }

  lemma {:induction false} ReplayStreamExplains(start: Book, sequence: Option<int>, r: Replay, items: seq<Buffered>)
    requires Explains(start, sequence, r) && forall i :: 0 <= i < |items| ==> items[i].Valid()
    ensures Explains(start, sequence, ReplayStream(r, items))
    decreases |items|
  {
    if items != [] && r.ok {
      var x := items[0];
      if x.sequence <= SkipThrough(r.previous, x.sequence) {
        ReplayStreamExplains(start, sequence, r, items[1..]);
      } else if IsContiguous(r.previous, x.delta) {
        GapFreeAppend(sequence, r.applied, x.delta);
        FoldAppend(start, r.applied, x.delta);
        ReplayStreamExplains(start, sequence, Replay(ApplyDelta(r.book, x.delta), Some(x.sequence), r.applied + [x.delta], true), items[1..]);
      }
    }
  }

  lemma {:induction false} ReplayStreamDraws(r: Replay, items: seq<Buffered>)
    ensures forall d :: d in ReplayStream(r, items).applied ==> d in r.applied || exists i :: 0 <= i < |items| && items[i].delta == d
    decreases |items|
  {
    if items != [] && r.ok {
      var x := items[0];
      if x.sequence <= SkipThrough(r.previous, x.sequence) {
        ReplayStreamDraws(r, items[1..]);
        forall d | d in ReplayStream(r, items).applied && d !in r.applied
          ensures exists i :: 0 <= i < |items| && items[i].delta == d
        {
          var i :| 0 <= i < |items[1..]| && items[1..][i].delta == d;
          assert items[i + 1].delta == d;
        }
      } else if IsContiguous(r.previous, x.delta) {
        var r' := Replay(ApplyDelta(r.book, x.delta), Some(x.sequence), r.applied + [x.delta], true);
        ReplayStreamDraws(r', items[1..]);
        forall d | d in ReplayStream(r, items).applied && d !in r.applied
          ensures exists i :: 0 <= i < |items| && items[i].delta == d
        {
          if d in r'.applied {
            assert items[0].delta == d;
          } else {
            var i :| 0 <= i < |items[1..]| && items[1..][i].delta == d;
            assert items[i + 1].delta == d;
          }
        }
      }
    }
  }

  /** A successful replay applies nothing when no buffered delta is newer than the snapshot ... */
  lemma {:induction false} StaleIsSkipped(r: Replay, items: seq<Buffered>)
    requires r.ok && r.previous.Some? && ReplayStream(r, items).ok
    requires forall i :: 0 <= i < |items| ==> items[i].Valid() && items[i].sequence <= r.previous.value
    ensures ReplayStream(r, items) == r
    decreases |items|
  {
    if items != [] {
      StaleIsSkipped(r, items[1..]);
    }
  }

  /** ... and a successful replay next to a newer delta applies something. */
  lemma {:induction false} NewerIsReplayed(r: Replay, items: seq<Buffered>)
    requires r.ok && r.previous.Some? && ReplayStream(r, items).ok
    requires exists i :: 0 <= i < |items| && items[i].sequence > r.previous.value
    ensures |ReplayStream(r, items).applied| > |r.applied|
    decreases |items|
  {
    var x := items[0];
    if x.sequence <= SkipThrough(r.previous, x.sequence) {
      var i :| 0 <= i < |items| && items[i].sequence > r.previous.value;
      assert items[1..][i - 1] == items[i];
      NewerIsReplayed(r, items[1..]);
    } else {
      AppliedGrows(Replay(ApplyDelta(r.book, x.delta), Some(x.sequence), r.applied + [x.delta], true), items[1..]);
    }
  }

  lemma {:induction false} AppliedGrows(r: Replay, items: seq<Buffered>)
    ensures |ReplayStream(r, items).applied| >= |r.applied|
    decreases |items|
  {
    if items != [] && r.ok {
      var x := items[0];
      if x.sequence <= SkipThrough(r.previous, x.sequence) {
        AppliedGrows(r, items[1..]);
      } else if IsContiguous(r.previous, x.delta) {
        AppliedGrows(Replay(ApplyDelta(r.book, x.delta), Some(x.sequence), r.applied + [x.delta], true), items[1..]);
      }
    }
  }

  // ---------- When a stream replay succeeds ----------

  /** The first of every run of equal sequences. */
  function DropRepeats(items: seq<Buffered>): seq<Buffered>
    decreases |items|
  {
    if |items| < 2 then items
    else if items[0].sequence == items[1].sequence then DropRepeats([items[0]] + items[2..])
    else [items[0]] + DropRepeats(items[1..])
  }

  /** Sequence 0 counts as absent, so nothing is skipped there: at 0 a stale delta is a gap, and so is a second 0. */
  ghost predicate ZeroClear(items: seq<Buffered>, s: int) {
    && (s == 0 ==> forall i :: 0 <= i < |items| ==> items[i].sequence > 0)
    && (s < 0 ==> forall i, j :: 0 <= i < j < |items| ==> !(items[i].sequence == items[j].sequence == 0))
  }

  /** What a replay from sequence `s` is left to apply. */
  function Pending(items: seq<Buffered>, s: int): seq<Delta>
    decreases |items|
  {
    if items == [] then []
    else if items[0].sequence <= s then Pending(items[1..], s)
    else [items[0].delta] + Pending(items[1..], items[0].sequence)
  }

  lemma {:induction false} ZeroClearStep(items: seq<Buffered>, s: int)
    requires items != [] && Ascending(items)
    ensures items[0].sequence <= s != 0 ==> (ZeroClear(items, s) <==> ZeroClear(items[1..], s))
    ensures items[0].sequence > s ==> (ZeroClear(items, s) <==> ZeroClear(items[1..], items[0].sequence))
  {
    var x, rest := items[0], items[1..];
    assert items == [x] + rest;
    if s < 0 && x.sequence == 0 {
      if ZeroClear(items, s) {
        forall i | 0 <= i < |rest| ensures rest[i].sequence > 0 {
          assert rest[i] == items[i + 1];
        }
      } else {
        var i, j :| 0 <= i < j < |items| && items[i].sequence == items[j].sequence == 0;
        assert rest[j - 1].sequence == 0;
      }
    } else if s < 0 && x.sequence != 0 {
      if ZeroClear(items, s) {
        forall i, j | 0 <= i < j < |rest| ensures !(rest[i].sequence == rest[j].sequence == 0) {
          assert rest[i] == items[i + 1] && rest[j] == items[j + 1];
        }
      } else {
        var i, j :| 0 <= i < j < |items| && items[i].sequence == items[j].sequence == 0;
        assert rest[i - 1].sequence == rest[j - 1].sequence == 0;
      }
    }
  }

  lemma {:induction false} GapFreeFrom(start: Option<int>, d: Delta, rest: seq<Delta>)
    ensures GapFree(start, [d] + rest) <==> IsContiguous(start, d) && GapFree(d.sequence, rest)
  {
    GapFreeJoin(start, [d], rest);
    assert [d][..0] == [];
  }

  /** A successful replay of sorted deltas applies exactly what is pending. */
  lemma {:induction false} ReplayAppliesPending(r: Replay, items: seq<Buffered>, s: int)
    requires r.ok && r.previous == Some(s) && ReplayStream(r, items).ok && forall i :: 0 <= i < |items| ==> items[i].Valid()
    ensures ReplayStream(r, items).applied == r.applied + Pending(items, s)
    decreases |items|
  {
    if items != [] {
      var x, rest := items[0], items[1..];
      if x.sequence <= SkipThrough(r.previous, x.sequence) {
        ReplayAppliesPending(r, rest, s);
      } else {
        ReplayAppliesPending(Replay(ApplyDelta(r.book, x.delta), Some(x.sequence), r.applied + [x.delta], true), rest, x.sequence);
      }
    }
  }

  /** A replay of sorted deltas succeeds exactly on a gap-free chain. */
  lemma {:induction false} ReplayStreamExactly(r: Replay, items: seq<Buffered>, s: int)
    requires r.ok && r.previous == Some(s) && Ascending(items) && forall i :: 0 <= i < |items| ==> items[i].Valid()
    ensures ReplayStream(r, items).ok <==> GapFree(Some(s), Pending(items, s)) && ZeroClear(items, s)
    decreases |items|
  {
    if items != [] {
      var x, rest := items[0], items[1..];
      if x.sequence > s {
        assert GapFree(Some(s), Pending(items, s)) <==> IsContiguous(Some(s), x.delta) && GapFree(Some(x.sequence), Pending(rest, x.sequence)) by {
          GapFreeFrom(Some(s), x.delta, Pending(rest, x.sequence));
        }
        if IsContiguous(Some(s), x.delta) {
          assert ZeroClear(items, s) <==> ZeroClear(rest, x.sequence) by { ZeroClearStep(items, s); }
          ReplayStreamExactly(Replay(ApplyDelta(r.book, x.delta), Some(x.sequence), r.applied + [x.delta], true), rest, x.sequence);
        }
      } else if s != 0 {
        assert ZeroClear(items, s) <==> ZeroClear(rest, s) by { ZeroClearStep(items, s); }
        ReplayStreamExactly(r, rest, s);
      }
    }
  }

  lemma {:induction false} AboveSnoc(items: seq<Buffered>, x: Buffered, s: int)
    ensures Above(items + [x], s) == if x.sequence > s then Above(items, s) + [x] else Above(items, s)
  {
    assert (items + [x])[..|items|] == items;
  }

  lemma {:induction false} AboveFrom(x: Buffered, rest: seq<Buffered>, s: int)
    ensures x.sequence > s ==> Above([x] + rest, s) == [x] + Above(rest, s)
    ensures x.sequence <= s ==> Above([x] + rest, s) == Above(rest, s)
  {
    if rest == [] {
      assert [x] + rest == [] + [x];
      AboveSnoc([], x, s);
    } else {
      var front, last := rest[..|rest| - 1], rest[|rest| - 1];
      AboveFrom(x, front, s);
      assert [x] + rest == ([x] + front) + [last] && rest == front + [last];
      AboveSnoc([x] + front, last, s);
      AboveSnoc(front, last, s);
    }
  }

  lemma {:induction false} AllAbove(items: seq<Buffered>, s: int)
    requires forall i :: 0 <= i < |items| ==> items[i].sequence > s
    ensures Above(items, s) == items
  {
    if items != [] {
      AllAbove(items[..|items| - 1], s);
      assert items == items[..|items| - 1] + [items[|items| - 1]];
    }
  }

  /** Behind a delta of sequence s, what is left to apply are the newer ones without repeats. */
  lemma {:induction false} PendingBehind(x: Buffered, rest: seq<Buffered>)
    requires Ascending([x] + rest)
    ensures [x.delta] + Pending(rest, x.sequence) == Deltas(DropRepeats([x] + rest))
    decreases |rest|
  {
    if rest == [] {
      assert [x] + rest == [x];
    } else {
      var y, tail, all := rest[0], rest[1..], [x] + rest;
      assert all[1] == y && all[1..] == rest && rest == [y] + tail && all[2..] == tail;
      assert all[0].sequence <= all[1].sequence;
      if y.sequence == x.sequence {
        AscendingWithout(x, rest);
        PendingBehind(x, tail);
      } else {
        AscendingRest(x, rest);
        PendingBehind(y, tail);
        assert Deltas([x] + DropRepeats(rest)) == [x.delta] + Deltas(DropRepeats(rest));
      }
    }
  }

  lemma {:induction false} AscendingRest(x: Buffered, rest: seq<Buffered>)
    requires Ascending([x] + rest)
    ensures Ascending(rest)
  {
    var all := [x] + rest;
    forall i, j | 0 <= i < j < |rest| ensures rest[i].sequence <= rest[j].sequence {
      assert all[i + 1] == rest[i] && all[j + 1] == rest[j];
    }
  }

  lemma {:induction false} AscendingWithout(x: Buffered, rest: seq<Buffered>)
    requires Ascending([x] + rest) && rest != []
    ensures Ascending([x] + rest[1..])
  {
    var all, less := [x] + rest, [x] + rest[1..];
    forall i, j | 0 <= i < j < |less| ensures less[i].sequence <= less[j].sequence {
      assert less[j] == all[j + 1] && (if i == 0 then less[i] == all[0] else less[i] == all[i + 1]);
    }
  }

  lemma {:induction false} PendingIs(items: seq<Buffered>, s: int)
    requires Ascending(items)
    ensures Pending(items, s) == Deltas(DropRepeats(Above(items, s)))
    decreases |items|
  {
    if items != [] {
      var x, rest := items[0], items[1..];
      assert items == [x] + rest;
      if x.sequence <= s {
        AscendingRest(x, rest);
        AboveFrom(x, rest, s);
        PendingIs(rest, s);
      } else {
        AllAbove(items, s);
        PendingBehind(x, rest);
      }
    }
  }

  /** The deltas to apply behind sequence s: the newer ones of a sorted buffer, each sequence once. */
  function ChainAbove(items: seq<Buffered>, s: int): seq<Delta> {
    Deltas(DropRepeats(Above(items, s)))
  }

  lemma {:induction false} SortedReplays(r: Replay, s: int, items: seq<Buffered>)
    requires r.ok && r.previous == Some(s) && r.applied == []
    requires Ascending(items) && forall i :: 0 <= i < |items| ==> items[i].Valid()
    ensures ReplayStream(r, items).ok <==> GapFree(Some(s), ChainAbove(items, s)) && ZeroClear(items, s)
    ensures ReplayStream(r, items).ok ==>
              ReplayStream(r, items).applied == ChainAbove(items, s) && ReplayStream(r, items).book == Fold(r.book, ChainAbove(items, s))
  {
    assert Pending(items, s) == ChainAbove(items, s) by { PendingIs(items, s); }
    ReplayStreamExactly(r, items, s);
    if ReplayStream(r, items).ok {
      ReplayAppliesPending(r, items, s);
    }
    assert r.applied + Pending(items, s) == Pending(items, s);
    assert Explains(r.book, Some(s), ReplayStream(r, items)) by { ReplayStreamExplains(r.book, Some(s), r, items); }
  }

  /** Away from sequence 0 a delta at or below the snapshot changes nothing, not even what a failed replay leaves. */
  lemma {:induction false} StaleNeverMatters(r: Replay, items: seq<Buffered>, s: int)
    requires r.previous == Some(s) && s != 0 && Ascending(items)
    ensures ReplayStream(r, items) == ReplayStream(r, Above(items, s))
    decreases |items|
  {
    if items != [] {
      var x, rest := items[0], items[1..];
      assert items == [x] + rest;
      if x.sequence <= s {
        AscendingRest(x, rest);
        AboveFrom(x, rest, s);
        StaleNeverMatters(r, rest, s);
      } else {
        AllAbove(items, s);
      }
    }
  }

  lemma {:induction false} InsertAbove(items: seq<Buffered>, x: Buffered, s: int)
    requires Ascending(items)
    ensures Above(InsertSorted(items, x), s) == if x.sequence > s then InsertSorted(Above(items, s), x) else Above(items, s)
    decreases |items|
  {
    if items == [] {
      assert [x][..0] == [];
    } else {
      var y, rest := items[0], items[1..];
      assert items == [y] + rest;
      AboveFrom(y, rest, s);
      if x.sequence < y.sequence {
        AboveFrom(x, items, s);
        if x.sequence > s {
          AllAbove(items, s);
        }
      } else {
        AscendingRest(y, rest);
        InsertAbove(rest, x, s);
        AboveFrom(y, InsertSorted(rest, x), s);
        if y.sequence > s {
          assert ([y] + Above(rest, s))[1..] == Above(rest, s);
          assert InsertSorted([y] + Above(rest, s), x) == [y] + InsertSorted(Above(rest, s), x);
        }
      }
    }
  }

  lemma {:induction false} SortSnoc(items: seq<Buffered>, x: Buffered)
    ensures SortBySequence(items + [x]) == InsertSorted(SortBySequence(items), x)
  {
    assert (items + [x])[..|items|] == items;
  }

  lemma {:induction false} SortAboveSnoc(front: seq<Buffered>, last: Buffered, s: int)
    requires Above(SortBySequence(front), s) == SortBySequence(Above(front, s))
    ensures Above(SortBySequence(front + [last]), s) == SortBySequence(Above(front + [last], s))
  {
    assert Ascending(SortBySequence(front)) by { SortIsCorrect(front); }
    SortSnoc(front, last);
    InsertAbove(SortBySequence(front), last, s);
    AboveSnoc(front, last, s);
    if last.sequence > s {
      SortSnoc(Above(front, s), last);
    }
  }

  /** Dropping what is stale before sorting or after it is the same. */
  lemma {:induction false} SortAbove(items: seq<Buffered>, s: int)
    ensures Above(SortBySequence(items), s) == SortBySequence(Above(items, s))
  {
    if items != [] {
      var front, last := items[..|items| - 1], items[|items| - 1];
      assert items == front + [last];
      assert Above(SortBySequence(front), s) == SortBySequence(Above(front, s)) by { SortAbove(front, s); }
      SortAboveSnoc(front, last, s);
    }
  }

  // ---------- REST recovery ----------

  datatype Recovery = Recovery(book: Book, previous: Option<int>, ok: bool)

  /** Load a REST snapshot and replay the buffered deltas above it. */
  function Recover(snapshot: Snapshot, buffered: seq<Buffered>): Recovery {
    if snapshot.sequence.None? then Recovery(ApplySnapshot(snapshot), None, false)
    else
      var s := snapshot.sequence.value;
      var r := ReplayRest(Replay(ApplySnapshot(snapshot), Some(s), [], true), SortBySequence(Above(buffered, s)));
      Recovery(r.book, r.previous, r.ok)
  }

  function Sequences(items: seq<Buffered>): seq<int> {
    seq(|items|, i requires 0 <= i < |items| => items[i].sequence)
  }

  /** s + 1, s + 2, ..., s + k. */
  function Following(s: int, k: nat): seq<int> {
    seq(k, i => s + 1 + i)
  }

  function Deltas(items: seq<Buffered>): seq<Delta> {
    seq(|items|, i requires 0 <= i < |items| => items[i].delta)
  }

  /** A replay succeeds exactly on consecutive sequences, and then applies all deltas in order. */
  lemma {:induction false} ReplayRestExactly(r: Replay, items: seq<Buffered>)
    requires r.ok && r.previous.Some?
    ensures ReplayRest(r, items).ok <==> Sequences(items) == Following(r.previous.value, |items|)
    ensures ReplayRest(r, items).ok ==> ReplayRest(r, items).book == Fold(r.book, Deltas(items))
                                        && ReplayRest(r, items).previous == Some(r.previous.value + |items|)
    decreases |items|
  {
    if items != [] {
      var x := items[0];
      var s := r.previous.value;
      assert Sequences(items)[0] == x.sequence && Following(s, |items|)[0] == s + 1;
      if x.sequence == s + 1 {
        var r' := Replay(ApplyDelta(r.book, x.delta), Some(x.sequence), r.applied + [x.delta], true);
        ReplayRestExactly(r', items[1..]);
        assert Sequences(items) == [x.sequence] + Sequences(items[1..]);
        assert Following(s, |items|) == [s + 1] + Following(s + 1, |items| - 1);
        assert Sequences(items)[1..] == Sequences(items[1..]) && Following(s, |items|)[1..] == Following(s + 1, |items| - 1);
        assert Deltas(items) == [x.delta] + Deltas(items[1..]);
        FoldFirst(r.book, x.delta, Deltas(items[1..]));
      }
    }
  }

  lemma {:induction false} FoldFirst(b: Book, d: Delta, deltas: seq<Delta>)
    ensures Fold(b, [d] + deltas) == Fold(ApplyDelta(b, d), deltas)
  {
    if deltas == [] {
      assert [d] + deltas == [] + [d];
      FoldAppend(b, [], d);
    } else {
      var n := |deltas| - 1;
      FoldFirst(b, d, deltas[..n]);
      assert [d] + deltas == ([d] + deltas[..n]) + [deltas[n]];
      FoldAppend(b, [d] + deltas[..n], deltas[n]);
    }
  }

  ghost predicate AscendingInts(a: seq<int>) {
    forall i, j :: 0 <= i < j < |a| ==> a[i] <= a[j]
  }

  lemma {:induction false} DropLast(a: seq<int>)
    requires a != []
    ensures multiset(a[..|a| - 1]) == multiset(a) - multiset{a[|a| - 1]}
  {
    assert a == a[..|a| - 1] + [a[|a| - 1]];
  }

  lemma {:induction false} SameLast(a: seq<int>, b: seq<int>)
    requires AscendingInts(a) && AscendingInts(b) && multiset(a) == multiset(b) && a != []
    ensures |a| == |b| && a[|a| - 1] == b[|b| - 1]
  {
    assert |multiset(a)| == |a| && |multiset(b)| == |b|;
    var n := |a| - 1;
    assert a[n] in multiset(b) && b[n] in multiset(a);
    assert a[n] in b && b[n] in a;
  }

  lemma {:induction false} SameBeforeLast(a: seq<int>, b: seq<int>)
    requires AscendingInts(a) && AscendingInts(b) && multiset(a) == multiset(b) && a != []
    ensures |a| == |b| && a[|a| - 1] == b[|b| - 1]
    ensures multiset(a[..|a| - 1]) == multiset(b[..|b| - 1])
  {
    SameLast(a, b);
    DropLast(a);
    DropLast(b);
  }

  /** A multiset of integers has one ascending listing. */
  lemma {:induction false} OneAscendingListing(a: seq<int>, b: seq<int>)
    requires AscendingInts(a) && AscendingInts(b) && multiset(a) == multiset(b)
    ensures a == b
  {
    if a == [] {
      assert |multiset(b)| == |b|;
    } else {
      var n := |a| - 1;
      SameBeforeLast(a, b);
      OneAscendingListing(a[..n], b[..n]);
      assert forall i :: 0 <= i < n ==> a[i] == a[..n][i] && b[i] == b[..n][i];
    }
  }

  function Without(items: seq<Buffered>, j: nat): seq<Buffered>
    requires j < |items|
  {
    items[..j] + items[j + 1..]
  }

  lemma {:induction false} RemoveAt(items: seq<Buffered>, j: nat)
    requires j < |items|
    ensures multiset(items) == multiset(Without(items, j)) + multiset{items[j]}
    ensures multiset(Sequences(items)) == multiset(Sequences(Without(items, j))) + multiset{items[j].sequence}
  {
    assert items == items[..j] + [items[j]] + items[j + 1..];
    var q := Sequences(items);
    assert q == q[..j] + [q[j]] + q[j + 1..];
    assert Sequences(Without(items, j)) == q[..j] + q[j + 1..];
  }

  lemma {:induction false} SameItemsSameSequences(a: seq<Buffered>, b: seq<Buffered>)
    requires multiset(a) == multiset(b)
    ensures multiset(Sequences(a)) == multiset(Sequences(b))
  {
    if a == [] {
      assert |multiset(b)| == |b|;
    } else {
      assert a[0] in multiset(b);
      var j :| 0 <= j < |b| && b[j] == a[0];
      RemoveAt(a, 0);
      RemoveAt(b, j);
      SameRest(multiset(Without(a, 0)), multiset(Without(b, j)), a[0]);
      SameItemsSameSequences(Without(a, 0), Without(b, j));
    }
  }

  lemma {:induction false} SameRest(x: multiset<Buffered>, y: multiset<Buffered>, e: Buffered)
    requires x + multiset{e} == y + multiset{e}
    ensures x == y
  {
    assert x == (x + multiset{e}) - multiset{e};
    assert y == (y + multiset{e}) - multiset{e};
  }

  lemma {:induction false} AboveCounts(items: seq<Buffered>, s: int, x: Buffered)
    ensures multiset(Above(items, s))[x] == if x.sequence > s then multiset(items)[x] else 0
  {
    if items != [] {
      var n := |items| - 1;
      AboveCounts(items[..n], s, x);
      assert items == items[..n] + [items[n]];
      AboveSnoc(items[..n], items[n], s);
    }
  }

  lemma {:induction false} SameItemsAbove(a: seq<Buffered>, b: seq<Buffered>, s: int)
    requires multiset(a) == multiset(b)
    ensures multiset(Above(a, s)) == multiset(Above(b, s))
  {
    forall x: Buffered
      ensures multiset(Above(a, s))[x] == multiset(Above(b, s))[x]
    {
      AboveCounts(a, s, x);
      AboveCounts(b, s, x);
    }
  }

  /** How many items have the sequence `x`. */
  function Occurrences(items: seq<Buffered>, x: int): nat {
    multiset(Sequences(items))[x]
  }

  /** The k items have the sequences s+1 .. s+k, each once, in any order. */
  ghost predicate HoldsFollowing(items: seq<Buffered>, s: int) {
    forall x :: Occurrences(items, x) == if s < x <= s + |items| then 1 else 0
  }

  lemma {:induction false} FollowingCounts(s: int, k: nat, x: int)
    ensures multiset(Following(s, k))[x] == if s < x <= s + k then 1 else 0
  {
    if k > 0 {
      FollowingCounts(s, k - 1, x);
      assert Following(s, k) == Following(s, k - 1) + [s + k];
    }
  }

  lemma {:induction false} HoldsAsMultiset(items: seq<Buffered>, s: int)
    ensures HoldsFollowing(items, s) <==> multiset(Sequences(items)) == multiset(Following(s, |items|))
  {
    forall x
      ensures multiset(Following(s, |items|))[x] == if s < x <= s + |items| then 1 else 0
    {
      FollowingCounts(s, |items|, x);
    }
    if HoldsFollowing(items, s) {
      forall x: int
        ensures multiset(Sequences(items))[x] == multiset(Following(s, |items|))[x]
      {
        assert Occurrences(items, x) == if s < x <= s + |items| then 1 else 0;
      }
    }
  }

  /** They are listed as s+1, s+2, ..., s+k. */
  ghost predicate ListsFollowing(items: seq<Buffered>, s: int) {
    Sequences(items) == Following(s, |items|)
  }

  /** The sorted buffer has consecutive sequences exactly when the buffer holds them in any order. */
  lemma {:induction false} ConsecutiveInAnyOrder(items: seq<Buffered>, s: int)
    ensures ListsFollowing(SortBySequence(items), s) <==> HoldsFollowing(items, s)
  {
    var sorted := SortBySequence(items);
    SortIsCorrect(items);
    SortKeepsLength(items);
    SameItemsSameSequences(items, sorted);
    HoldsAsMultiset(items, s);
    if HoldsFollowing(items, s) {
      OneAscendingListing(Sequences(sorted), Following(s, |items|));
    }
  }

  /** What a replay of a listing from `start` leaves. */
  lemma {:induction false} ListReplays(start: Book, s: int, items: seq<Buffered>)
    ensures ReplayRest(Replay(start, Some(s), [], true), items).ok <==> ListsFollowing(items, s)
    ensures ReplayRest(Replay(start, Some(s), [], true), items).ok ==>
              && ReplayRest(Replay(start, Some(s), [], true), items).book == Fold(start, Deltas(items))
              && ReplayRest(Replay(start, Some(s), [], true), items).previous == Some(s + |items|)
  {
    ReplayRestExactly(Replay(start, Some(s), [], true), items);
  }

  lemma {:induction false} ListedRecovers(snapshot: Snapshot, buffered: seq<Buffered>, s: int)
    requires snapshot.sequence == Some(s) && ListsFollowing(SortBySequence(Above(buffered, s)), s)
    ensures Recover(snapshot, buffered)
            == Recovery(Fold(ApplySnapshot(snapshot), Deltas(SortBySequence(Above(buffered, s)))), Some(s + |Above(buffered, s)|), true)
  {
    ListReplays(ApplySnapshot(snapshot), s, SortBySequence(Above(buffered, s)));
    SortKeepsLength(Above(buffered, s));
  }

  lemma {:induction false} RecoveredIsListed(snapshot: Snapshot, buffered: seq<Buffered>, s: int)
    requires snapshot.sequence == Some(s) && Recover(snapshot, buffered).ok
    ensures ListsFollowing(SortBySequence(Above(buffered, s)), s)
  {
    ListReplays(ApplySnapshot(snapshot), s, SortBySequence(Above(buffered, s)));
  }

  lemma {:induction false} HeldRecovers(snapshot: Snapshot, buffered: seq<Buffered>, s: int)
    requires snapshot.sequence == Some(s) && HoldsFollowing(Above(buffered, s), s)
    ensures Recover(snapshot, buffered)
            == Recovery(Fold(ApplySnapshot(snapshot), Deltas(SortBySequence(Above(buffered, s)))), Some(s + |Above(buffered, s)|), true)
  {
    assert ListsFollowing(SortBySequence(Above(buffered, s)), s) by { ConsecutiveInAnyOrder(Above(buffered, s), s); }
    ListedRecovers(snapshot, buffered, s);
  }

  lemma {:induction false} RecoveredIsHeld(snapshot: Snapshot, buffered: seq<Buffered>, s: int)
    requires snapshot.sequence == Some(s) && Recover(snapshot, buffered).ok
    ensures HoldsFollowing(Above(buffered, s), s)
  {
    assert ListsFollowing(SortBySequence(Above(buffered, s)), s) by { RecoveredIsListed(snapshot, buffered, s); }
    ConsecutiveInAnyOrder(Above(buffered, s), s);
  }

  /**
   REST recovery succeeds exactly when the buffered sequences above the snapshot's are s+1 .. s+k
   without gap or repeat, in whatever order they arrived; the book is then the snapshot folded with
   those deltas in sequence order, and the connection stands at s+k.
   */
  lemma {:induction false} RecoverySucceedsExactly(snapshot: Snapshot, buffered: seq<Buffered>, s: int)
    requires snapshot.sequence == Some(s)
    ensures Recover(snapshot, buffered).ok <==> HoldsFollowing(Above(buffered, s), s)
    ensures Recover(snapshot, buffered).ok ==>
              Recover(snapshot, buffered)
              == Recovery(Fold(ApplySnapshot(snapshot), Deltas(SortBySequence(Above(buffered, s)))), Some(s + |Above(buffered, s)|), true)
  {
    if Recover(snapshot, buffered).ok {
      RecoveredIsHeld(snapshot, buffered, s);
      HeldRecovers(snapshot, buffered, s);
    } else if HoldsFollowing(Above(buffered, s), s) {
      HeldRecovers(snapshot, buffered, s);
    }
  }

  lemma {:induction false} SortKeepsLength(items: seq<Buffered>)
    ensures |SortBySequence(items)| == |items|
  {
    SortIsCorrect(items);
    assert |multiset(SortBySequence(items))| == |multiset(items)|;
  }

  lemma {:induction false} ConsecutiveListing(a: seq<Buffered>, b: seq<Buffered>, s: int)
    requires multiset(a) == multiset(b) && ListsFollowing(a, s) && ListsFollowing(b, s)
    ensures a == b
  {
    assert |multiset(a)| == |a| && |multiset(b)| == |b|;
    forall i | 0 <= i < |a|
      ensures a[i] == b[i]
    {
      assert a[i] in multiset(b);
      var j :| 0 <= j < |b| && b[j] == a[i];
      assert Sequences(a)[i] == s + 1 + i && Sequences(b)[j] == s + 1 + j;
    }
  }

  lemma {:induction false} SameListing(x: seq<Buffered>, y: seq<Buffered>, s: int)
    requires multiset(x) == multiset(y) && HoldsFollowing(x, s)
    ensures HoldsFollowing(y, s) && |x| == |y| && SortBySequence(x) == SortBySequence(y)
  {
    assert |x| == |y| by { assert |multiset(x)| == |multiset(y)|; }
    assert HoldsFollowing(y, s) by {
      SameItemsSameSequences(x, y);
      forall n
        ensures Occurrences(y, n) == if s < n <= s + |y| then 1 else 0
      {
        assert Occurrences(x, n) == Occurrences(y, n);
      }
    }
    assert ListsFollowing(SortBySequence(x), s) by { ConsecutiveInAnyOrder(x, s); }
    assert ListsFollowing(SortBySequence(y), s) by { ConsecutiveInAnyOrder(y, s); }
    assert multiset(SortBySequence(x)) == multiset(SortBySequence(y)) by {
      SortIsCorrect(x);
      SortIsCorrect(y);
    }
    ConsecutiveListing(SortBySequence(x), SortBySequence(y), s);
  }

  lemma {:induction false} RecoversAlike(snapshot: Snapshot, a: seq<Buffered>, b: seq<Buffered>, s: int)
    requires snapshot.sequence == Some(s) && multiset(a) == multiset(b) && Recover(snapshot, a).ok
    ensures Recover(snapshot, a) == Recover(snapshot, b)
  {
    assert HoldsFollowing(Above(a, s), s) by { RecoveredIsHeld(snapshot, a, s); }
    assert HoldsFollowing(Above(b, s), s) && SortBySequence(Above(a, s)) == SortBySequence(Above(b, s)) by {
      SameItemsAbove(a, b, s);
      SameListing(Above(a, s), Above(b, s), s);
    }
  }

  /** The outcome of a recovery does not depend on the order of arrival. */
  lemma {:induction false} ArrivalOrderIsIrrelevant(snapshot: Snapshot, a: seq<Buffered>, b: seq<Buffered>)
    requires snapshot.sequence.Some? && multiset(a) == multiset(b)
    ensures Recover(snapshot, a).ok == Recover(snapshot, b).ok
    ensures Recover(snapshot, a).ok ==> Recover(snapshot, a) == Recover(snapshot, b)
  {
    if Recover(snapshot, a).ok {
      RecoversAlike(snapshot, a, b, snapshot.sequence.value);
    } else if Recover(snapshot, b).ok {
      RecoversAlike(snapshot, b, a, snapshot.sequence.value);
    }
  }
}

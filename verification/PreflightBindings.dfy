/**
 Bindings of cross-venue signals to one preflight, the compare-and-set store that holds them, and
 what any interleaving of gateways on that store keeps.
 */
module PreflightBindings {
  import opened Common

  datatype BindingState =
    | Unbound | Reserved | FirstLegAccepted | SecondLegSubmitted | HedgingRequired
    | ReconciliationRequired | Completed | Aborted | Halted

  datatype Role = ReceiveLeg | PayLeg

  /**
   The signed content of a preflight. Its hash is modelled by the content itself, which is what an
   injective hash identifies; `rest` stands for the fields that the binding does not look at.
   */
  datatype Preflight = Preflight(signalId: string, receiveVenue: string, payVenue: string, rest: nat)

  datatype PositionBaseline = PositionBaseline(venue: string, symbol: string, quantityBefore: real, capturedAt: int)

  datatype Binding = Binding(
    signalId: string,
    preflightHash: Option<Preflight>,
    state: BindingState,
    firstLegRole: Option<Role>,
    firstRequestId: Option<string>,
    firstExternalId: Option<string>,
    secondRequestId: Option<string>,
    secondExternalId: Option<string>,
    version: int,
    createdAt: Option<int>,
    updatedAt: Option<int>,
    baseline: Option<PositionBaseline>)

  function UnboundBinding(signalId: string): Binding {
    Binding(signalId, None, Unbound, None, None, None, None, None, 0, None, None, None)
  }

  function NewBinding(signalId: string, preflightHash: Preflight, state: BindingState, now: int): Binding {
    Binding(signalId, Some(preflightHash), state, None, None, None, None, None, 1, Some(now), Some(now), None)
  }

  // ---------- The abstract store ----------

  type Store = map<string, Binding>

  function Current(store: Store, signalId: string): Binding {
    if signalId in store then store[signalId] else UnboundBinding(signalId)
  }

  /** Compare-and-set: replaces the binding of a signal if its version is the expected one. */
  function Cas(store: Store, signalId: string, expected: int, b: Binding): (Store, bool) {
    if b.signalId != signalId || Current(store, signalId).version != expected || b.version != expected + 1 then (store, false)
    else (store[signalId := b], true)
  }

  class InMemoryRepository {
    var bindings: Store

    constructor ()
      ensures bindings == map[]
    {
      bindings := map[];
    }

    method CompareAndSet(signalId: string, expected: int, b: Binding) returns (ok: bool)
      modifies this
      ensures (bindings, ok) == Cas(old(bindings), signalId, expected, b)
    {
      var actual := 0;
      if signalId in bindings {
        actual := bindings[signalId].version;
      }
      if b.signalId != signalId || actual != expected || b.version != expected + 1 {
        return false;
      }
      bindings := bindings[signalId := b];
      return true;
    }
  }

  // ---------- The relational store ----------

  /** A table row: the position baseline is flattened into nullable columns. */
  datatype Row = Row(
    signalId: string,
    preflightHash: Option<Preflight>,
    state: BindingState,
    firstLegRole: Option<Role>,
    firstRequestId: Option<string>,
    firstExternalId: Option<string>,
    secondRequestId: Option<string>,
    secondExternalId: Option<string>,
    version: int,
    createdAt: Option<int>,
    updatedAt: Option<int>,
    positionVenue: Option<string>,
    positionSymbol: Option<string>,
    positionQuantityBefore: Option<real>,
    positionCapturedAt: Option<int>)

  function Values(b: Binding): Row {
    Row(b.signalId, b.preflightHash, b.state, b.firstLegRole, b.firstRequestId, b.firstExternalId, b.secondRequestId,
        b.secondExternalId, b.version, b.createdAt, b.updatedAt,
        if b.baseline.Some? then Some(b.baseline.value.venue) else None,
        if b.baseline.Some? then Some(b.baseline.value.symbol) else None,
        if b.baseline.Some? then Some(b.baseline.value.quantityBefore) else None,
        if b.baseline.Some? then Some(b.baseline.value.capturedAt) else None)
  }

  function ToBinding(r: Row): Binding {
    Binding(r.signalId, r.preflightHash, r.state, r.firstLegRole, r.firstRequestId, r.firstExternalId, r.secondRequestId,
            r.secondExternalId, r.version, r.createdAt, r.updatedAt,
            if r.positionVenue.Some? && r.positionSymbol.Some? && r.positionQuantityBefore.Some? && r.positionCapturedAt.Some?
            then Some(PositionBaseline(r.positionVenue.value, r.positionSymbol.value, r.positionQuantityBefore.value, r.positionCapturedAt.value))
            else None)
  }

  type Table = map<string, Row>

  /** The bindings that the table stores. */
  function Stored(table: Table): Store {
    map signalId | signalId in table :: ToBinding(table[signalId])
  }

  /** Inserts for expected version 0 and otherwise updates the row of the expected version. */
  function SqlCas(table: Table, signalId: string, expected: int, b: Binding): (Table, bool) {
    if b.signalId != signalId || b.version != expected + 1 then (table, false)
    else if (if expected == 0 then signalId !in table else signalId in table && table[signalId].version == expected)
    then (table[signalId := Values(b)], true)
    else (table, false)
  }

  class SqlRepository {
    var table: Table

    constructor ()
      ensures table == map[]
    {
      table := map[];
    }

    /** Behaves as the abstract compare-and-set on every table whose versions start at 1. */
    method CompareAndSet(signalId: string, expected: int, b: Binding) returns (ok: bool)
      modifies this
      ensures var spec := Cas(Stored(old(table)), signalId, expected, b);
              var clash := expected == 0 && signalId in old(table) && old(table)[signalId].version == 0;
              if clash then !ok && table == old(table) else Stored(table) == spec.0 && ok == spec.1
      ensures (table, ok) == SqlCas(old(table), signalId, expected, b)
    {
      if b.signalId != signalId || b.version != expected + 1 {
        return false;
      }
      if expected == 0 {
        if b.signalId in table {
          return false;
        }
        ok := true;
      } else {
        ok := signalId in table && table[signalId].version == expected;
      }
      if ok {
        table := table[signalId := Values(b)];
        assert Stored(table) == Stored(old(table))[signalId := b];
      }
    }
  }

  /** Rows lose nothing: storing and loading a binding gives it back. */
  lemma {:induction false} RowRoundTrip(b: Binding)
    ensures ToBinding(Values(b)) == b
  {
  }

  // ---------- Both stores over runs ----------

  datatype Attempt = Attempt(signalId: string, expected: int, binding: Binding)

  function MemoryRun(store: Store, attempts: seq<Attempt>): (Store, seq<bool>) {
    if attempts == [] then (store, [])
    else
      var x := attempts[|attempts| - 1];
      var (before, answers) := MemoryRun(store, attempts[..|attempts| - 1]);
      var (after, ok) := Cas(before, x.signalId, x.expected, x.binding);
      (after, answers + [ok])
  }

  function SqlRun(table: Table, attempts: seq<Attempt>): (Table, seq<bool>) {
    if attempts == [] then (table, [])
    else
      var x := attempts[|attempts| - 1];
      var (before, answers) := SqlRun(table, attempts[..|attempts| - 1]);
      var (after, ok) := SqlCas(before, x.signalId, x.expected, x.binding);
      (after, answers + [ok])
  }

  predicate FromOne(table: Table) {
    forall id :: id in table ==> table[id].version >= 1
  }

  lemma {:induction false} SqlCasRefines(table: Table, signalId: string, expected: int, b: Binding)
    requires FromOne(table)
    ensures FromOne(SqlCas(table, signalId, expected, b).0)
    ensures (Stored(SqlCas(table, signalId, expected, b).0), SqlCas(table, signalId, expected, b).1)
            == Cas(Stored(table), signalId, expected, b)
  {
    RowRoundTrip(b);
    assert Stored(table[signalId := Values(b)]) == Stored(table)[signalId := ToBinding(Values(b))];
  }

  /** From empty stores both repositories give the same answers to any attempts and store the same bindings. */
  lemma {:induction false} StoresAgree(attempts: seq<Attempt>)
    ensures FromOne(SqlRun(map[], attempts).0)
    ensures Stored(SqlRun(map[], attempts).0) == MemoryRun(map[], attempts).0
    ensures SqlRun(map[], attempts).1 == MemoryRun(map[], attempts).1
  {
    if attempts == [] {
      assert Stored(map[]) == map[];
    } else {
      var x, before := attempts[|attempts| - 1], attempts[..|attempts| - 1];
      StoresAgree(before);
      SqlCasRefines(SqlRun(map[], before).0, x.signalId, x.expected, x.binding);
    }
  }

  // ---------- Any interleaving of gateways ----------

  /** A binding computed from the one a gateway has read. */
  predicate Derived(read: Binding, b: Binding) {
    && b.signalId == read.signalId
    && b.version == read.version + 1
    && (read.version > 0 ==> b.createdAt == read.createdAt)
  }

  /** `history` records, per signal, every binding that was ever stored. */
  datatype System = System(store: Store, history: map<string, seq<Binding>>, seen: map<nat, set<Binding>>)

  /** A gateway reads a binding, or writes one that it computed from an earlier read. */
  datatype Action = Read(gateway: nat, signalId: string) | Write(gateway: nat, read: Binding, binding: Binding)

  function History(s: System, signalId: string): seq<Binding> {
    if signalId in s.history then s.history[signalId] else []
  }

  function Seen(s: System, gateway: nat): set<Binding> {
    if gateway in s.seen then s.seen[gateway] else {}
  }

  /** A gateway can only write what it derived from one of its own reads, however old. */
  predicate Enabled(s: System, a: Action) {
    a.Write? ==> a.read in Seen(s, a.gateway) && Derived(a.read, a.binding)
  }

  predicate Wins(s: System, a: Action)
    requires Enabled(s, a)
  {
    a.Write? && Cas(s.store, a.binding.signalId, a.read.version, a.binding).1
  }

  function Act(s: System, a: Action): System
    requires Enabled(s, a)
  {
    match a
    case Read(g, signalId) => s.(seen := s.seen[g := Seen(s, g) + {Current(s.store, signalId)}])
    case Write(_, read, b) =>
      if Wins(s, a) then s.(store := Cas(s.store, b.signalId, read.version, b).0,
                            history := s.history[b.signalId := History(s, b.signalId) + [b]])
      else s
  }

  /** Versions 1, 2, 3, ..., each binding computed from exactly its predecessor. */
  ghost predicate Chain(signalId: string, bindings: seq<Binding>) {
    && (bindings != [] ==> Derived(UnboundBinding(signalId), bindings[0]))
    && (forall i :: 0 <= i < |bindings| ==> bindings[i].version == i + 1 && bindings[i].signalId == signalId)
    && (forall i :: 0 < i < |bindings| ==> Derived(bindings[i - 1], bindings[i]))
  }

  ghost predicate SignalOk(s: System, signalId: string) {
    var h := History(s, signalId);
    && Chain(signalId, h)
    && (signalId in s.store <==> h != [])
    && (h != [] ==> s.store[signalId] == h[|h| - 1])
  }

  /** Whatever a gateway has read is some version that was stored, or the unbound default. */
  ghost predicate ReadOk(s: System, b: Binding) {
    var h := History(s, b.signalId);
    0 <= b.version <= |h| && b == (if b.version == 0 then UnboundBinding(b.signalId) else h[b.version - 1])
  }

  ghost predicate Consistent(s: System) {
    && (forall signalId :: SignalOk(s, signalId))
    && (forall g, b :: b in Seen(s, g) ==> ReadOk(s, b))
  }

  ghost predicate Runs(s: System, actions: seq<Action>)
    decreases |actions|
  {
    actions == [] || (Enabled(s, actions[0]) && Runs(Act(s, actions[0]), actions[1..]))
  }

  function After(s: System, actions: seq<Action>): System
    requires Runs(s, actions)
    decreases |actions|
  {
    if actions == [] then s else After(Act(s, actions[0]), actions[1..])
  }

  /** A write wins exactly when the stored binding is the very one it was computed from. */
  lemma {:induction false} WinsFromPredecessor(s: System, a: Action)
    requires Consistent(s) && a.Write? && Enabled(s, a)
    ensures Wins(s, a) <==> Current(s.store, a.binding.signalId) == a.read
  {
    assert ReadOk(s, a.read) && SignalOk(s, a.read.signalId);
  }

  lemma {:induction false} ChainExtends(signalId: string, h: seq<Binding>, b: Binding)
    requires Chain(signalId, h)
    requires Derived(if h == [] then UnboundBinding(signalId) else h[|h| - 1], b)
    ensures Chain(signalId, h + [b])
  {
  }

  lemma {:induction false} ReadKeepsConsistent(s: System, g: nat, signalId: string)
    requires Consistent(s)
    ensures Consistent(Act(s, Read(g, signalId)))
  {
    var s' := Act(s, Read(g, signalId));
    assert SignalOk(s, signalId);
    forall x
      ensures SignalOk(s', x)
    {
      assert SignalOk(s, x);
    }
    forall h, b | b in Seen(s', h)
      ensures ReadOk(s', b)
    {
      if b in Seen(s, h) {
        assert ReadOk(s, b);
      }
    }
  }

  lemma {:induction false} WinKeepsSignals(s: System, a: Action, signalId: string)
    requires Consistent(s) && Enabled(s, a) && Wins(s, a)
    ensures SignalOk(Act(s, a), signalId)
  {
    assert SignalOk(s, signalId);
    if signalId == a.binding.signalId {
      WinsFromPredecessor(s, a);
      ChainExtends(signalId, History(s, signalId), a.binding);
    }
  }

  lemma {:induction false} WinKeepsReads(s: System, a: Action, b: Binding)
    requires Enabled(s, a) && Wins(s, a) && ReadOk(s, b)
    ensures ReadOk(Act(s, a), b)
  {
  }

  lemma {:induction false} ActKeepsConsistent(s: System, a: Action)
    requires Consistent(s) && Enabled(s, a)
    ensures Consistent(Act(s, a))
  {
    if a.Read? {
      ReadKeepsConsistent(s, a.gateway, a.signalId);
    } else if Wins(s, a) {
      forall x
        ensures SignalOk(Act(s, a), x)
      {
        WinKeepsSignals(s, a, x);
      }
      forall g, b | b in Seen(Act(s, a), g)
        ensures ReadOk(Act(s, a), b)
      {
        assert b in Seen(s, g);
        WinKeepsReads(s, a, b);
      }
    }
  }

  /**
   Under any interleaving, each signal's bindings form a chain of versions 1, 2, 3, ... in which each
   is computed from exactly its predecessor.
   */
  lemma {:induction false} InterleavingsKeepChain(s: System, actions: seq<Action>)
    requires Consistent(s) && Runs(s, actions)
    ensures Consistent(After(s, actions))
    decreases |actions|
  {
    if actions != [] {
      ActKeepsConsistent(s, actions[0]);
      InterleavingsKeepChain(Act(s, actions[0]), actions[1..]);
    }
  }

  lemma {:induction false} CreationIsConstant(signalId: string, h: seq<Binding>, i: nat)
    requires Chain(signalId, h) && i < |h|
    ensures h[i].createdAt == h[0].createdAt
  {
    if i > 0 {
      CreationIsConstant(signalId, h, i - 1);
      assert Derived(h[i - 1], h[i]);
    }
  }

  lemma {:induction false} HistoryGrows(s: System, actions: seq<Action>, signalId: string)
    requires Runs(s, actions)
    ensures History(s, signalId) <= History(After(s, actions), signalId)
    decreases |actions|
  {
    if actions != [] {
      HistoryGrows(Act(s, actions[0]), actions[1..], signalId);
    }
  }

  /** At most one attempt per version wins: once a write won, every other write of that version fails forever. */
  lemma {:induction false} OneWinnerPerVersion(s: System, winner: Action, actions: seq<Action>, rival: Action)
    requires Consistent(s) && Enabled(s, winner) && Wins(s, winner)
    requires Runs(Act(s, winner), actions) && Enabled(After(Act(s, winner), actions), rival) && rival.Write?
    requires rival.binding.signalId == winner.binding.signalId && rival.binding.version == winner.binding.version
    ensures !Wins(After(Act(s, winner), actions), rival)
  {
    var s1 := Act(s, winner);
    var s2 := After(s1, actions);
    var signalId := winner.binding.signalId;
    ActKeepsConsistent(s, winner);
    InterleavingsKeepChain(s1, actions);
    HistoryGrows(s1, actions, signalId);
    assert SignalOk(s, signalId) && SignalOk(s1, signalId) && SignalOk(s2, signalId);
    var h1, h2 := History(s1, signalId), History(s2, signalId);
    assert h1[|h1| - 1] == winner.binding;
    assert s2.store[signalId].version == |h2| >= winner.binding.version;
  }
}

/**
 What an exchange snapshot proves about a submitted order: that it exists, that it is absent, or
 neither. The verdict depends on the order of the tests, not on the order of the listings.
 */
module Reconciliation {
  import opened Common
  import opened Execution
  import opened PreflightBindings

  datatype RecoveryAction = AlternateHedge | PartialHedge | FirstLegUnwind

  datatype Request = Request(
    requestId: string,
    idempotencyKey: string,
    signalId: string,
    receiveVenue: string,
    payVenue: string,
    preflight: Preflight,
    role: Role,
    action: Option<RecoveryAction>,
    exchange: string,
    symbol: string,
    side: Side,
    quantity: real,
    reduceOnly: bool,
    createdAt: int)

  datatype ReconciledStatus = Pending | Open | PartlyFilled | FullyFilled | Canceled | Refused | Lapsed

  datatype ReconciledOrder_ = ReconciledOrder(
    clientOrderId: string, externalId: string, exchange: string, symbol: string, side: Side, quantity: real,
    reduceOnly: bool, status: ReconciledStatus, createdAt: int, updatedAt: int)
  {
    predicate Valid() {
      && clientOrderId != "" && externalId != "" && exchange != "" && symbol != ""
      && quantity > 0.0 && createdAt <= updatedAt
    }
  }

  type ReconciledOrder = o: ReconciledOrder_ | o.Valid()
    witness ReconciledOrder("c", "e", "x", "s", Buy, 1.0, false, Open, 0, 0)

  datatype ExchangeFill_ = ExchangeFill(
    fillId: string, exchangeOrderId: string, clientOrderId: string, exchange: string, symbol: string, side: Side,
    quantity: real, executedAt: int)
  {
    predicate Valid() {
      fillId != "" && exchangeOrderId != "" && clientOrderId != "" && exchange != "" && symbol != "" && quantity > 0.0
    }
  }

  type ExchangeFill = f: ExchangeFill_ | f.Valid() witness ExchangeFill("f", "e", "c", "x", "s", Buy, 1.0, 0)

  datatype OpenOrder_ = OpenOrder(
    clientOrderId: string, externalId: string, exchange: string, symbol: string, side: Side, quantity: real,
    reduceOnly: bool, createdAt: int)
  {
    predicate Valid() {
      clientOrderId != "" && externalId != "" && exchange != "" && symbol != "" && quantity > 0.0
    }
  }

  type OpenOrder = o: OpenOrder_ | o.Valid() witness OpenOrder("c", "e", "x", "s", Buy, 1.0, false, 0)

  datatype LivePosition = LivePosition(exchange: string, symbol: string, quantity: real)

  /** The exchange state about one request: `fills` and `openOrders` already match the request. */
  datatype Evidence = Evidence(
    baseline: Option<PositionBaseline>,
    clientOrder: Option<ReconciledOrder>,
    fills: seq<ExchangeFill>,
    openOrders: seq<OpenOrder>,
    positions: seq<LivePosition>,
    capturedAt: int)

  // ---------- Collecting the evidence ----------

  function Since(request: Request, baseline: Option<PositionBaseline>): int {
    if baseline.Some? then baseline.value.capturedAt else request.createdAt
  }

  predicate FillMatches(request: Request, since: int, until: int, f: ExchangeFill) {
    && f.clientOrderId == request.requestId && f.exchange == request.exchange && f.symbol == request.symbol
    && f.side == request.side && since <= f.executedAt <= until
  }

  predicate OpenOrderMatches(request: Request, since: int, until: int, o: OpenOrder) {
    && o.clientOrderId == request.requestId && o.exchange == request.exchange && o.symbol == request.symbol
    && o.side == request.side && o.reduceOnly == request.reduceOnly && o.quantity == request.quantity
    && since <= o.createdAt <= until
  }

  function Select<T(!new)>(items: seq<T>, keep: T -> bool): (r: seq<T>)
    ensures forall x :: x in r <==> x in items && keep(x)
  {
    if items == [] then [] else Select(items[..|items| - 1], keep) + if keep(items[|items| - 1]) then [items[|items| - 1]] else []
  }

  /** The raw answers of the exchange, filtered to the request and to the time since the baseline. */
  function Collect(request: Request, baseline: Option<PositionBaseline>, clientOrder: Option<ReconciledOrder>, fills: seq<ExchangeFill>,
                   openOrders: seq<OpenOrder>, positions: seq<LivePosition>, capturedAt: int): Evidence
  {
    var since := Since(request, baseline);
    Evidence(baseline, clientOrder,
             Select(fills, (f: ExchangeFill) => FillMatches(request, since, capturedAt, f)),
             Select(openOrders, (o: OpenOrder) => OpenOrderMatches(request, since, capturedAt, o)),
             positions, capturedAt)
  }

  // ---------- The predicates ----------

  predicate ClientOrderMatches(request: Request, e: Evidence) {
    && e.clientOrder.Some?
    && var o := e.clientOrder.value;
    && o.clientOrderId == request.requestId && o.exchange == request.exchange && o.symbol == request.symbol
    && o.side == request.side && o.quantity == request.quantity && o.reduceOnly == request.reduceOnly
    && Since(request, e.baseline) <= o.createdAt <= e.capturedAt
    && o.createdAt <= o.updatedAt <= e.capturedAt
  }

  function PositionsOf(request: Request, positions: seq<LivePosition>): seq<LivePosition> {
    Select(positions, (p: LivePosition) => p.exchange == request.exchange && p.symbol == request.symbol)
  }

  /** How the position moved since the baseline, when that can be told. */
  function PositionDelta(request: Request, e: Evidence): Option<real> {
    if e.baseline.None? || e.baseline.value.venue != request.exchange || e.baseline.value.symbol != request.symbol then None
    else
      var matching := PositionsOf(request, e.positions);
      if |matching| > 1 then None
      else Some((if matching == [] then 0.0 else matching[0].quantity) - e.baseline.value.quantityBefore)
  }

  function FilledTotal(fills: seq<ExchangeFill>): real {
    if fills == [] then 0.0 else FilledTotal(fills[..|fills| - 1]) + fills[|fills| - 1].quantity
  }

  function SignedTotal(request: Request, fills: seq<ExchangeFill>): real {
    if request.side.Buy? then FilledTotal(fills) else -FilledTotal(fills)
  }

  predicate FillsMatchDelta(request: Request, e: Evidence) {
    && e.fills != [] && PositionDelta(request, e).Some?
    && FilledTotal(e.fills) <= request.quantity
    && PositionDelta(request, e).value == SignedTotal(request, e.fills)
  }

  predicate ProvesExists(request: Request, e: Evidence) {
    || (ClientOrderMatches(request, e) && (e.clientOrder.value.status.Open? || e.clientOrder.value.status.PartlyFilled? || e.clientOrder.value.status.FullyFilled?))
    || |e.openOrders| == 1
    || FillsMatchDelta(request, e)
  }

  predicate ProvesAbsent(request: Request, e: Evidence) {
    && (e.clientOrder.Some? ==> ClientOrderMatches(request, e))
    && e.fills == [] && e.openOrders == []
    && PositionDelta(request, e) == Some(0.0)
  }

  function FillIds(fills: seq<ExchangeFill>): set<string> {
    set f | f in fills :: f.fillId
  }

  function OrderIds(fills: seq<ExchangeFill>): set<string> {
    set f | f in fills :: f.exchangeOrderId
  }

  predicate IsAmbiguous(request: Request, e: Evidence) {
    || (e.clientOrder.Some? && !ClientOrderMatches(request, e))
    || (e.clientOrder.Some? && e.clientOrder.value.status.Pending?)
    || |e.openOrders| > 1
    || (e.fills != [] && (|FillIds(e.fills)| != |e.fills| || |OrderIds(e.fills)| != 1
                          || FilledTotal(e.fills) > request.quantity || !FillsMatchDelta(request, e)))
    || (PositionDelta(request, e).Some? && PositionDelta(request, e).value != 0.0 && e.fills == [])
  }

  function ExternalId(request: Request, e: Evidence): Option<string> {
    if ClientOrderMatches(request, e) then Some(e.clientOrder.value.externalId)
    else if |e.openOrders| == 1 then Some(e.openOrders[0].externalId)
    else if e.fills != [] then Some(e.fills[0].exchangeOrderId)
    else None
  }

  // ---------- The verdict ----------

  datatype Verdict = Ambiguous | Exists(externalId: Option<string>) | Absent | Undetermined

  function Judge(request: Request, e: Evidence): Verdict {
    if IsAmbiguous(request, e) then Ambiguous
    else if ProvesExists(request, e) then Exists(ExternalId(request, e))
    else if ProvesAbsent(request, e) then Absent
    else Undetermined
  }

  /** An order found absent left no trace: the position did not move since a recorded baseline. */
  lemma {:induction false} AbsentIsSound(request: Request, e: Evidence)
    requires Judge(request, e).Absent?
    ensures e.baseline.Some? && e.baseline.value.venue == request.exchange && e.baseline.value.symbol == request.symbol
    ensures PositionDelta(request, e) == Some(0.0) && e.fills == [] && e.openOrders == []
    ensures e.clientOrder.Some? ==>
              && ClientOrderMatches(request, e)
              && (e.clientOrder.value.status.Canceled? || e.clientOrder.value.status.Refused? || e.clientOrder.value.status.Lapsed?)
  {
  }

  /** An order found to exist has an external id, and its fills, if any, are one order's and explain the position. */
  lemma {:induction false} ExistsIsSound(request: Request, e: Evidence)
    requires Judge(request, e).Exists?
    ensures Judge(request, e).externalId.Some? && Judge(request, e).externalId.value != ""
    ensures ClientOrderMatches(request, e) || |e.openOrders| == 1 || e.fills != []
    ensures e.clientOrder.Some? ==> Judge(request, e).externalId == Some(e.clientOrder.value.externalId)
    ensures e.fills != [] ==>
              && (forall i, j :: 0 <= i < j < |e.fills| ==> e.fills[i].fillId != e.fills[j].fillId)
              && (forall i, j :: 0 <= i < j < |e.fills| ==> e.fills[i].exchangeOrderId == e.fills[j].exchangeOrderId)
              && FilledTotal(e.fills) <= request.quantity
              && PositionDelta(request, e) == Some(SignedTotal(request, e.fills))
  {
    if e.fills != [] {
      DistinctFills(e.fills);
      OneOrder(e.fills);
    }
  }

  function Drop(fills: seq<ExchangeFill>, j: nat): seq<ExchangeFill>
    requires j < |fills|
  {
    fills[..j] + fills[j + 1..]
  }

  lemma {:induction false} FillIdsSplit(fills: seq<ExchangeFill>)
    requires fills != []
    ensures FillIds(fills) == FillIds(fills[..|fills| - 1]) + {fills[|fills| - 1].fillId}
  {
    assert fills == fills[..|fills| - 1] + [fills[|fills| - 1]];
  }

  lemma {:induction false} IdsAtMost(fills: seq<ExchangeFill>)
    ensures |FillIds(fills)| <= |fills|
  {
    if fills != [] {
      IdsAtMost(fills[..|fills| - 1]);
      FillIdsSplit(fills);
    }
  }

  /** A repeated id leaves fewer ids than fills. */
  lemma {:induction false} RepeatShrinks(fills: seq<ExchangeFill>, i: nat, j: nat)
    requires i < j < |fills| && fills[i].fillId == fills[j].fillId
    ensures |FillIds(fills)| < |fills|
  {
    var rest := Drop(fills, j);
    assert rest[i] == fills[i];
    forall f | f in fills
      ensures f.fillId in FillIds(rest)
    {
      var k :| 0 <= k < |fills| && fills[k] == f;
      if k < j {
        assert rest[k] == f;
      } else if k > j {
        assert rest[k - 1] == f;
      } else {
        assert rest[i] in rest;
      }
    }
    assert FillIds(fills) == FillIds(rest);
    IdsAtMost(rest);
  }

  /** As many ids as fills means that no two fills share an id. */
  lemma {:induction false} DistinctFills(fills: seq<ExchangeFill>)
    requires |FillIds(fills)| == |fills|
    ensures forall i, j :: 0 <= i < j < |fills| ==> fills[i].fillId != fills[j].fillId
  {
    forall i, j | 0 <= i < j < |fills|
      ensures fills[i].fillId != fills[j].fillId
    {
      if fills[i].fillId == fills[j].fillId {
        RepeatShrinks(fills, i, j);
      }
    }
  }

  lemma {:induction false} OneOrder(fills: seq<ExchangeFill>)
    requires fills != []
    ensures |OrderIds(fills)| == 1 <==> forall i, j :: 0 <= i < j < |fills| ==> fills[i].exchangeOrderId == fills[j].exchangeOrderId
  {
    var first := fills[0].exchangeOrderId;
    assert first in OrderIds(fills);
    if |OrderIds(fills)| == 1 {
      assert |OrderIds(fills) - {first}| == 0;
      forall i | 0 <= i < |fills|
        ensures fills[i].exchangeOrderId == first
      {
        assert fills[i].exchangeOrderId in OrderIds(fills);
        assert fills[i].exchangeOrderId !in OrderIds(fills) - {first};
      }
    }
    if forall i, j :: 0 <= i < j < |fills| ==> fills[i].exchangeOrderId == fills[j].exchangeOrderId {
      assert forall i :: 0 <= i < |fills| ==> fills[i].exchangeOrderId == first;
      assert OrderIds(fills) == {first};
    }
  }

  // ---------- Listing order ----------

  ghost predicate SameListing(a: Evidence, b: Evidence) {
    && a.baseline == b.baseline && a.clientOrder == b.clientOrder && a.capturedAt == b.capturedAt
    && multiset(a.fills) == multiset(b.fills)
    && multiset(a.openOrders) == multiset(b.openOrders)
    && multiset(a.positions) == multiset(b.positions)
  }

  lemma {:induction false} SameLength<T>(a: seq<T>, b: seq<T>)
    requires multiset(a) == multiset(b)
    ensures |a| == |b|
    ensures forall x :: x in a <==> x in b
  {
    assert |multiset(a)| == |a| && |multiset(b)| == |b|;
    forall x
      ensures x in a <==> x in b
    {
      assert x in multiset(a) <==> x in multiset(b);
    }
  }

  lemma {:induction false} SelectCounts<T(!new)>(items: seq<T>, keep: T -> bool, x: T)
    ensures multiset(Select(items, keep))[x] == if keep(x) then multiset(items)[x] else 0
  {
    if items != [] {
      var n := |items| - 1;
      SelectCounts(items[..n], keep, x);
      assert items == items[..n] + [items[n]];
    }
  }

  lemma {:induction false} SelectSame<T(!new)>(a: seq<T>, b: seq<T>, keep: T -> bool)
    requires multiset(a) == multiset(b)
    ensures multiset(Select(a, keep)) == multiset(Select(b, keep))
  {
    forall x: T
      ensures multiset(Select(a, keep))[x] == multiset(Select(b, keep))[x]
    {
      SelectCounts(a, keep, x);
      SelectCounts(b, keep, x);
    }
  }

  lemma {:induction false} TotalJoins(a: seq<ExchangeFill>, b: seq<ExchangeFill>)
    ensures FilledTotal(a + b) == FilledTotal(a) + FilledTotal(b)
  {
    if b == [] {
      assert a + b == a;
    } else {
      var n := |b| - 1;
      TotalJoins(a, b[..n]);
      assert (a + b)[..|a| + n] == a + b[..n];
    }
  }

  lemma {:induction false} TotalDrops(fills: seq<ExchangeFill>, j: nat)
    requires j < |fills|
    ensures FilledTotal(fills) == FilledTotal(Drop(fills, j)) + fills[j].quantity
    ensures multiset(fills) == multiset(Drop(fills, j)) + multiset{fills[j]}
  {
    assert fills == fills[..j] + ([fills[j]] + fills[j + 1..]);
    TotalJoins(fills[..j], [fills[j]] + fills[j + 1..]);
    TotalJoins([fills[j]], fills[j + 1..]);
    TotalJoins(fills[..j], fills[j + 1..]);
    assert [fills[j]][..0] == [];
  }

  lemma {:induction false} SameTotal(a: seq<ExchangeFill>, b: seq<ExchangeFill>)
    requires multiset(a) == multiset(b)
    ensures FilledTotal(a) == FilledTotal(b)
    decreases |a|
  {
    SameLength(a, b);
    if a != [] {
      assert a[0] in b;
      var j :| 0 <= j < |b| && b[j] == a[0];
      TotalDrops(a, 0);
      TotalDrops(b, j);
      assert multiset(Drop(a, 0)) == multiset(a) - multiset{a[0]};
      assert multiset(Drop(b, j)) == multiset(b) - multiset{b[j]};
      SameTotal(Drop(a, 0), Drop(b, j));
    }
  }

  lemma {:induction false} SingleListing<T>(a: seq<T>, b: seq<T>)
    requires multiset(a) == multiset(b) && |a| <= 1
    ensures a == b
  {
    SameLength(a, b);
    if a != [] {
      assert a[0] in b;
    }
  }

  lemma {:induction false} SameDelta(request: Request, a: Evidence, b: Evidence)
    requires SameListing(a, b)
    ensures PositionDelta(request, a) == PositionDelta(request, b)
  {
    var keep := (p: LivePosition) => p.exchange == request.exchange && p.symbol == request.symbol;
    SelectSame(a.positions, b.positions, keep);
    var x, y := Select(a.positions, keep), Select(b.positions, keep);
    assert PositionsOf(request, a.positions) == x && PositionsOf(request, b.positions) == y;
    SameLength(x, y);
    if |x| <= 1 {
      SingleListing(x, y);
    }
  }

  lemma {:induction false} SameFacts(request: Request, a: Evidence, b: Evidence)
    requires SameListing(a, b)
    ensures IsAmbiguous(request, a) == IsAmbiguous(request, b)
    ensures ProvesExists(request, a) == ProvesExists(request, b)
    ensures ProvesAbsent(request, a) == ProvesAbsent(request, b)
  {
    SameDelta(request, a, b);
    SameTotal(a.fills, b.fills);
    SameLength(a.fills, b.fills);
    SameLength(a.openOrders, b.openOrders);
    assert FillIds(a.fills) == FillIds(b.fills);
    assert OrderIds(a.fills) == OrderIds(b.fills);
  }

  /** The verdict and the external id do not depend on the order in which the exchange lists things. */
  lemma {:induction false} VerdictIgnoresListingOrder(request: Request, a: Evidence, b: Evidence)
    requires SameListing(a, b)
    ensures Judge(request, a) == Judge(request, b)
  {
    SameFacts(request, a, b);
    if Judge(request, a).Exists? {
      SameLength(a.openOrders, b.openOrders);
      SameLength(a.fills, b.fills);
      if |a.openOrders| == 1 {
        SingleListing(a.openOrders, b.openOrders);
      }
      if a.fills != [] {
        ExistsIsSound(request, a);
        assert b.fills[0] in a.fills;
        var j :| 0 <= j < |a.fills| && a.fills[j] == b.fills[0];
        assert a.fills[0].exchangeOrderId == a.fills[j].exchangeOrderId;
      }
    }
  }

  /** The same at the source: whatever the order of the exchange's own listings, the collected evidence is judged alike. */
  lemma {:induction false} CollectedVerdictIgnoresOrder(
      request: Request, baseline: Option<PositionBaseline>, clientOrder: Option<ReconciledOrder>,
      fills: seq<ExchangeFill>, openOrders: seq<OpenOrder>, positions: seq<LivePosition>,
      fills': seq<ExchangeFill>, openOrders': seq<OpenOrder>, positions': seq<LivePosition>, at: int)
    requires multiset(fills) == multiset(fills') && multiset(openOrders) == multiset(openOrders')
    requires multiset(positions) == multiset(positions')
    ensures Judge(request, Collect(request, baseline, clientOrder, fills, openOrders, positions, at))
            == Judge(request, Collect(request, baseline, clientOrder, fills', openOrders', positions', at))
  {
    var since := Since(request, baseline);
    SelectSame(fills, fills', (f: ExchangeFill) => FillMatches(request, since, at, f));
    SelectSame(openOrders, openOrders', (o: OpenOrder) => OpenOrderMatches(request, since, at, o));
    VerdictIgnoresListingOrder(request, Collect(request, baseline, clientOrder, fills, openOrders, positions, at),
                               Collect(request, baseline, clientOrder, fills', openOrders', positions', at));
  }

  // ---------- What counts as the request's own ----------

  /** The open order that a request becomes at the exchange. */
  function OpenOrderOf(request: Request, externalId: string, createdAt: int): OpenOrder_ {
    OpenOrder(request.requestId, externalId, request.exchange, request.symbol, request.side, request.quantity, request.reduceOnly, createdAt)
  }

  function FillOf(request: Request, fillId: string, exchangeOrderId: string, quantity: real, executedAt: int): ExchangeFill_ {
    ExchangeFill(fillId, exchangeOrderId, request.requestId, request.exchange, request.symbol, request.side, quantity, executedAt)
  }

  function ClientOrderOf(request: Request, externalId: string, status: ReconciledStatus, createdAt: int, updatedAt: int): ReconciledOrder_ {
    ReconciledOrder(request.requestId, externalId, request.exchange, request.symbol, request.side, request.quantity, request.reduceOnly,
                    status, createdAt, updatedAt)
  }

  /** A listed order, fill or client order counts exactly if it is the request's own and falls between the baseline
      and the time of the evidence, both included. */
  lemma {:induction false} OwnExactly(request: Request, e: Evidence, o: OpenOrder, f: ExchangeFill)
    ensures var since := Since(request, e.baseline);
            && (OpenOrderMatches(request, since, e.capturedAt, o) <==>
                  o == OpenOrderOf(request, o.externalId, o.createdAt) && since <= o.createdAt <= e.capturedAt)
            && (FillMatches(request, since, e.capturedAt, f) <==>
                  f == FillOf(request, f.fillId, f.exchangeOrderId, f.quantity, f.executedAt) && since <= f.executedAt <= e.capturedAt)
            && (ClientOrderMatches(request, e) <==>
                  && e.clientOrder.Some?
                  && var c := e.clientOrder.value;
                  && c == ClientOrderOf(request, c.externalId, c.status, c.createdAt, c.updatedAt)
                  && since <= c.createdAt <= c.updatedAt <= e.capturedAt)
            && (e.baseline.Some? ==> since == e.baseline.value.capturedAt) && (e.baseline.None? ==> since == request.createdAt)
  {
  }

  /** The position change is what the exchange reports now for the request's venue and symbol minus the baseline. */
  lemma {:induction false} DeltaIsMovement(request: Request, e: Evidence, p: LivePosition)
    requires e.baseline.Some? && e.baseline.value.venue == request.exchange && e.baseline.value.symbol == request.symbol
    ensures PositionsOf(request, e.positions) == [p] ==> PositionDelta(request, e) == Some(p.quantity - e.baseline.value.quantityBefore)
    ensures PositionsOf(request, e.positions) == [] ==> PositionDelta(request, e) == Some(-e.baseline.value.quantityBefore)
    ensures |PositionsOf(request, e.positions)| > 1 ==> PositionDelta(request, e).None?
    ensures forall x :: x in PositionsOf(request, e.positions) <==> x in e.positions && x.exchange == request.exchange && x.symbol == request.symbol
  {
  }

  // ---------- Verdicts, exactly ----------

  /** Fills that belong together: no id twice, one order, within the request, and the whole of the position change. */
  ghost predicate OneOrdersFills(request: Request, e: Evidence) {
    && (forall i, j :: 0 <= i < j < |e.fills| ==> e.fills[i].fillId != e.fills[j].fillId)
    && (forall i, j :: 0 <= i < j < |e.fills| ==> e.fills[i].exchangeOrderId == e.fills[j].exchangeOrderId)
    && FilledTotal(e.fills) <= request.quantity
    && PositionDelta(request, e) == Some(SignedTotal(request, e.fills))
  }

  /** Nothing in the evidence speaks against one order: the client order, if found, is the request and settled, at
      most one order is open, and the position moved by the fills or, without fills, not at all as far as known. */
  ghost predicate Coherent(request: Request, e: Evidence) {
    && (e.clientOrder.Some? ==> ClientOrderMatches(request, e) && !e.clientOrder.value.status.Pending?)
    && |e.openOrders| <= 1
    && if e.fills == [] then PositionDelta(request, e).None? || PositionDelta(request, e) == Some(0.0) else OneOrdersFills(request, e)
  }

  lemma {:induction false} DistinctIdsCount(fills: seq<ExchangeFill>)
    requires forall i, j :: 0 <= i < j < |fills| ==> fills[i].fillId != fills[j].fillId
    ensures |FillIds(fills)| == |fills|
  {
    if fills != [] {
      var n := |fills| - 1;
      DistinctIdsCount(fills[..n]);
      FillIdsSplit(fills);
    }
  }

  lemma {:induction false} CoherentExactly(request: Request, e: Evidence)
    ensures IsAmbiguous(request, e) <==> !Coherent(request, e)
  {
    if e.fills != [] {
      OneOrder(e.fills);
      if |FillIds(e.fills)| == |e.fills| {
        DistinctFills(e.fills);
      } else if forall i, j :: 0 <= i < j < |e.fills| ==> e.fills[i].fillId != e.fills[j].fillId {
        DistinctIdsCount(e.fills);
      }
    }
  }

  /**
   The verdicts, exactly. An order exists if and only if the evidence is coherent and shows it: as a client
   order that is open or filled, as an open order, or by fills. It is absent if and only if the evidence is
   coherent, shows none of that, and the position is known not to have moved.
   */
  lemma {:induction false} VerdictExactly(request: Request, e: Evidence)
    ensures var shown := (e.clientOrder.Some? && e.clientOrder.value.status in {Open, PartlyFilled, FullyFilled}) || e.openOrders != [] || e.fills != [];
            && (Judge(request, e).Exists? <==> Coherent(request, e) && shown)
            && (Judge(request, e).Absent? <==> Coherent(request, e) && !shown && PositionDelta(request, e) == Some(0.0))
            && (Judge(request, e).Ambiguous? <==> !Coherent(request, e))
  {
    CoherentExactly(request, e);
  }

  /** An exchange that holds the submitted order, still open and untouched, gives it back under its id. */
  lemma {:induction false} OpenOrderIsFound(request: Request, baseline: PositionBaseline, order: ReconciledOrder, fills: seq<ExchangeFill>,
                                            open: OpenOrder, openOrders: seq<OpenOrder>, positions: seq<LivePosition>, at: int)
    requires var e := Collect(request, Some(baseline), Some(order), fills, openOrders, positions, at);
             && ClientOrderMatches(request, e) && order.status.Open?
             && e.fills == [] && e.openOrders == [open]
             && PositionDelta(request, e) == Some(0.0)
    ensures Judge(request, Collect(request, Some(baseline), Some(order), fills, openOrders, positions, at)) == Exists(Some(order.externalId))
  {
    VerdictExactly(request, Collect(request, Some(baseline), Some(order), fills, openOrders, positions, at));
  }

  lemma {:induction false} NoneKept<T(!new)>(items: seq<T>, keep: T -> bool)
    requires forall x :: x in items ==> !keep(x)
    ensures Select(items, keep) == []
  {
    if items != [] {
      NoneKept(items[..|items| - 1], keep);
    }
  }

  /** An exchange without trace of the order, whose position has not moved since the baseline, proves it absent. */
  lemma {:induction false} NoTraceIsAbsent(request: Request, baseline: PositionBaseline, fills: seq<ExchangeFill>,
                                           openOrders: seq<OpenOrder>, positions: seq<LivePosition>, at: int)
    requires forall f :: f in fills ==> f.clientOrderId != request.requestId
    requires forall o :: o in openOrders ==> o.clientOrderId != request.requestId
    requires baseline.venue == request.exchange && baseline.symbol == request.symbol
    requires PositionsOf(request, positions) == [LivePosition(request.exchange, request.symbol, baseline.quantityBefore)]
             || (PositionsOf(request, positions) == [] && baseline.quantityBefore == 0.0)
    ensures Judge(request, Collect(request, Some(baseline), None, fills, openOrders, positions, at)) == Absent
  {
    var e := Collect(request, Some(baseline), None, fills, openOrders, positions, at);
    NoneKept(fills, (f: ExchangeFill) => FillMatches(request, baseline.capturedAt, at, f));
    NoneKept(openOrders, (o: OpenOrder) => OpenOrderMatches(request, baseline.capturedAt, at, o));
    assert e.fills == [] && e.openOrders == [];
    VerdictExactly(request, e);
  }
}
